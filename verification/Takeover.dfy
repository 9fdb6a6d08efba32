/** What a leaked server key does to a restart: its dead peer is saved, too, and may come back in the place of a client
    that has since taken its index. The file then disagrees with itself. */
module Takeover {
  import opened Bytes
  import opened Tables
  import opened Records
  import opened Runs
  import opened WeakRuns
  import opened Sessions
  import opened SecondResponse
  import Alloc
  import AnyRuns
  import Restarts
  import Joining

  /** Some iteration order ends with `k`. */
  lemma {:induction false} OrderEndingWith<P>(m: map<Index, P>, k: Index) returns (order: seq<Index>)
    requires k in m
    ensures Enumerates(order, m) && order != [] && order[|order| - 1] == k
    decreases m.Keys
  {
    if l :| l in m && l != k {
      var rest := m - {l};
      assert rest.Keys == m.Keys - {l};
      var tail := OrderEndingWith(rest, k);
      order := [l] + tail;
      assert forall i :: 0 < i < |order| ==> order[i] == tail[i - 1] && order[i] in rest;
      forall c | c in m
        ensures c in order
      {
        assert c == l || c in tail;
      }
    } else {
      order := [k];
      assert order[0] == k;
    }
  }

  /** The last record of a file gets its client key. */
  lemma LastWins(rs: seq<Record>, now: Time)
    requires rs != [] && Usable(rs[|rs| - 1])
    ensures var t, r := Load(EMPTY, rs, now), rs[|rs| - 1];
            && r.clientProxy in t.clientMap && t.clientMap[r.clientProxy] < |t.heap|
            && FromRecord(r, now) == Some(t.heap[t.clientMap[r.clientProxy]])
  {
  }

  lemma LeakDisagrees(s: State, k: Index, id: PeerId, a: Index, x: Session, order: seq<Index>)
    requires WellFormed(s) && Leaked(s, k, id, a) && Live(s.table, x) && x.clientProxy == a
    requires Enumerates(order, s.table.serverMap) && s.table.heap[id].clientDest != PeerOf(s.table, x).clientDest
    ensures !Consistent(Saved(s.table, order))
  {
    var rs := Saved(s.table, order);
    var i :| 0 <= i < |order| && order[i] == k;
    var j :| 0 <= j < |order| && order[j] == x.serverProxy;
    assert rs[i] == ToRecord(s.table.heap[id]) && rs[j] == ToRecord(PeerOf(s.table, x));
    assert !Agree(rs[i], rs[j]);
  }

  /** What a replied peer without a server level lets through. */
  lemma Serves(s: State, a: Index, src: Addr, at: Time)
    requires WellFormed(s) && a in s.table.clientMap && a != 0
    requires var p := s.table.heap[s.table.clientMap[a]]; p.serverLevel == LEVEL_DEFAULT && Replied(p)
    ensures var p := s.table.heap[s.table.clientMap[a]];
            Emits(s, ServerTransport(a, src, at)) ==
            if src == p.serverDest then SendToClient(p.clientOrigin, p.clientDest, p.obfuscate) else Nothing
  {
  }

  /** All that reaches a client under key `a` goes to the dead peer's address, and only its server gets through. */
  ghost predicate TakenOver(r: State, a: Index, dead: Peer) {
    forall src, at :: Emits(r, ServerTransport(a, src, at)) ==
      if src == dead.serverDest then SendToClient(dead.clientOrigin, dead.clientDest, dead.obfuscate) else Nothing
  }

  /** If a client has taken the index of a dead peer and the dead peer is listed last in the file, then after the
      restart the packets of the client's server go to the dead peer's address if both have the same server, and are
      refused otherwise. Where the two have different addresses the file disagrees with itself. */
  lemma DeadTakesOver(s: State, k: Index, id: PeerId, a: Index, x: Session, order: seq<Index>, now: Time)
    requires WellFormed(s) && LevelsOk(s) && Leaked(s, k, id, a) && Live(s.table, x) && x.clientProxy == a
    requires Enumerates(order, s.table.serverMap) && order != [] && order[|order| - 1] == k
    ensures var dead := s.table.heap[id];
            var s1 := Next(s, SaveTable(order));
            && TakenOver(Next(s1, Restart(true, now)), a, dead)
            && (dead.clientDest != PeerOf(s.table, x).clientDest ==> !Consistent(s1.disk))
  {
    Restarts.Reloaded(s, order, now);
    var rs, dead := Saved(s.table, order), s.table.heap[id];
    if dead.clientDest != PeerOf(s.table, x).clientDest {
      LeakDisagrees(s, k, id, a, x, order);
    }
    assert rs[|order| - 1] == ToRecord(dead) && dead.serverLevel == LEVEL_DEFAULT && dead.clientProxy == a != 0
           && Replied(dead);
    LastWins(rs, now);
    var r := Next(Next(s, SaveTable(order)), Restart(true, now));
    hide Next, Emits, Saved, Load, Enumerates, LevelsOk, Live, WellFormed;
    forall src, at
      ensures Emits(r, ServerTransport(a, src, at)) ==
              if src == dead.serverDest then SendToClient(dead.clientOrigin, dead.clientDest, dead.obfuscate)
                else Nothing
    {
      Serves(r, a, src, at);
    }
  }

  /** It happens: from every state with a leaked key whose peer's index is free, a new client elsewhere that takes the
      index completes a handshake, and then some save and restart cut it off: nothing is sent to its address under its
      index. */
  lemma TakeoverFollows(s: State, k: Index, id: PeerId, a: Index, e: Event, answer: Index, now: Time)
    returns (es: seq<Event>, x: Session, order: seq<Index>)
    requires WeakSystemInv(s) && LevelsOk(s) && Leaked(s, k, id, a) && Alloc.Free(s.table.clientMap, a)
    requires e.ExtractPeer? && e.src != s.table.heap[id].clientDest && |s.table.serverMap| < 0x1_0000_0000 - 1
    ensures GoodRun(s, es) && Joining.LiveAt(Run(s, es).table, x, e.src) && x.clientOrigin == e.sender
            && x.clientProxy == a
    ensures id < |Run(s, es).table.heap| && Run(s, es).table.heap[id].clientDest != e.src
    ensures var s1 := Next(Run(s, es), SaveTable(order));
            !Consistent(s1.disk) && TakenOver(Next(s1, Restart(true, now)), a, Run(s, es).table.heap[id])
  {
    Alloc.FreeExists(s.table.serverMap);
    var proxy: Index :| Alloc.Free(s.table.serverMap, proxy);
    es := Joining.Handshake(e, |s.table.heap|, answer, a, proxy, now);
    x := Session(e.sender, a, answer, proxy);
    assert NoRestart(es) && AnyRuns.NoClientTransport(es);
    hide Run, Next, GoodRun, WeakRun, Emits, TakenOver, Joining.Handshake;
    Joining.HandshakeCompletes(s, e, answer, a, proxy, now);
    GoodButWeak(s, es);
    LeakIsPermanent(s, es, k, id, a);
    AnyRuns.RunLevels(s, es);
    AnyRuns.RunKeepsClientAddress(s, es, id);
    order := OrderEndingWith(Run(s, es).table.serverMap, k);
    DeadTakesOver(Run(s, es), k, id, a, x, order, now);
  }

  /** Without restarts the steps of a good run are weakly good. */
  lemma {:induction false} GoodButWeak(s: State, es: seq<Event>)
    requires GoodRun(s, es) && NoRestart(es)
    ensures WeakRun(s, es)
  {
    if es != [] {
      GoodButWeak(s, es[..|es| - 1]);
    }
  }
}
