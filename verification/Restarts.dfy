/** Saving and loading as a restart that transport traffic does not notice, and exactly where it does. */
module Restarts {
  import opened Bytes
  import opened Tables
  import opened Records
  import opened Runs
  import AnyRuns

  predicate TransportEvent(e: Event) {
    e.ClientTransport? || e.ServerTransport?
  }

  /** What a sequence of events puts on the wire. */
  ghost function Outputs(s: State, es: seq<Event>): seq<Output> {
    if es == [] then [] else Outputs(s, es[..|es| - 1]) + [Emits(Run(s, es[..|es| - 1]), es[|es| - 1])]
  }

  /** A table that a save catches whole: peers may have been answered again, but none has expired behind a server
      key. */
  predicate Intact(t: Table) {
    WeakInv(t) && AllRegistered(t)
  }

  /** An old table and one it was restarted as. */
  ghost predicate Succeeds(t: Table, u: Table) {
    Intact(t) && Inv(u) && Restarted(t, u)
  }

  /** A current server key leads both tables to a pair. */
  lemma CurrentPair(t: Table, u: Table, k: Index)
    requires Succeeds(t, u) && Current(t, k)
    ensures var c := t.heap[t.serverMap[k]].clientProxy;
            && Paired(t, u, c) && t.clientMap[c] == t.serverMap[k]
            && k in u.serverMap && u.clientMap[c] == u.serverMap[k]
  {
    assert Paired(t, u, t.heap[t.serverMap[k]].clientProxy);
  }

  // ---------------------------------------------------------------- client packets

  /** Both peers of the pair under `c` move alike, and other pairs stay. */
  lemma PairMoves(t: Table, u: Table, c: Index, d: Index, p: Peer, q: Peer)
    requires Succeeds(t, u) && Paired(t, u, c) && Paired(t, u, d) && SameSession(p, q)
    ensures Paired(t.(heap := t.heap[t.clientMap[c] := p]), u.(heap := u.heap[u.clientMap[c] := q]), d)
  {
    assert t.heap[t.clientMap[c]].clientProxy == c && t.heap[t.clientMap[d]].clientProxy == d;
    assert u.heap[u.clientMap[c]].clientProxy == c && u.heap[u.clientMap[d]].clientProxy == d;
  }

  /** Nothing that the relation looks at in one table alone has changed. */
  predicate SameKeys(t: Table, t': Table) {
    && t'.clientMap == t.clientMap && t'.serverMap == t.serverMap && |t'.heap| == |t.heap|
    && (forall i :: 0 <= i < |t.heap| ==> t'.heap[i].clientProxy == t.heap[i].clientProxy)
    && (forall i :: 0 <= i < |t.heap| ==> t'.heap[i].serverProxy == t.heap[i].serverProxy)
  }

  lemma SameKeysIntact(t: Table, t': Table)
    requires Intact(t) && SameKeys(t, t')
    ensures Intact(t') && forall k :: Current(t', k) <==> Current(t, k)
  {
  }

  lemma SameKeysInv(u: Table, u': Table)
    requires Inv(u) && SameKeys(u, u')
    ensures Inv(u')
  {
  }

  lemma StillSucceeds(t: Table, u: Table, t': Table, u': Table)
    requires Succeeds(t, u) && SameKeys(t, t') && SameKeys(u, u')
    requires forall c :: c in u.clientMap ==> Paired(t', u', c)
    ensures Succeeds(t', u')
  {
    SameKeysIntact(t, t');
    SameKeysInv(u, u');
    hide Intact, Inv, Paired;
  }

  predicate SameNames(p: Peer, p': Peer) {
    p'.clientProxy == p.clientProxy && p'.serverProxy == p.serverProxy
  }

  lemma UpdatedKeys(t: Table, id: PeerId, p: Peer)
    requires id < |t.heap| && SameNames(t.heap[id], p)
    ensures SameKeys(t, t.(heap := t.heap[id := p]))
  {
  }

  lemma MovedPair(t: Table, u: Table, c: Index, p: Peer, q: Peer)
    requires Succeeds(t, u) && Paired(t, u, c) && SameSession(p, q)
    requires SameNames(t.heap[t.clientMap[c]], p) && SameNames(u.heap[u.clientMap[c]], q)
    ensures Succeeds(t.(heap := t.heap[t.clientMap[c] := p]), u.(heap := u.heap[u.clientMap[c] := q]))
  {
    var t', u' := t.(heap := t.heap[t.clientMap[c] := p]), u.(heap := u.heap[u.clientMap[c] := q]);
    UpdatedKeys(t, t.clientMap[c], p);
    UpdatedKeys(u, u.clientMap[c], q);
    assert forall d :: d in u.clientMap ==> Paired(t, u, d);
    hide *;
    forall d | d in u.clientMap
      ensures Paired(t', u', d)
    {
      PairMoves(t, u, c, d, p, q);
    }
    StillSucceeds(t, u, t', u');
  }

  lemma FromClientMoves(t: Table, k: Index, c: Index, src: Addr, now: Time)
    requires InHeap(t) && k != 0 && k in t.serverMap && c in t.clientMap && t.clientMap[c] == t.serverMap[k]
    ensures var p := AfterClientPacket(t.heap[t.clientMap[c]], src, now);
            && FromClient(t, k, src, now).0 == t.(heap := t.heap[t.clientMap[c] := p])
            && SameNames(t.heap[t.clientMap[c]], p)
  {
  }

  lemma ClientSucceeds(t: Table, u: Table, k: Index, src: Addr, now: Time)
    requires Succeeds(t, u) && Current(t, k)
    ensures Succeeds(FromClient(t, k, src, now).0, FromClient(u, k, src, now).0)
  {
    CurrentPair(t, u, k);
    var c := t.heap[t.serverMap[k]].clientProxy;
    var p, q := AfterClientPacket(t.heap[t.clientMap[c]], src, now), AfterClientPacket(u.heap[u.clientMap[c]], src,
                                                                                       now);
    assert k != 0 && SameSession(p, q);
    FromClientMoves(t, k, c, src, now);
    FromClientMoves(u, k, c, src, now);
    hide *;
    MovedPair(t, u, c, p, q);
  }

  /** What a client packet puts on the wire. */
  lemma ClientOutput(s: State, k: Index, src: Addr, now: Time)
    requires WellFormed(s)
    ensures Emits(s, ClientTransport(k, src, now)) ==
            if k != 0 && k in s.table.serverMap && ClientAccepts(s.table.heap[s.table.serverMap[k]], src)
            then SendToServer(s.table.heap[s.table.serverMap[k]].serverOrigin,
                              s.table.heap[s.table.serverMap[k]].serverDest)
            else Nothing
  {
  }

  lemma ClientEmits(s: State, r: State, k: Index, src: Addr, now: Time)
    requires WellFormed(s) && WellFormed(r) && Succeeds(s.table, r.table) && Current(s.table, k)
    ensures Emits(s, ClientTransport(k, src, now)) == Emits(r, ClientTransport(k, src, now))
  {
    CurrentPair(s.table, r.table, k);
    hide Emits, Succeeds;
    ClientOutput(s, k, src, now);
    ClientOutput(r, k, src, now);
  }

  // ---------------------------------------------------------------- server packets

  /** A server packet only refreshes a peer, which the relation does not see. */
  lemma ServerPair(t: Table, u: Table, receiver: Index, src: Addr, now: Time, c: Index)
    requires InHeap(t) && InHeap(u) && Paired(t, u, c)
    ensures Paired(FromServer(t, receiver, src, now).0, FromServer(u, receiver, src, now).0, c)
  {
  }

  lemma ServerSameKeys(t: Table, receiver: Index, src: Addr, now: Time)
    requires InHeap(t)
    ensures SameKeys(t, FromServer(t, receiver, src, now).0)
  {
    FromServerFrame(t, receiver, src, now);
  }

  lemma AllPaired(t: Table, u: Table)
    requires Succeeds(t, u)
    ensures InHeap(t) && InHeap(u) && forall c :: c in u.clientMap ==> Paired(t, u, c)
  {
  }

  lemma ServerSucceeds(t: Table, u: Table, receiver: Index, src: Addr, now: Time)
    requires Succeeds(t, u)
    ensures InHeap(t) && InHeap(u) && Succeeds(FromServer(t, receiver, src, now).0, FromServer(u, receiver, src, now).0)
  {
    hide *;
    AllPaired(t, u);
    var t', u' := FromServer(t, receiver, src, now).0, FromServer(u, receiver, src, now).0;
    ServerSameKeys(t, receiver, src, now);
    ServerSameKeys(u, receiver, src, now);
    forall c | c in u.clientMap
      ensures Paired(t', u', c)
    {
      ServerPair(t, u, receiver, src, now, c);
    }
    StillSucceeds(t, u, t', u');
  }

  /** What a server packet puts on the wire. */
  lemma ServerOutput(s: State, c: Index, src: Addr, now: Time)
    requires WellFormed(s)
    ensures Emits(s, ServerTransport(c, src, now)) ==
            if c != 0 && c in s.table.clientMap && ServerAccepts(s.table.heap[s.table.clientMap[c]], src)
            then var p := s.table.heap[s.table.clientMap[c]]; SendToClient(p.clientOrigin, p.clientDest, p.obfuscate)
            else Nothing
  {
  }

  lemma ServerEmits(s: State, r: State, c: Index, src: Addr, now: Time)
    requires WellFormed(s) && WellFormed(r) && Succeeds(s.table, r.table)
    requires c in s.table.clientMap ==> c in r.table.clientMap
    ensures Emits(s, ServerTransport(c, src, now)) == Emits(r, ServerTransport(c, src, now))
  {
    assert c in r.table.clientMap ==> Paired(s.table, r.table, c);
    hide Emits, Succeeds;
    ServerOutput(s, c, src, now);
    ServerOutput(r, c, src, now);
  }

  // ---------------------------------------------------------------- steps and runs

  /** Two processes whose tables are related. */
  ghost predicate Related(s: State, r: State) {
    WellFormed(s) && WellFormed(r) && Succeeds(s.table, r.table)
  }

  /** The packet is for a replied session under a name it has now, or for none. */
  predicate Addressed(s: State, e: Event)
    requires WellFormed(s)
  {
    match e
    case ClientTransport(k, _, _) => k in s.table.serverMap ==> Current(s.table, k)
    case ServerTransport(c, _, _) => c in s.table.clientMap ==> Replied(s.table.heap[s.table.clientMap[c]])
    case _ => false
  }

  lemma TransportKeeps(s: State, e: Event)
    requires WellFormed(s) && TransportEvent(e)
    ensures WellFormed(Next(s, e)) && SameKeys(s.table, Next(s, e).table)
  {
    if e.ClientTransport? {
      FromClientFrame(s.table, e.receiver, e.src, e.now);
    } else {
      FromServerFrame(s.table, e.receiver, e.src, e.now);
    }
  }

  lemma ClientRelated(s: State, r: State, e: Event)
    requires Related(s, r) && e.ClientTransport? && Addressed(s, e)
    ensures Emits(s, e) == Emits(r, e) && Succeeds(Next(s, e).table, Next(r, e).table)
  {
    if e.receiver in s.table.serverMap {
      ClientEmits(s, r, e.receiver, e.src, e.now);
      ClientSucceeds(s.table, r.table, e.receiver, e.src, e.now);
    } else {
      assert e.receiver !in r.table.serverMap;
    }
  }

  lemma StepRelated(s: State, r: State, e: Event)
    requires Related(s, r) && Addressed(s, e)
    ensures Emits(s, e) == Emits(r, e) && Related(Next(s, e), Next(r, e)) && SameKeys(s.table, Next(s, e).table)
  {
    TransportKeeps(s, e);
    TransportKeeps(r, e);
    if e.ClientTransport? {
      ClientRelated(s, r, e);
    } else {
      ServerEmits(s, r, e.receiver, e.src, e.now);
      ServerSucceeds(s.table, r.table, e.receiver, e.src, e.now);
    }
  }

  lemma SameKeysAddressed(s: State, s': State, e: Event)
    requires WellFormed(s) && WellFormed(s') && SameKeys(s.table, s'.table) && Addressed(s, e)
    ensures Addressed(s', e)
  {
  }

  lemma SameKeysTwice(t: Table, t': Table, t'': Table)
    requires SameKeys(t, t') && SameKeys(t', t'')
    ensures SameKeys(t, t'')
  {
  }

  /** For every sequence of transport packets between replied sessions, the restarted process sends exactly what
      the old one would have sent: same lookups, patches, validation verdicts, destinations and obfuscation. */
  lemma {:induction false} BisimilarRuns(s: State, r: State, es: seq<Event>)
    requires Related(s, r) && forall i :: 0 <= i < |es| ==> Addressed(s, es[i])
    ensures Outputs(s, es) == Outputs(r, es) && Related(Run(s, es), Run(r, es)) && SameKeys(s.table, Run(s, es).table)
  {
    if es != [] {
      var init, e := es[..|es| - 1], es[|es| - 1];
      BisimilarRuns(s, r, init);
      var s', r' := Run(s, init), Run(r, init);
      SameKeysAddressed(s, s', e);
      StepRelated(s', r', e);
      SameKeysTwice(s.table, s'.table, Next(s', e).table);
    }
  }

  ghost function AfterRestart(s: State, order: seq<Index>, now: Time): State {
    Next(Next(s, SaveTable(order)), Restart(true, now))
  }

  /** The state after saving in this order and loading again. */
  lemma Reloaded(s: State, order: seq<Index>, now: Time)
    requires WellFormed(s) && Enumerates(order, s.table.serverMap)
    ensures var s1 := Next(s, SaveTable(order));
            && s1.disk == Saved(s.table, order) && WellFormed(s1) && WellFormed(Next(s1, Restart(true, now)))
            && Next(s1, Restart(true, now)).table == Load(EMPTY, s1.disk, now)
  {
    AnyRuns.StepWellFormed(s, SaveTable(order));
    AnyRuns.StepWellFormed(Next(s, SaveTable(order)), Restart(true, now));
  }

  lemma AfterRestartRelated(s: State, order: seq<Index>, now: Time)
    requires WellFormed(s) && Intact(s.table) && Enumerates(order, s.table.serverMap)
    ensures Related(s, AfterRestart(s, order, now))
  {
    Reloaded(s, order, now);
    LoadAfterSave(s.table, order, now);
    hide Next, Load, Saved, WellFormed, Restarted, Inv, Enumerates;
  }

  /** A save followed by a restart is invisible to transport traffic of replied sessions, for any save order, however
      often their peers were answered. */
  lemma RestartUnobservable(s: State, order: seq<Index>, now: Time, es: seq<Event>)
    requires WellFormed(s) && Intact(s.table) && Enumerates(order, s.table.serverMap)
    requires forall i :: 0 <= i < |es| ==> Addressed(s, es[i])
    ensures Outputs(s, es) == Outputs(AfterRestart(s, order, now), es)
  {
    AfterRestartRelated(s, order, now);
    BisimilarRuns(s, AfterRestart(s, order, now), es);
  }

  /** The exceptions are exact. A server packet is treated differently after a restart precisely when it is addressed
      to a peer that was registered but not yet replied. */
  lemma UnrepliedLost(s: State, order: seq<Index>, now: Time, c: Index, src: Addr, at: Time)
    requires WellFormed(s) && Intact(s.table) && Enumerates(order, s.table.serverMap)
    ensures Emits(s, ServerTransport(c, src, at)) != Emits(AfterRestart(s, order, now),
                                                           ServerTransport(c, src, at)) <==>
            c in s.table.clientMap && !Replied(s.table.heap[s.table.clientMap[c]])
  {
    AfterRestartRelated(s, order, now);
    var r := AfterRestart(s, order, now);
    if c in s.table.clientMap && !Replied(s.table.heap[s.table.clientMap[c]]) {
      assert c !in r.table.clientMap;
      assert Emits(r, ServerTransport(c, src, at)) == Nothing;
    } else {
      ServerEmits(s, r, c, src, at);
    }
  }

  /** And a client packet is treated differently precisely when it is addressed to a name that its peer had before a
      further answer, and the peer accepts it. */
  lemma OldNamesLost(s: State, order: seq<Index>, now: Time, k: Index, src: Addr, at: Time)
    requires WellFormed(s) && Intact(s.table) && Enumerates(order, s.table.serverMap)
    ensures Emits(s, ClientTransport(k, src, at)) != Emits(AfterRestart(s, order, now),
                                                           ClientTransport(k, src, at)) <==>
            k in s.table.serverMap && !Current(s.table, k) && ClientAccepts(s.table.heap[s.table.serverMap[k]], src)
  {
    AfterRestartRelated(s, order, now);
    var r := AfterRestart(s, order, now);
    assert k in r.table.serverMap <==> Current(s.table, k);
    hide Emits, Succeeds, AfterRestart;
    if Current(s.table, k) {
      ClientEmits(s, r, k, src, at);
    } else {
      ClientOutput(s, k, src, at);
      ClientOutput(r, k, src, at);
    }
  }

  /** Tables with the full invariant are intact, and all their server keys are current. */
  lemma InvIntact(t: Table)
    requires Inv(t)
    ensures Intact(t) && forall k :: k in t.serverMap ==> Current(t, k)
  {
    InvRegistered(t);
  }
}
