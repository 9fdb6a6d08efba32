/** A second response for the same peer overwrites its server proxy index without removing the old key.
    The entry it leaves behind outlives the peer, and nothing but a restart removes it. */
module SecondResponse {
  import opened Bytes
  import opened Tables
  import opened Runs
  import opened WeakRuns
  import Alloc

  /** Server key `k` still leads to peer `id`, which was registered under `a` and no longer is. */
  predicate Leaked(s: State, k: Index, id: PeerId, a: Index) {
    && WellFormed(s) && k in s.table.serverMap && s.table.serverMap[k] == id
    && s.table.heap[id].clientProxy == a != 0 && Replied(s.table.heap[id])
    && forall c :: c in s.table.clientMap ==> s.table.clientMap[c] != id
  }

  lemma ExpireKeepsLeak(s: State, e: Event, k: Index, id: PeerId, a: Index)
    requires WeakSystemInv(s) && e.ExpireCheck? && Leaked(s, k, id, a)
    ensures Leaked(Next(s, e), k, id, a)
  {
    forall c | c in s.table.clientMap && Stale(s.table, c, e.cutoff)
      ensures s.table.heap[s.table.clientMap[c]].serverProxy != k
    {
      if Replied(s.table.heap[s.table.clientMap[c]]) {
        assert s.table.serverMap[s.table.heap[s.table.clientMap[c]].serverProxy] == s.table.clientMap[c];
      }
    }
  }

  lemma HandshakeKeepsLeak(s: State, e: Event, k: Index, id: PeerId, a: Index)
    requires WeakSystemInv(s) && WeakGood(s, e) && !QuietEvent(e) && !e.Restart? && Leaked(s, k, id, a)
    requires WellFormed(Next(s, e))
    ensures Leaked(Next(s, e), k, id, a)
  {
    if e.InsertPeer? {
      assert InitiationOk(s.table.heap[e.peer], s.initiations[e.peer]);
    }
  }

  lemma QuietKeepsLeak(s: State, e: Event, k: Index, id: PeerId, a: Index)
    requires WeakSystemInv(s) && WeakGood(s, e) && QuietEvent(e) && !e.ExpireCheck? && Leaked(s, k, id, a)
    requires WellFormed(Next(s, e))
    ensures Leaked(Next(s, e), k, id, a)
  {
    Quiet(s, e);
    if e.ClientTransport? {
      FromClientFrame(s.table, e.receiver, e.src, e.now);
    } else if e.ServerTransport? {
      FromServerFrame(s.table, e.receiver, e.src, e.now);
    }
    assert Next(s, e).table.serverMap == s.table.serverMap;
    assert QuietPeer(s.table.heap[s.table.serverMap[k]], Next(s, e).table.heap[s.table.serverMap[k]]);
  }

  /** A leaked key survives every step of the running process, expiry included. */
  lemma {:induction false} LeakIsPermanent(s: State, es: seq<Event>, k: Index, id: PeerId, a: Index)
    requires WeakSystemInv(s) && WeakRun(s, es) && NoRestart(es) && Leaked(s, k, id, a)
    ensures WeakSystemInv(Run(s, es)) && Leaked(Run(s, es), k, id, a)
  {
    if es != [] {
      var e := es[|es| - 1];
      LeakIsPermanent(s, es[..|es| - 1], k, id, a);
      var s' := Run(s, es[..|es| - 1]);
      WeakStepKeeps(s', e);
      if e.ExpireCheck? {
        ExpireKeepsLeak(s', e, k, id, a);
      } else if QuietEvent(e) {
        QuietKeepsLeak(s', e, k, id, a);
      } else {
        HandshakeKeepsLeak(s', e, k, id, a);
      }
    }
  }

  /** In general: a further response to a replied peer, then expiry of that peer, leaks its previous key. */
  lemma SecondResponseLeaks(s: State, receiver: Index, sender: Index, proxy: Index, now: Time, cutoff: Time)
    requires WeakSystemInv(s) && receiver in s.table.clientMap && Alloc.Free(s.table.serverMap, proxy)
    requires Replied(s.table.heap[s.table.clientMap[receiver]]) && now < cutoff
    ensures var k := s.table.heap[s.table.clientMap[receiver]].serverProxy;
            var s' := Next(Next(s, HandleResponse(sender, receiver, proxy, now)), ExpireCheck(cutoff));
            && WeakSystemInv(s') && Leaked(s', k, s.table.clientMap[receiver], receiver)
            && Alloc.Free(s'.table.clientMap, receiver)
  {
    var e := HandleResponse(sender, receiver, proxy, now);
    var id := s.table.clientMap[receiver];
    var k := s.table.heap[id].serverProxy;
    ResponseWeak(s, e);
    var s1 := Next(s, e);
    assert s1.table.serverMap[k] == id && s1.table.heap[id].lastActive == now;
    WeakStepKeeps(s1, ExpireCheck(cutoff));
    var s2 := Next(s1, ExpireCheck(cutoff));
    forall c | c in s1.table.clientMap && Stale(s1.table, c, cutoff)
      ensures s1.table.heap[s1.table.clientMap[c]].serverProxy != k
    {
      var q := s1.table.clientMap[c];
      assert c in s.table.clientMap && s.table.clientMap[c] == q;
      assert q != id ==> s.table.heap[q].serverProxy != k;
    }
    forall c | c in s2.table.clientMap
      ensures s2.table.clientMap[c] != id
    {
      assert !Stale(s1.table, c, cutoff);
    }
  }

  ghost function Registered(src: Addr, rule: Rule, a: Index): State {
    Next(Next(INITIAL, ExtractPeer(src, a, rule, false, 0)), InsertPeer(0, a))
  }

  lemma RegisteredState(src: Addr, rule: Rule, a: Index)
    requires a != 0
    ensures SystemInv(Registered(src, rule, a))
    ensures var t := Registered(src, rule, a).table;
            t == Table([NewPeer(rule, src, a, 0).(clientProxy := a)], map[a := 0], map[])
  {
    var e := ExtractPeer(src, a, rule, false, 0);
    StepKeeps(INITIAL, e);
    var s := Next(INITIAL, e);
    assert s.table.heap == [NewPeer(rule, src, a, 0)];
    StepKeeps(s, InsertPeer(0, a));
  }

  lemma RespondedState(s: State, a: Index, b: Index)
    requires SystemInv(s) && b != 0 && s.table.clientMap == map[a := 0] && b !in s.table.serverMap
    requires |s.table.heap| == 1 && !Replied(s.table.heap[0])
    ensures var s' := Next(s, HandleResponse(b, a, b, 0));
            && SystemInv(s') && s'.table.clientMap == map[a := 0] && s'.table.serverMap == s.table.serverMap[b := 0]
            && |s'.table.heap| == 1 && s'.table.heap[0].serverProxy == b
  {
    assert s.table.heap[s.table.clientMap[a]].clientProxy == a != 0;
    StepKeeps(s, HandleResponse(b, a, b, 0));
  }

  /** The situation is reachable with the allocator as written: one initiation, two responses with different senders. */
  lemma LeakReachable(src: Addr, rule: Rule, a: Index, b: Index, c: Index)
    requires a != 0 && b != 0 && c != 0 && b != c
    ensures var s2 := Registered(src, rule, a);
            var s3 := Next(s2, HandleResponse(b, a, b, 0));
            var s5 := Next(Next(s3, HandleResponse(c, a, c, 0)), ExpireCheck(1));
            && Alloc.Written(EMPTY.clientMap, a, false, []) == Some(a)
            && Alloc.Written(s2.table.serverMap, b, false, []) == Some(b)
            && Alloc.Written(s3.table.serverMap, c, false, []) == Some(c)
            && SystemInv(s3) && WeakSystemInv(s5) && Leaked(s5, b, 0, a) && Alloc.Free(s5.table.clientMap, a)
  {
    RegisteredState(src, rule, a);
    var s2 := Registered(src, rule, a);
    RespondedState(s2, a, b);
    SecondResponseLeaks(Next(s2, HandleResponse(b, a, b, 0)), a, c, c, 0, 1);
  }
}
