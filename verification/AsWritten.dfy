/** Runs of the program with its allocator as written, in normal (not debug) mode and with nonzero indices.

    The hypothesis of the other theorems, that the allocator delivers free indices, then holds of itself; but no
    session is ever renamed, and one whose index is taken is never registered. */
module AsWritten {
  import opened Bytes
  import opened Tables
  import opened Records
  import opened Runs
  import opened WeakRuns
  import Alloc

  /** The allocator, as written, can return `proxy`. */
  ghost predicate Returns(m: map<Index, PeerId>, origin: Index, proxy: Index) {
    exists draws :: Alloc.Written(m, origin, false, draws) == Some(proxy)
  }

  /** A step in which allocations are what the written loop returns. */
  ghost predicate WrittenStep(s: State, e: Event) {
    && Enabled(s, e)
    && match e
       case ExtractPeer(_, sender, _, _, _) => sender != 0
       case InsertPeer(p, proxy) => Returns(s.table.clientMap, s.table.heap[p].clientOrigin, proxy)
       case HandleResponse(sender, receiver, proxy, _) =>
         sender != 0 && (receiver in s.table.clientMap ==> Returns(s.table.serverMap, sender, proxy))
       case _ => true
  }

  ghost predicate WrittenRun(s: State, es: seq<Event>) {
    es != [] ==> WrittenRun(s, es[..|es| - 1]) && WrittenStep(Run(s, es[..|es| - 1]), es[|es| - 1])
  }

  /** A nonzero origin is either returned as it is, when it is free, or never returned from. */
  lemma ReturnsExactly(m: map<Index, PeerId>, origin: Index, proxy: Index)
    requires origin != 0
    ensures Returns(m, origin, proxy) <==> proxy == origin && Alloc.Free(m, origin)
  {
    assert Alloc.Written(m, origin, false, []) == if origin in m then None else Some(origin);
  }

  /** No index of this peer was changed. */
  predicate Unrenamed(p: Peer) {
    p.clientOrigin != 0 && (p.clientProxy == 0 || p.clientProxy == p.clientOrigin)
    && (Replied(p) ==> p.serverProxy == p.serverOrigin)
  }

  predicate UnrenamedRecord(r: Record) {
    r.clientOrigin != 0 && (r.clientProxy == 0 || r.clientProxy == r.clientOrigin)
    && (r.serverProxy != 0 ==> r.serverProxy == r.serverOrigin)
  }

  predicate Identity(s: State) {
    && (forall i :: 0 <= i < |s.table.heap| ==> Unrenamed(s.table.heap[i]))
    && (forall i :: 0 <= i < |s.disk| ==> UnrenamedRecord(s.disk[i]))
  }

  lemma {:induction false} LoadUnrenamed(rs: seq<Record>, now: Time)
    requires forall i :: 0 <= i < |rs| ==> UnrenamedRecord(rs[i])
    ensures forall i :: 0 <= i < |Load(EMPTY, rs, now).heap| ==> Unrenamed(Load(EMPTY, rs, now).heap[i])
  {
    if rs != [] {
      var n := |rs| - 1;
      LoadUnrenamed(rs[..n], now);
      var t := Load(EMPTY, rs[..n], now);
      assert UnrenamedRecord(rs[n]);
      var t' := LoadOne(t, rs[n], now);
      assert Load(EMPTY, rs, now) == t';
      forall i | 0 <= i < |t'.heap|
        ensures Unrenamed(t'.heap[i])
      {
        if i < |t.heap| {
          assert t'.heap[i] == t.heap[i];
        }
      }
    }
  }

  lemma QuietUnrenamed(s: State, e: Event)
    requires Identity(s) && WrittenStep(s, e) && QuietEvent(e)
    ensures Identity(Next(s, e))
  {
    Quiet(s, e);
    forall i | 0 <= i < |Next(s, e).table.heap|
      ensures Unrenamed(Next(s, e).table.heap[i])
    {
      assert QuietPeer(s.table.heap[i], Next(s, e).table.heap[i]);
    }
    if e.SaveTable? {
      forall i | 0 <= i < |e.order|
        ensures UnrenamedRecord(Next(s, e).disk[i])
      {
        assert Unrenamed(s.table.heap[s.table.serverMap[e.order[i]]]);
      }
    }
  }

  lemma RestartUnrenamed(s: State, load: bool, now: Time)
    requires Identity(s) && WellFormed(s)
    ensures Identity(Next(s, Restart(load, now)))
  {
    if load {
      LoadUnrenamed(s.disk, now);
      assert Next(s, Restart(load, now)).table == Load(EMPTY, s.disk, now);
    }
  }

  lemma StepUnrenamed(s: State, e: Event)
    requires Identity(s) && WrittenStep(s, e)
    ensures Identity(Next(s, e))
  {
    match e
    case InsertPeer(p, proxy) => ReturnsExactly(s.table.clientMap, s.table.heap[p].clientOrigin, proxy);
    case HandleResponse(sender, receiver, proxy, _) =>
      if receiver in s.table.clientMap {
        ReturnsExactly(s.table.serverMap, sender, proxy);
      }
    case Restart(load, now) => RestartUnrenamed(s, load, now);
    case _ =>
      if QuietEvent(e) {
        QuietUnrenamed(s, e);
      }
  }

  /** In every such run - any number of responses, restarts and all - every index in use is the one its owner chose. */
  lemma {:induction false} NeverRenames(s: State, es: seq<Event>)
    requires Identity(s) && WrittenRun(s, es)
    ensures Identity(Run(s, es))
  {
    if es != [] {
      NeverRenames(s, es[..|es| - 1]);
      StepUnrenamed(Run(s, es[..|es| - 1]), es[|es| - 1]);
    }
  }

  lemma WrittenAllocates(s: State, e: Event)
    requires Identity(s) && WrittenStep(s, e)
    ensures Allocates(s, e)
  {
    if e.InsertPeer? {
      ReturnsExactly(s.table.clientMap, s.table.heap[e.peer].clientOrigin, e.proxy);
    } else if e.HandleResponse? {
      ReturnsExactly(s.table.serverMap, e.sender, e.proxy);
    }
  }

  /** The allocator's specification is met along such a run, so every theorem about good runs applies to it. */
  lemma {:induction false} WrittenRunIsGood(s: State, es: seq<Event>)
    requires Identity(s) && WrittenRun(s, es)
    requires forall i :: 0 <= i < |es| ==> FirstResponse(Run(s, es[..i]), es[i])
    ensures GoodRun(s, es)
  {
    if es != [] {
      var n := |es| - 1;
      assert forall i :: 0 <= i < n ==> es[..n][..i] == es[..i];
      WrittenRunIsGood(s, es[..n]);
      NeverRenames(s, es[..n]);
      WrittenAllocates(Run(s, es[..n]), es[n]);
    }
  }

  /** Without the one-response hypothesis, and with restarts from files that agree with themselves, it is still one of
      the runs in which the allocator delivers and the weak invariant holds. */
  lemma {:induction false} WrittenRunIsWeak(s: State, es: seq<Event>)
    requires Identity(s) && WrittenRun(s, es)
    requires forall i :: 0 <= i < |es| && es[i].Restart? && es[i].load ==> Consistent(Run(s, es[..i]).disk)
    ensures WeakRun(s, es)
  {
    if es != [] {
      var n := |es| - 1;
      assert forall i :: 0 <= i < n ==> es[..n][..i] == es[..i];
      WrittenRunIsWeak(s, es[..n]);
      NeverRenames(s, es[..n]);
      WrittenAllocates(Run(s, es[..n]), es[n]);
    }
  }

  /** Transport packets pass with the receiver they came with. */
  lemma TransportUnrenamed(s: State, receiver: Index, src: Addr, now: Time)
    requires SystemInv(s) && Identity(s)
    ensures var out := Emits(s, ClientTransport(receiver, src, now));
            out == Nothing || (out.SendToServer? && out.receiver == receiver)
    ensures var out := Emits(s, ServerTransport(receiver, src, now));
            out == Nothing || (out.SendToClient? && out.receiver == receiver)
  {
  }

  /** A second client that picks an index in use is not registered: whatever is drawn, its handler does not get past
      the allocator. */
  lemma ClashNeverRegisters(s: State, p: PeerId, proxy: Index)
    requires Identity(s) && WellFormed(s) && AtStage(s, p, Extracted)
    ensures WrittenStep(s, InsertPeer(p, proxy)) <==>
            proxy == s.table.heap[p].clientOrigin && s.table.heap[p].clientOrigin !in s.table.clientMap
  {
    ReturnsExactly(s.table.clientMap, s.table.heap[p].clientOrigin, proxy);
  }

  lemma InitialIdentity()
    ensures Identity(INITIAL) && SystemInv(INITIAL)
  {
  }

  /** So for every run that starts with nothing: no session is renamed, and with one response per peer the full
      invariant holds, without any assumption about the allocator. */
  lemma FromTheStart(es: seq<Event>)
    requires WrittenRun(INITIAL, es)
    ensures Identity(Run(INITIAL, es))
    ensures (forall i :: 0 <= i < |es| ==> FirstResponse(Run(INITIAL, es[..i]), es[i])) ==> SystemInv(Run(INITIAL, es))
  {
    InitialIdentity();
    NeverRenames(INITIAL, es);
    if forall i :: 0 <= i < |es| ==> FirstResponse(Run(INITIAL, es[..i]), es[i]) {
      WrittenRunIsGood(INITIAL, es);
      RunKeeps(INITIAL, es);
    }
  }
}
