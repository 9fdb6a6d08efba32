/** Runs in which peers may be answered any number of times, and what they keep. */
module WeakRuns {
  import opened Tables
  import opened Records
  import opened Runs

  /** What holds without the one-response hypothesis. */
  ghost predicate WeakSystemInv(s: State) {
    WellFormed(s) && WeakInv(s.table) && InitiationsOk(s)
  }

  /** The allocator delivers, and a file that is loaded agrees with itself. */
  ghost predicate WeakGood(s: State, e: Event) {
    Enabled(s, e) && Allocates(s, e) && (e.Restart? && e.load ==> Consistent(s.disk))
  }

  ghost predicate WeakRun(s: State, es: seq<Event>) {
    es != [] ==> WeakRun(s, es[..|es| - 1]) && WeakGood(Run(s, es[..|es| - 1]), es[|es| - 1])
  }

  lemma QuietTableWeak(s: State, e: Event)
    requires WeakSystemInv(s) && WeakGood(s, e) && QuietEvent(e)
    ensures WeakInv(Next(s, e).table)
  {
    if e.ClientTransport? {
      FromClientKeeps(s.table, e.receiver, e.src, e.now);
    } else if e.ServerTransport? {
      FromServerKeeps(s.table, e.receiver, e.src, e.now);
    } else if e.ExpireCheck? {
      ExpireKeepsWeak(s.table, e.cutoff);
    } else if e.UpdateServer? {
      UpdateKeepsWeak(s.table, e.addr);
    }
  }

  lemma QuietWeak(s: State, e: Event)
    requires WeakSystemInv(s) && WeakGood(s, e) && QuietEvent(e)
    ensures WeakSystemInv(Next(s, e))
  {
    Quiet(s, e);
    QuietTableWeak(s, e);
    QuietInitiations(s, Next(s, e));
  }

  lemma QuietInitiations(s: State, s': State)
    requires WellFormed(s) && InHeap(s'.table) && InitiationsOk(s)
    requires s'.initiations == s.initiations && QuietTable(s.table, s'.table)
    requires forall h :: h in s'.replies ==> h.peer < |s'.table.heap|
    ensures WellFormed(s') && InitiationsOk(s')
  {
    forall p | p in s'.initiations
      ensures InitiationOk(s'.table.heap[p], s'.initiations[p])
    {
      assert QuietPeer(s.table.heap[p], s'.table.heap[p]);
    }
  }

  lemma HandshakeWeak(s: State, e: Event)
    requires WeakSystemInv(s) && WeakGood(s, e) && (e.ExtractPeer? || e.MarkPeer? || e.ForwardInitiation?)
    ensures WeakSystemInv(Next(s, e))
  {
    if e.MarkPeer? {
      assert InitiationOk(s.table.heap[e.peer], s.initiations[e.peer]);
    }
  }

  lemma InsertWeak(s: State, e: Event)
    requires WeakSystemInv(s) && WeakGood(s, e) && e.InsertPeer?
    ensures WeakSystemInv(Next(s, e))
  {
    assert InitiationOk(s.table.heap[e.peer], s.initiations[e.peer]);
  }

  lemma ResponseWeak(s: State, e: Event)
    requires WeakSystemInv(s) && WeakGood(s, e) && e.HandleResponse?
    ensures WeakSystemInv(Next(s, e))
  {
    if e.receiver in s.table.clientMap {
      RespondKeepsWeak(s.table, e.receiver, e.sender, e.proxy, e.now);
      var id := s.table.clientMap[e.receiver];
      assert s.table.heap[id].clientProxy == e.receiver != 0;
      var s' := Next(s, e);
      forall p | p in s'.initiations
        ensures InitiationOk(s'.table.heap[p], s'.initiations[p])
      {
        assert InitiationOk(s.table.heap[p], s.initiations[p]);
      }
    }
  }

  lemma RestartWeak(s: State, e: Event)
    requires WeakSystemInv(s) && WeakGood(s, e) && e.Restart?
    ensures WeakSystemInv(Next(s, e))
  {
    if e.load {
      ConsistentLoads(s.disk, e.now);
    }
  }

  /** Any number of responses keeps the weak invariant. */
  lemma WeakStepKeeps(s: State, e: Event)
    requires WeakSystemInv(s) && WeakGood(s, e)
    ensures WeakSystemInv(Next(s, e))
  {
    if QuietEvent(e) {
      QuietWeak(s, e);
    } else if e.InsertPeer? {
      InsertWeak(s, e);
    } else if e.HandleResponse? {
      ResponseWeak(s, e);
    } else if e.Restart? {
      RestartWeak(s, e);
    } else {
      HandshakeWeak(s, e);
    }
  }

  lemma {:induction false} WeakRunKeeps(s: State, es: seq<Event>)
    requires WeakSystemInv(s) && WeakRun(s, es)
    ensures WeakSystemInv(Run(s, es))
  {
    if es != [] {
      WeakRunKeeps(s, es[..|es| - 1]);
      WeakStepKeeps(Run(s, es[..|es| - 1]), es[|es| - 1]);
    }
  }

  /** Good runs are among them. */
  lemma GoodIsWeak(s: State, e: Event)
    requires SystemInv(s) && Good(s, e)
    ensures WeakSystemInv(s) && WeakGood(s, e)
  {
    GoodIsConsistent(s.disk);
  }

  lemma {:induction false} GoodRunIsWeak(s: State, es: seq<Event>)
    requires SystemInv(s) && GoodRun(s, es)
    ensures WeakSystemInv(s) && WeakRun(s, es)
  {
    if es != [] {
      GoodRunIsWeak(s, es[..|es| - 1]);
      RunKeeps(s, es[..|es| - 1]);
      GoodIsWeak(Run(s, es[..|es| - 1]), es[|es| - 1]);
    }
  }
}
