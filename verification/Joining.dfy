/** A new client always gets a session, whatever index it picks and whoever else uses that index, as long as the
    allocator delivers and the tables are not full. */
module Joining {
  import opened Bytes
  import opened Tables
  import opened Runs
  import opened WeakRuns
  import opened Sessions
  import Alloc
  import H = Handlers

  lemma GoodAppend(s: State, es: seq<Event>, e: Event)
    requires GoodRun(s, es) && Good(Run(s, es), e)
    ensures GoodRun(s, es + [e]) && Run(s, es + [e]) == Next(Run(s, es), e)
  {
    assert (es + [e])[..|es|] == es && (es + [e])[|es|] == e;
  }

  /** The session is live, and its client is at `src`. */
  predicate LiveAt(t: Table, x: Session, src: Addr) {
    Live(t, x) && PeerOf(t, x).clientDest == src
  }

  /** All sessions that were live still are. */
  ghost predicate AllSpared(s: State, s': State) {
    forall x :: Live(s.table, x) ==> Live(s'.table, x)
  }

  lemma StepSpares(s: State, e: Event)
    requires WeakSystemInv(s) && Good(s, e) && !e.ExpireCheck? && !e.Restart?
    ensures WeakSystemInv(Next(s, e)) && AllSpared(s, Next(s, e))
  {
    WeakStepKeeps(s, e);
    forall x | Live(s.table, x)
      ensures Live(Next(s, e).table, x)
    {
      assert Replied(PeerOf(s.table, x));
      WeakIsOrderly(s);
      LivesOn(s, e, x);
      EndsOnlyBy(s, e, x);
    }
  }

  /** Extraction and registration: the client is known under a free name. */
  lemma Registers(s: State, e: Event, proxy: Index)
    requires WeakSystemInv(s) && e.ExtractPeer? && Alloc.Free(s.table.clientMap, proxy)
    ensures var id := |s.table.heap|;
            var s1 := Next(s, e);
            var s2 := Next(s1, InsertPeer(id, proxy));
            && Good(s, e) && WeakSystemInv(s1) && Good(s1, InsertPeer(id, proxy)) && WeakSystemInv(s2)
            && AtStage(s2, id, Inserted) && Waits(s2, id, proxy, e.sender, e.src)
            && s2.table.serverMap == s.table.serverMap
  {
    var id := |s.table.heap|;
    H.ExtractStep(s, e);
    H.InsertStep(Next(s, e), id, proxy);
  }

  /** Peer `id` is registered under `k` for a client at `src` that calls itself `sender`, and has no answer yet. */
  predicate Waits(s: State, id: PeerId, k: Index, sender: Index, src: Addr) {
    && k in s.table.clientMap && s.table.clientMap[k] == id < |s.table.heap|
    && !Replied(s.table.heap[id]) && s.table.heap[id].clientOrigin == sender && s.table.heap[id].clientDest == src
  }

  /** Marking and forwarding leave it waiting. */
  lemma Marks(s: State, id: PeerId, k: Index, sender: Index, src: Addr)
    requires WeakSystemInv(s) && AtStage(s, id, Inserted) && Waits(s, id, k, sender, src)
    ensures var s' := Next(s, MarkPeer(id));
            && Good(s, MarkPeer(id)) && WeakSystemInv(s') && AtStage(s', id, Marked)
            && Waits(s', id, k, sender, src) && s'.table.serverMap == s.table.serverMap
  {
    H.MarkStep(s, id);
  }

  lemma Forwards(s: State, id: PeerId, k: Index, sender: Index, src: Addr)
    requires WeakSystemInv(s) && AtStage(s, id, Marked) && Waits(s, id, k, sender, src)
    ensures var s' := Next(s, ForwardInitiation(id));
            && Good(s, ForwardInitiation(id)) && WeakSystemInv(s')
            && Waits(s', id, k, sender, src) && s'.table.serverMap == s.table.serverMap
  {
    WeakStepKeeps(s, ForwardInitiation(id));
  }

  /** The answer makes a live session. */
  lemma Answered(s: State, id: PeerId, k: Index, sender: Index, src: Addr, answer: Index, proxy: Index, now: Time)
    requires WeakSystemInv(s) && Waits(s, id, k, sender, src) && Alloc.Free(s.table.serverMap, proxy)
    ensures var e := HandleResponse(answer, k, proxy, now);
            && Good(s, e) && WeakSystemInv(Next(s, e))
            && LiveAt(Next(s, e).table, Session(sender, k, answer, proxy), src)
  {
    assert s.table.heap[id].clientProxy == k != 0;
    WeakStepKeeps(s, HandleResponse(answer, k, proxy, now));
  }

  function Handshake(e: Event, id: PeerId, answer: Index, k: Index, proxy: Index, now: Time): seq<Event> {
    [e] + [InsertPeer(id, k)] + [MarkPeer(id)] + [ForwardInitiation(id)] + [HandleResponse(answer, k, proxy, now)]
  }

  /** The states a handshake goes through. */
  ghost function States(s: State, e: Event, id: PeerId, answer: Index, k: Index, proxy: Index, now: Time)
    : (State, State, State, State, State)
  {
    var s1 := Next(s, e);
    var s2 := Next(s1, InsertPeer(id, k));
    var s3 := Next(s2, MarkPeer(id));
    var s4 := Next(s3, ForwardInitiation(id));
    (s1, s2, s3, s4, Next(s4, HandleResponse(answer, k, proxy, now)))
  }

  /** Each step is good, and the last makes the session. */
  lemma HandshakeSteps(s: State, e: Event, answer: Index, k: Index, proxy: Index, now: Time)
    requires WeakSystemInv(s) && e.ExtractPeer? && Alloc.Free(s.table.clientMap, k)
             && Alloc.Free(s.table.serverMap, proxy)
    ensures var id := |s.table.heap|;
            var (s1, s2, s3, s4, s5) := States(s, e, id, answer, k, proxy, now);
            && Good(s, e) && WeakSystemInv(s1) && Good(s1, InsertPeer(id, k)) && WeakSystemInv(s2)
            && Good(s2, MarkPeer(id))
            && WeakSystemInv(s3) && Good(s3, ForwardInitiation(id)) && WeakSystemInv(s4)
            && Good(s4, HandleResponse(answer, k, proxy, now))
            && LiveAt(s5.table, Session(e.sender, k, answer, proxy), e.src)
  {
    var id := |s.table.heap|;
    var (s1, s2, s3, s4, s5) := States(s, e, id, answer, k, proxy, now);
    hide Next, Good, LiveAt, WeakSystemInv, Waits, AtStage;
    Registers(s, e, k);
    Marks(s2, id, k, e.sender, e.src);
    Forwards(s3, id, k, e.sender, e.src);
    Answered(s4, id, k, e.sender, e.src, answer, proxy, now);
  }

  lemma SparedTwice(s: State, s': State, s'': State)
    requires AllSpared(s, s') && AllSpared(s', s'')
    ensures AllSpared(s, s'')
  {
  }

  lemma HandshakeRun(s: State, e: Event, e2: Event, e3: Event, e4: Event, e5: Event,
                     s1: State, s2: State, s3: State, s4: State, s5: State)
    requires s1 == Next(s, e) && s2 == Next(s1, e2) && s3 == Next(s2, e3) && s4 == Next(s3, e4) && s5 == Next(s4, e5)
    requires Good(s, e) && Good(s1, e2) && Good(s2, e3) && Good(s3, e4) && Good(s4, e5)
    ensures var es := [e] + [e2] + [e3] + [e4] + [e5];
            GoodRun(s, es) && Run(s, es) == s5
  {
    NoSteps(s);
    hide Next, Good, Run, GoodRun;
    assert [] + [e] == [e];
    GoodAppend(s, [], e);
    GoodAppend(s, [e], e2);
    GoodAppend(s, [e] + [e2], e3);
    GoodAppend(s, [e] + [e2] + [e3], e4);
    GoodAppend(s, [e] + [e2] + [e3] + [e4], e5);
  }

  /** The five steps of a handshake, with any free names, make a good run that ends in a live session and spares
      all others. */
  lemma HandshakeCompletes(s: State, e: Event, answer: Index, k: Index, proxy: Index, now: Time)
    requires WeakSystemInv(s) && e.ExtractPeer? && Alloc.Free(s.table.clientMap, k)
             && Alloc.Free(s.table.serverMap, proxy)
    ensures var es := Handshake(e, |s.table.heap|, answer, k, proxy, now);
            && GoodRun(s, es) && AllSpared(s, Run(s, es))
            && LiveAt(Run(s, es).table, Session(e.sender, k, answer, proxy), e.src)
  {
    hide Next, Good, LiveAt, WeakSystemInv, Run, GoodRun, AllSpared;
    var id := |s.table.heap|;
    var e2, e3, e4, e5 := InsertPeer(id, k), MarkPeer(id), ForwardInitiation(id), HandleResponse(answer, k, proxy, now);
    var (s1, s2, s3, s4, s5) := States(s, e, id, answer, k, proxy, now);
    HandshakeSteps(s, e, answer, k, proxy, now);
    StepSpares(s, e);
    StepSpares(s1, e2);
    StepSpares(s2, e3);
    StepSpares(s3, e4);
    StepSpares(s4, e5);
    SparedTwice(s, s1, s2);
    SparedTwice(s, s2, s3);
    SparedTwice(s, s3, s4);
    SparedTwice(s, s4, s5);
    HandshakeRun(s, e, e2, e3, e4, e5, s1, s2, s3, s4, s5);
  }

  lemma NoSteps(s: State)
    ensures GoodRun(s, []) && Run(s, []) == s
  {
  }

  /** From every state of every run, however often peers were answered, every client gets a session: one handshake, with
      names that exist, whatever index the client and the server choose. */
  lemma EveryClientJoins(s: State, src: Addr, sender: Index, rule: Rule, deobfuscated: bool, now: Time, answer: Index)
    returns (k: Index, proxy: Index, es: seq<Event>)
    requires WeakSystemInv(s) && |s.table.clientMap| < 0x1_0000_0000 - 1 && |s.table.serverMap| < 0x1_0000_0000 - 1
    ensures GoodRun(s, es) && AllSpared(s, Run(s, es))
    ensures LiveAt(Run(s, es).table, Session(sender, k, answer, proxy), src)
  {
    Alloc.FreeExists(s.table.clientMap);
    Alloc.FreeExists(s.table.serverMap);
    k :| Alloc.Free(s.table.clientMap, k);
    proxy :| Alloc.Free(s.table.serverMap, proxy);
    var e := ExtractPeer(src, sender, rule, deobfuscated, now);
    es := Handshake(e, |s.table.heap|, answer, k, proxy, now);
    HandshakeCompletes(s, e, answer, k, proxy, now);
  }
}
