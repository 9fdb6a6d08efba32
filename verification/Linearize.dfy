/** A transport packet is one step in `Runs`, but the source holds its lock only to look the peer up (wgit.go:501-503);
    handshake handlers, saves among them, may run before it is finished. Here the two halves are apart, and are shown
    to be one step after all: at the lookup if that fails, else at the end. */
module Linearize {
  import opened Bytes
  import opened Tables
  import opened Runs
  import AnyRuns

  /** What may run while the main loop is busy with a packet. */
  predicate HandlerEvent(e: Event) {
    e.ExtractPeer? || e.InsertPeer? || e.MarkPeer? || e.ForwardInitiation? || e.HandleResponse? || e.HandleCookieReply?
    || e.ForwardReply? || e.SaveTable?
  }

  ghost predicate HandlerRun(s: State, es: seq<Event>) {
    es != [] ==>
      HandlerRun(s, es[..|es| - 1]) && HandlerEvent(es[|es| - 1]) && Allocates(Run(s, es[..|es| - 1]), es[|es| - 1])
  }

  /** Every key still leads where it did. */
  predicate KeysHeld(t: Table, t': Table) {
    && |t.heap| <= |t'.heap|
    && (forall k :: k in t.clientMap ==> k in t'.clientMap && t'.clientMap[k] == t.clientMap[k])
    && (forall k :: k in t.serverMap ==> k in t'.serverMap && t'.serverMap[k] == t.serverMap[k])
  }

  lemma HandlerHolds(s: State, e: Event)
    requires WellFormed(s) && HandlerEvent(e) && Allocates(s, e)
    ensures KeysHeld(s.table, Next(s, e).table)
  {
  }

  lemma {:induction false} RunHolds(s: State, es: seq<Event>)
    requires WellFormed(s) && HandlerRun(s, es)
    ensures WellFormed(Run(s, es)) && KeysHeld(s.table, Run(s, es).table)
  {
    AnyRuns.RunWellFormed(s, es);
    if es != [] {
      RunHolds(s, es[..|es| - 1]);
      HandlerHolds(Run(s, es[..|es| - 1]), es[|es| - 1]);
    }
  }

  /** Lines 514 and 546-572, and 291-298, for the peer that was looked up before: the state after, and what is sent. */
  function FinishClient(s: State, id: PeerId, src: Addr, now: Time): (State, Output)
    requires id < |s.table.heap|
  {
    var p := s.table.heap[id];
    (s.(table := s.table.(heap := s.table.heap[id := AfterClientPacket(p, src, now)])),
     if ClientAccepts(p, src) then SendToServer(p.serverOrigin, p.serverDest) else Nothing)
  }

  /** Lines 514-545, and 366-378. */
  function FinishServer(s: State, id: PeerId, src: Addr, now: Time): (State, Output)
    requires id < |s.table.heap|
  {
    var p := s.table.heap[id];
    (s.(table := s.table.(heap := s.table.heap[id := p.(lastActive := now)])),
     if ServerAccepts(p, src) then SendToClient(p.clientOrigin, p.clientDest, p.obfuscate) else Nothing)
  }

  /** Look up, let the handlers run, finish. */
  ghost function SplitClient(s: State, es: seq<Event>, k: Index, src: Addr, now: Time): (State, Output)
    requires WellFormed(s) && |s.table.heap| <= |Run(s, es).table.heap|
  {
    if k == 0 || k !in s.table.serverMap then (Run(s, es), Nothing)
    else FinishClient(Run(s, es), s.table.serverMap[k], src, now)
  }

  ghost function SplitServer(s: State, es: seq<Event>, c: Index, src: Addr, now: Time): (State, Output)
    requires WellFormed(s) && |s.table.heap| <= |Run(s, es).table.heap|
  {
    if c == 0 || c !in s.table.clientMap then (Run(s, es), Nothing)
    else FinishServer(Run(s, es), s.table.clientMap[c], src, now)
  }

  lemma ClientOneStep(s: State, k: Index, src: Addr, now: Time)
    requires WellFormed(s)
    ensures var e := ClientTransport(k, src, now);
            (Next(s, e), Emits(s, e)) ==
            if k == 0 || k !in s.table.serverMap then (s, Nothing) else FinishClient(s, s.table.serverMap[k], src, now)
  {
  }

  lemma ServerOneStep(s: State, c: Index, src: Addr, now: Time)
    requires WellFormed(s)
    ensures var e := ServerTransport(c, src, now);
            (Next(s, e), Emits(s, e)) ==
            if c == 0 || c !in s.table.clientMap then (s, Nothing) else FinishServer(s, s.table.clientMap[c], src, now)
  {
  }

  /** A client packet whose handling is interrupted by handlers, further answers to its own peer included, has the
      effect of one step: before them if the lookup fails, after them otherwise. */
  lemma ClientIsAtomic(s: State, es: seq<Event>, k: Index, src: Addr, now: Time)
    requires WellFormed(s) && HandlerRun(s, es)
    ensures |s.table.heap| <= |Run(s, es).table.heap|
    ensures var e := ClientTransport(k, src, now);
            SplitClient(s, es, k, src, now) ==
            if k == 0 || k !in s.table.serverMap then (Run(Next(s, e), es), Emits(s, e))
            else (Next(Run(s, es), e), Emits(Run(s, es), e))
  {
    RunHolds(s, es);
    ClientOneStep(s, k, src, now);
    ClientOneStep(Run(s, es), k, src, now);
    hide Next, Emits, FinishClient;
  }

  lemma ServerIsAtomic(s: State, es: seq<Event>, c: Index, src: Addr, now: Time)
    requires WellFormed(s) && HandlerRun(s, es)
    ensures |s.table.heap| <= |Run(s, es).table.heap|
    ensures var e := ServerTransport(c, src, now);
            SplitServer(s, es, c, src, now) ==
            if c == 0 || c !in s.table.clientMap then (Run(Next(s, e), es), Emits(s, e))
            else (Next(Run(s, es), e), Emits(Run(s, es), e))
  {
    RunHolds(s, es);
    ServerOneStep(s, c, src, now);
    ServerOneStep(Run(s, es), c, src, now);
    hide Next, Emits, FinishServer;
  }
}
