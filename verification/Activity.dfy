/** Who counts as active and for how long, and where a client's packets go: the last packet decides, over every run. */
module Activity {
  import opened Bytes
  import opened Tables
  import opened Runs
  import opened AnyRuns

  // ---------------------------------------------------------------- activity

  /** The packet is for peer `id`, whether it is accepted or not. */
  predicate Touches(s: State, e: Event, id: PeerId) {
    match e
    case HandleResponse(_, c, _, _) => c != 0 && c in s.table.clientMap && s.table.clientMap[c] == id
    case ClientTransport(k, _, _) => k != 0 && k in s.table.serverMap && s.table.serverMap[k] == id
    case ServerTransport(c, _, _) => c != 0 && c in s.table.clientMap && s.table.clientMap[c] == id
    case _ => false
  }

  lemma TransportTime(s: State, e: Event, id: PeerId)
    requires WellFormed(s) && (e.ClientTransport? || e.ServerTransport?) && id < |s.table.heap|
    ensures id < |Next(s, e).table.heap|
    ensures Next(s, e).table.heap[id].lastActive == if Touches(s, e, id) then e.now else s.table.heap[id].lastActive
  {
  }

  /** A peer's time is that of the last packet for it, and nothing else changes it. */
  lemma LastActiveExact(s: State, e: Event, id: PeerId)
    requires WellFormed(s) && !e.Restart? && id < |s.table.heap|
    ensures id < |Next(s, e).table.heap|
    ensures Next(s, e).table.heap[id].lastActive == if Touches(s, e, id) then e.now else s.table.heap[id].lastActive
  {
    if e.ClientTransport? || e.ServerTransport? {
      TransportTime(s, e, id);
    }
  }

  /** Nothing dated before `cutoff` happens, no check looks for peers idle since later, and nobody takes key `k`. */
  predicate Since(es: seq<Event>, cutoff: Time, k: Index) {
    forall i :: 0 <= i < |es| ==> SinceEvent(es[i], cutoff, k)
  }

  predicate SinceEvent(e: Event, cutoff: Time, k: Index) {
    match e
    case HandleResponse(_, _, _, now) => now >= cutoff
    case ClientTransport(_, _, now) => now >= cutoff
    case ServerTransport(_, _, now) => now >= cutoff
    case ExpireCheck(c) => c <= cutoff
    case InsertPeer(_, proxy) => proxy != k
    case Restart(_, _) => false
    case _ => true
  }

  /** `k` leads to `id`, which was active at `cutoff` or later. */
  predicate ActiveAt(s: State, k: Index, id: PeerId, cutoff: Time) {
    k in s.table.clientMap && s.table.clientMap[k] == id < |s.table.heap| && s.table.heap[id].lastActive >= cutoff
  }

  lemma StepActive(s: State, e: Event, k: Index, id: PeerId, cutoff: Time)
    requires WellFormed(s) && ActiveAt(s, k, id, cutoff) && SinceEvent(e, cutoff, k)
    ensures ActiveAt(Next(s, e), k, id, cutoff)
  {
    LastActiveExact(s, e, id);
  }

  lemma {:induction false} RunActive(s: State, es: seq<Event>, k: Index, id: PeerId, cutoff: Time)
    requires WellFormed(s) && ActiveAt(s, k, id, cutoff) && Since(es, cutoff, k)
    ensures ActiveAt(Run(s, es), k, id, cutoff)
  {
    if es != [] {
      RunActive(s, es[..|es| - 1], k, id, cutoff);
      RunWellFormed(s, es[..|es| - 1]);
      StepActive(Run(s, es[..|es| - 1]), es[|es| - 1], k, id, cutoff);
    }
  }

  /** A peer that got a packet since `cutoff` is not expired by any check for peers idle since `cutoff` or earlier. */
  lemma TouchedStays(s: State, e: Event, es: seq<Event>, k: Index, cutoff: Time)
    requires WellFormed(s) && k in s.table.clientMap && Touches(s, e, s.table.clientMap[k])
    requires SinceEvent(e, cutoff, k) && Since(es, cutoff, k)
    ensures ActiveAt(Run(Next(s, e), es), k, s.table.clientMap[k], cutoff)
  {
    var id := s.table.clientMap[k];
    LastActiveExact(s, e, id);
    StepWellFormed(s, e);
    TouchKeepsKey(s, e, k);
    RunActive(Next(s, e), es, k, id, cutoff);
  }

  lemma TouchKeepsKey(s: State, e: Event, k: Index)
    requires WellFormed(s) && k in s.table.clientMap && Touches(s, e, s.table.clientMap[k])
    ensures Next(s, e).table.clientMap == s.table.clientMap
  {
  }

  lemma Made(s: State, e: Event)
    requires WellFormed(s) && e.ExtractPeer?
    ensures |Next(s, e).table.heap| == |s.table.heap| + 1 && Next(s, e).table.heap[|s.table.heap|].lastActive == e.now
    ensures AtStage(Next(s, e), |s.table.heap|, Extracted)
  {
  }

  lemma InsertActive(s: State, id: PeerId, k: Index, cutoff: Time)
    requires WellFormed(s) && AtStage(s, id, Extracted) && s.table.heap[id].lastActive >= cutoff
    ensures ActiveAt(Next(s, InsertPeer(id, k)), k, id, cutoff)
  {
  }

  /** Nor is one that was made since. */
  lemma NewStays(s: State, e: Event, k: Index, es: seq<Event>, cutoff: Time)
    requires WellFormed(s) && e.ExtractPeer? && cutoff <= e.now && Since(es, cutoff, k)
    ensures var id := |s.table.heap|;
            ActiveAt(Run(Next(Next(s, e), InsertPeer(id, k)), es), k, id, cutoff)
  {
    var id := |s.table.heap|;
    Made(s, e);
    StepWellFormed(s, e);
    InsertActive(Next(s, e), id, k, cutoff);
    StepWellFormed(Next(s, e), InsertPeer(id, k));
    RunActive(Next(Next(s, e), InsertPeer(id, k)), es, k, id, cutoff);
  }

  ghost predicate NeverTouched(s: State, es: seq<Event>, id: PeerId) {
    es != [] ==> NeverTouched(s, es[..|es| - 1], id) && !Touches(Run(s, es[..|es| - 1]), es[|es| - 1], id)
  }

  lemma {:induction false} RunIdle(s: State, es: seq<Event>, id: PeerId)
    requires WellFormed(s) && NoRestart(es) && id < |s.table.heap| && NeverTouched(s, es, id)
    ensures id < |Run(s, es).table.heap| && Run(s, es).table.heap[id].lastActive == s.table.heap[id].lastActive
  {
    if es != [] {
      RunIdle(s, es[..|es| - 1], id);
      RunWellFormed(s, es[..|es| - 1]);
      LastActiveExact(Run(s, es[..|es| - 1]), es[|es| - 1], id);
    }
  }

  /** And conversely: a peer that gets no packet is gone after the first check that looks back less far, under every key
      it had. */
  lemma IdleExpires(s: State, es: seq<Event>, id: PeerId, cutoff: Time, k: Index)
    requires WellFormed(s) && NoRestart(es) && id < |s.table.heap| && NeverTouched(s, es, id)
    requires s.table.heap[id].lastActive < cutoff
    ensures var r := Next(Run(s, es), ExpireCheck(cutoff));
            k in r.table.clientMap ==> r.table.clientMap[k] != id
  {
    RunIdle(s, es, id);
    RunWellFormed(s, es);
    var t := Run(s, es).table;
    if k in t.clientMap && t.clientMap[k] == id {
      assert Stale(t, k, cutoff);
      assert k in StaleKeys(t, cutoff, t.clientMap.Keys);
    }
  }

  // ---------------------------------------------------------------- roaming

  /** What the levels let a client do: 2 asks for the same IP, 3 for the same address, and any other level for
      nothing. */
  lemma ClientVerdict(p: Peer, src: Addr)
    ensures p.clientLevel == LEVEL_DEFAULT || p.clientLevel == LEVEL_NONE ==> ClientAccepts(p, src)
    ensures p.clientLevel == LEVEL_IP ==> (ClientAccepts(p, src) <==> src.ip == p.clientDest.ip)
    ensures p.clientLevel == LEVEL_IP_AND_PORT ==> (ClientAccepts(p, src) <==> src == p.clientDest)
    ensures p.clientLevel < LEVEL_DEFAULT || p.clientLevel > LEVEL_IP_AND_PORT ==> ClientAccepts(p, src)
  {
  }

  /** What they ask of a server, which before its response may send from anywhere. */
  lemma ServerVerdict(p: Peer, src: Addr)
    ensures !Replied(p) || p.serverLevel == LEVEL_NONE ==> ServerAccepts(p, src)
    ensures Replied(p) && p.serverLevel == LEVEL_IP ==> (ServerAccepts(p, src) <==> src.ip == p.serverDest.ip)
    ensures Replied(p) && (p.serverLevel == LEVEL_DEFAULT || p.serverLevel == LEVEL_IP_AND_PORT) ==>
              (ServerAccepts(p, src) <==> src == p.serverDest)
    ensures p.serverLevel < LEVEL_DEFAULT || p.serverLevel > LEVEL_IP_AND_PORT ==> ServerAccepts(p, src)
  {
  }

  /** A client packet for peer `id` that it accepts. */
  predicate Moves(s: State, e: Event, id: PeerId)
    requires id < |s.table.heap|
  {
    e.ClientTransport? && Touches(s, e, id) && ClientAccepts(s.table.heap[id], e.src)
  }

  /** A peer's client is where its last accepted packet came from, and nothing else moves it. */
  lemma ClientDestExact(s: State, e: Event, id: PeerId)
    requires WellFormed(s) && !e.Restart? && id < |s.table.heap|
    ensures id < |Next(s, e).table.heap|
    ensures Next(s, e).table.heap[id].clientDest == if Moves(s, e, id) then e.src else s.table.heap[id].clientDest
  {
    StepFrame(s, e, id);
  }

  ghost predicate NeverMoves(s: State, es: seq<Event>, id: PeerId) {
    es != [] ==>
      var s' := Run(s, es[..|es| - 1]);
      NeverMoves(s, es[..|es| - 1], id) && (id < |s'.table.heap| ==> !Moves(s', es[|es| - 1], id))
  }

  function Destination(out: Output): Option<Addr> {
    match out
    case SendResponse(_, _, dest, _) => Some(dest)
    case SendCookieReply(_, dest, _) => Some(dest)
    case SendToClient(_, dest, _) => Some(dest)
    case _ => None
  }

  /** All packets that peer `id` may send to its client now - pending responses and cookie replies, and server
      transport under any key it is found by - go to `dest`. */
  ghost predicate SendsTo(s: State, id: PeerId, dest: Addr) {
    && (forall h :: h in s.replies && h.peer == id ==> Destination(Emits(s, ForwardReply(h))) == Some(dest))
    && (forall c, src, now :: c in s.table.clientMap && s.table.clientMap[c] == id ==>
          var out := Emits(s, ServerTransport(c, src, now)); out == Nothing || Destination(out) == Some(dest))
  }

  lemma PeerSendsTo(s: State, id: PeerId)
    requires WellFormed(s) && id < |s.table.heap|
    ensures SendsTo(s, id, s.table.heap[id].clientDest)
  {
  }

  lemma {:induction false} RunStands(s: State, es: seq<Event>, id: PeerId)
    requires WellFormed(s) && NoRestart(es) && id < |s.table.heap| && NeverMoves(s, es, id)
    ensures id < |Run(s, es).table.heap| && Run(s, es).table.heap[id].clientDest == s.table.heap[id].clientDest
  {
    if es != [] {
      RunStands(s, es[..|es| - 1], id);
      RunWellFormed(s, es[..|es| - 1]);
      ClientDestExact(Run(s, es[..|es| - 1]), es[|es| - 1], id);
    }
  }

  /** A roaming client is followed: from an accepted packet to the next one, all that is sent to it goes to where that
      packet came from. */
  lemma RoamingFollowed(s: State, e: Event, es: seq<Event>, id: PeerId)
    requires WellFormed(s) && id < |s.table.heap| && Moves(s, e, id) && NoRestart(es) && NeverMoves(Next(s, e), es, id)
    ensures SendsTo(Run(Next(s, e), es), id, e.src)
  {
    ClientDestExact(s, e, id);
    StepWellFormed(s, e);
    RunStands(Next(s, e), es, id);
    RunWellFormed(Next(s, e), es);
    PeerSendsTo(Run(Next(s, e), es), id);
  }
}
