/** The table under concurrent handlers: a step for every lock region, runs of steps, and what every run keeps.

    Handshake packets are handled by goroutines of their own, so an initiation takes four steps (extract,
    register, mark, forward) and a response or cookie reply two (look up, forward); steps of different
    handlers interleave freely. Transport packets, expiry and address updates come from one loop. */
module Runs {
  import opened Bytes
  import opened Tables
  import opened Records
  import Alloc

  /** How far the handler of an initiation has come. */
  datatype Stage = Extracted | Inserted | Marked | Forwarded

  /** The local state of an initiation handler: the packet's sender, and whether it arrived obfuscated. */
  datatype Initiation = Initiation(sender: Index, deobfuscated: bool, stage: Stage)

  datatype Kind = Response | CookieReply

  /** A response or cookie reply that has been matched to a peer but not yet forwarded. */
  datatype Reply = Reply(kind: Kind, peer: PeerId, sender: Index, receiver: Index)

  datatype State = State(table: Table, initiations: map<PeerId, Initiation>, replies: multiset<Reply>,
                         disk: seq<Record>)

  datatype Event =
    | ExtractPeer(src: Addr, sender: Index, rule: Rule, deobfuscated: bool, now: Time)
    | InsertPeer(peer: PeerId, proxy: Index)
    | MarkPeer(peer: PeerId)
    | ForwardInitiation(peer: PeerId)
    | HandleResponse(sender: Index, receiver: Index, proxy: Index, now: Time)
    | HandleCookieReply(receiver: Index, accepted: bool)
    | ForwardReply(reply: Reply)
    | ClientTransport(receiver: Index, src: Addr, now: Time)
    | ServerTransport(receiver: Index, src: Addr, now: Time)
    | ExpireCheck(cutoff: Time)
    | UpdateServer(addr: Addr)
    | SaveTable(order: seq<Index>)
    | Restart(load: bool, now: Time)

  /** What a step puts on the wire. */
  datatype Output =
    | Nothing
    | SendInitiation(sender: Index, dest: Addr)
    | SendResponse(sender: Index, receiver: Index, dest: Addr, obfuscate: bool)
    | SendCookieReply(receiver: Index, dest: Addr, obfuscate: bool)
    | SendToServer(receiver: Index, dest: Addr)
    | SendToClient(receiver: Index, dest: Addr, obfuscate: bool)

  predicate WellFormed(s: State) {
    && InHeap(s.table)
    && (forall p :: p in s.initiations ==> p < |s.table.heap|)
    && (forall h :: h in s.replies ==> h.peer < |s.table.heap|)
  }

  predicate AtStage(s: State, p: PeerId, stage: Stage) {
    p in s.initiations && s.initiations[p].stage == stage
  }

  ghost predicate Enabled(s: State, e: Event) {
    && WellFormed(s)
    && match e
       case InsertPeer(p, _) => AtStage(s, p, Extracted)
       case MarkPeer(p) => AtStage(s, p, Inserted)
       case ForwardInitiation(p) => AtStage(s, p, Marked)
       case ForwardReply(h) => h in s.replies
       case SaveTable(order) => Enumerates(order, s.table.serverMap)
       case _ => true
  }

  function Advance(s: State, p: PeerId, stage: Stage): map<PeerId, Initiation>
    requires p in s.initiations
  {
    s.initiations[p := s.initiations[p].(stage := stage)]
  }

  ghost function Next(s: State, e: Event): State {
    if !Enabled(s, e) then s else
    var t := s.table;
    match e
    case ExtractPeer(src, sender, rule, deobfuscated, now) =>
      s.(table := Create(t, NewPeer(rule, src, sender, now)),
         initiations := s.initiations[|t.heap| := Initiation(sender, deobfuscated, Extracted)])
    case InsertPeer(p, proxy) =>
      s.(table := Insert(t, p, proxy), initiations := Advance(s, p, Inserted))
    case MarkPeer(p) =>
      s.(table := if s.initiations[p].deobfuscated then MarkObfuscated(t, p) else t,
         initiations := Advance(s, p, Marked))
    case ForwardInitiation(p) =>
      s.(initiations := Advance(s, p, Forwarded))
    case HandleResponse(sender, receiver, proxy, now) =>
      if receiver == 0 || receiver !in t.clientMap then s
      else s.(table := Respond(t, receiver, sender, proxy, now),
              replies := s.replies + multiset{Reply(Response, t.clientMap[receiver], sender, receiver)})
    case HandleCookieReply(receiver, accepted) =>
      if receiver == 0 || receiver !in t.clientMap || !accepted then s
      else s.(replies := s.replies + multiset{Reply(CookieReply, t.clientMap[receiver], 0, receiver)})
    case ForwardReply(h) =>
      s.(replies := s.replies - multiset{h})
    case ClientTransport(receiver, src, now) =>
      s.(table := FromClient(t, receiver, src, now).0)
    case ServerTransport(receiver, src, now) =>
      s.(table := FromServer(t, receiver, src, now).0)
    case ExpireCheck(cutoff) =>
      s.(table := Expire(t, cutoff))
    case UpdateServer(addr) =>
      s.(table := UpdateServers(t, addr))
    case SaveTable(order) =>
      s.(disk := Saved(t, order))
    case Restart(load, now) =>
      State(if load then Load(EMPTY, s.disk, now) else EMPTY, map[], multiset{}, s.disk)
  }

  /** The wire output of a step. Sender and receiver are rewritten only where origin and proxy differ. */
  ghost function Emits(s: State, e: Event): Output {
    if !Enabled(s, e) then Nothing else
    var t := s.table;
    match e
    case ForwardInitiation(p) =>
      var q := t.heap[p];
      SendInitiation(if q.clientOrigin != q.clientProxy then q.clientProxy else s.initiations[p].sender, q.serverDest)
    case ForwardReply(h) =>
      var q := t.heap[h.peer];
      var patched := q.serverOrigin != q.serverProxy || q.clientOrigin != q.clientProxy;
      (match h.kind
       case Response =>
         SendResponse(if patched then q.serverProxy else h.sender,
                      if patched then q.clientOrigin else h.receiver, q.clientDest, q.obfuscate)
       case CookieReply => SendCookieReply(q.clientOrigin, q.clientDest, q.obfuscate))
    case ClientTransport(receiver, src, now) =>
      (match FromClient(t, receiver, src, now).1
       case None => Nothing
       case Some(id) => SendToServer(t.heap[id].serverOrigin, t.heap[id].serverDest))
    case ServerTransport(receiver, src, now) =>
      (match FromServer(t, receiver, src, now).1
       case None => Nothing
       case Some(id) => SendToClient(t.heap[id].clientOrigin, t.heap[id].clientDest, t.heap[id].obfuscate))
    case _ => Nothing
  }

  /** The allocator delivers a free index, where the step allocates one. */
  ghost predicate Allocates(s: State, e: Event) {
    match e
    case InsertPeer(_, proxy) => Alloc.Free(s.table.clientMap, proxy)
    case HandleResponse(_, receiver, proxy, _) => receiver in s.table.clientMap ==> Alloc.Free(s.table.serverMap, proxy)
    case _ => true
  }

  /** A matched response is its peer's first. */
  ghost predicate FirstResponse(s: State, e: Event) {
    e.HandleResponse? && e.receiver in s.table.clientMap && s.table.clientMap[e.receiver] < |s.table.heap| ==>
      !Replied(s.table.heap[s.table.clientMap[e.receiver]])
  }

  ghost predicate Good(s: State, e: Event) {
    Enabled(s, e) && Allocates(s, e) && FirstResponse(s, e)
  }

  ghost function Run(s: State, es: seq<Event>): State {
    if es == [] then s else Next(Run(s, es[..|es| - 1]), es[|es| - 1])
  }

  ghost predicate GoodRun(s: State, es: seq<Event>) {
    es != [] ==> GoodRun(s, es[..|es| - 1]) && Good(Run(s, es[..|es| - 1]), es[|es| - 1])
  }

  predicate NoRestart(es: seq<Event>) {
    forall i :: 0 <= i < |es| ==> !es[i].Restart?
  }

  const INITIAL := State(EMPTY, map[], multiset{}, [])

  // ---------------------------------------------------------------- the invariant of the whole system

  /** Handlers of initiations and their peers agree. */
  predicate InitiationOk(q: Peer, i: Initiation) {
    && q.clientOrigin == i.sender
    && (i.stage == Extracted <==> q.clientProxy == 0)
    && (i.stage == Extracted ==> q.serverProxy == 0)
    && q.obfuscate == (i.deobfuscated && (i.stage == Marked || i.stage == Forwarded))
  }

  /** A pending reply still carries the indices its peer was matched with. */
  predicate ReplyOk(q: Peer, h: Reply) {
    q.clientProxy == h.receiver != 0 && (h.kind == Response ==> q.serverOrigin == h.sender && Replied(q))
  }

  predicate InitiationsOk(s: State)
    requires WellFormed(s)
  {
    forall p :: p in s.initiations ==> InitiationOk(s.table.heap[p], s.initiations[p])
  }

  predicate RepliesOk(s: State)
    requires WellFormed(s)
  {
    forall h :: h in s.replies ==> ReplyOk(s.table.heap[h.peer], h)
  }

  /** No peer has a server level of its own. */
  predicate LevelsOk(s: State) {
    && (forall p :: 0 <= p < |s.table.heap| ==> s.table.heap[p].serverLevel == LEVEL_DEFAULT)
    && (forall i :: 0 <= i < |s.disk| ==> s.disk[i].serverLevel == LEVEL_DEFAULT)
  }

  ghost predicate SystemInv(s: State) {
    WellFormed(s) && Inv(s.table) && InitiationsOk(s) && RepliesOk(s) && GoodRecords(s.disk)
  }

  /** Two versions of a peer that handlers in flight cannot tell apart. */
  predicate SameIndices(q: Peer, r: Peer) {
    && q.clientOrigin == r.clientOrigin && q.clientProxy == r.clientProxy
    && q.serverOrigin == r.serverOrigin && q.serverProxy == r.serverProxy && q.obfuscate == r.obfuscate
  }

  lemma HandlersKeep(s: State, s': State)
    requires WellFormed(s) && InitiationsOk(s) && RepliesOk(s) && InHeap(s'.table)
    requires |s.table.heap| == |s'.table.heap| && s'.initiations == s.initiations
    requires forall h :: h in s'.replies ==> h in s.replies
    requires forall i :: 0 <= i < |s.table.heap| ==> SameIndices(s.table.heap[i], s'.table.heap[i])
    ensures WellFormed(s') && InitiationsOk(s') && RepliesOk(s')
  {
    forall h | h in s'.replies
      ensures h.peer < |s'.table.heap| && ReplyOk(s'.table.heap[h.peer], h)
    {
      assert ReplyOk(s.table.heap[h.peer], h);
    }
  }

  lemma ResponseKeeps(s: State, e: Event)
    requires SystemInv(s) && Good(s, e) && e.HandleResponse? && e.receiver in s.table.clientMap
    ensures SystemInv(Next(s, e))
  {
    var s' := Next(s, e);
    RespondKeeps(s.table, e.receiver, e.sender, e.proxy, e.now);
    var p := s.table.clientMap[e.receiver];
    assert s.table.heap[p].clientProxy == e.receiver != 0;
    forall h | h in s'.replies
      ensures h.peer < |s'.table.heap| && ReplyOk(s'.table.heap[h.peer], h)
    {
      if h in s.replies {
        assert ReplyOk(s.table.heap[h.peer], h);
      } else {
        assert h == Reply(Response, p, e.sender, e.receiver);
      }
    }
    forall i | i in s'.initiations
      ensures InitiationOk(s'.table.heap[i], s'.initiations[i])
    {
      assert InitiationOk(s.table.heap[i], s.initiations[i]);
    }
  }

  lemma CookieReplyKeeps(s: State, e: Event)
    requires SystemInv(s) && Good(s, e) && e.HandleCookieReply?
    ensures SystemInv(Next(s, e))
  {
    var s' := Next(s, e);
    forall h | h in s'.replies
      ensures h.peer < |s'.table.heap| && ReplyOk(s'.table.heap[h.peer], h)
    {
      if h in s.replies {
        assert ReplyOk(s.table.heap[h.peer], h);
      } else {
        assert h == Reply(CookieReply, s.table.clientMap[e.receiver], 0, e.receiver);
      }
    }
  }

  lemma ExtractKeeps(s: State, e: Event)
    requires SystemInv(s) && Good(s, e) && (e.ExtractPeer? || e.ForwardInitiation?)
    ensures SystemInv(Next(s, e))
  {
    if e.ExtractPeer? {
      CreateKeeps(s.table, NewPeer(e.rule, e.src, e.sender, e.now));
    }
  }

  lemma InsertPeerKeeps(s: State, e: Event)
    requires SystemInv(s) && Good(s, e) && e.InsertPeer?
    ensures SystemInv(Next(s, e))
  {
    assert InitiationOk(s.table.heap[e.peer], s.initiations[e.peer]);
    InsertKeeps(s.table, e.peer, e.proxy);
  }

  lemma MarkPeerKeeps(s: State, e: Event)
    requires SystemInv(s) && Good(s, e) && e.MarkPeer?
    ensures SystemInv(Next(s, e))
  {
    assert InitiationOk(s.table.heap[e.peer], s.initiations[e.peer]);
    MarkKeeps(s.table, e.peer);
  }

  lemma ClientTransportKeeps(s: State, e: Event)
    requires SystemInv(s) && e.ClientTransport?
    ensures SystemInv(Next(s, e))
  {
    FromClientKeeps(s.table, e.receiver, e.src, e.now);
    FromClientFrame(s.table, e.receiver, e.src, e.now);
    HandlersKeep(s, s.(table := FromClient(s.table, e.receiver, e.src, e.now).0));
  }

  lemma ServerTransportKeeps(s: State, e: Event)
    requires SystemInv(s) && e.ServerTransport?
    ensures SystemInv(Next(s, e))
  {
    FromServerKeeps(s.table, e.receiver, e.src, e.now);
    FromServerFrame(s.table, e.receiver, e.src, e.now);
    HandlersKeep(s, s.(table := FromServer(s.table, e.receiver, e.src, e.now).0));
  }

  lemma ExpireCheckKeeps(s: State, e: Event)
    requires SystemInv(s) && e.ExpireCheck?
    ensures SystemInv(Next(s, e))
  {
    ExpireExact(s.table, e.cutoff);
    HandlersKeep(s, s.(table := Expire(s.table, e.cutoff)));
  }

  lemma UpdateServerKeeps(s: State, e: Event)
    requires SystemInv(s) && e.UpdateServer?
    ensures SystemInv(Next(s, e))
  {
    UpdateComplete(s.table, e.addr);
    HandlersKeep(s, s.(table := UpdateServers(s.table, e.addr)));
  }

  lemma SaveTableKeeps(s: State, e: Event)
    requires SystemInv(s) && Good(s, e) && e.SaveTable?
    ensures SystemInv(Next(s, e))
  {
    SavedGood(s.table, e.order);
  }

  lemma ForwardReplyKeeps(s: State, e: Event)
    requires SystemInv(s) && Good(s, e) && e.ForwardReply?
    ensures SystemInv(Next(s, e))
  {
    HandlersKeep(s, s.(replies := s.replies - multiset{e.reply}));
  }

  lemma RestartKeeps(s: State, e: Event)
    requires SystemInv(s) && e.Restart?
    ensures SystemInv(Next(s, e))
  {
    if e.load {
      LoadGood(s.disk, e.now);
      LoadedInv(Load(EMPTY, s.disk, e.now), s.disk, e.now);
    }
  }

  /** Every step keeps the invariant. */
  lemma StepKeeps(s: State, e: Event)
    requires SystemInv(s) && Good(s, e)
    ensures SystemInv(Next(s, e))
  {
    match e
    case ExtractPeer(_, _, _, _, _) => ExtractKeeps(s, e);
    case InsertPeer(_, _) => InsertPeerKeeps(s, e);
    case MarkPeer(_) => MarkPeerKeeps(s, e);
    case ForwardInitiation(_) => ExtractKeeps(s, e);
    case HandleResponse(_, receiver, _, _) =>
      if receiver in s.table.clientMap {
        ResponseKeeps(s, e);
      }
    case HandleCookieReply(_, _) => CookieReplyKeeps(s, e);
    case ForwardReply(_) => ForwardReplyKeeps(s, e);
    case ClientTransport(_, _, _) => ClientTransportKeeps(s, e);
    case ServerTransport(_, _, _) => ServerTransportKeeps(s, e);
    case ExpireCheck(_) => ExpireCheckKeeps(s, e);
    case UpdateServer(_) => UpdateServerKeeps(s, e);
    case SaveTable(_) => SaveTableKeeps(s, e);
    case Restart(_, _) => RestartKeeps(s, e);
  }

  /** Every interleaving of handlers, expiry, updates, saves and restarts keeps it. */
  lemma {:induction false} RunKeeps(s: State, es: seq<Event>)
    requires SystemInv(s) && GoodRun(s, es)
    ensures SystemInv(Run(s, es))
  {
    if es != [] {
      RunKeeps(s, es[..|es| - 1]);
      StepKeeps(Run(s, es[..|es| - 1]), es[|es| - 1]);
    }
  }

  // ---------------------------------------------------------------- what the quiet steps leave alone

  /** Steps that neither make, register, mark or answer a peer, nor restart. */
  predicate QuietEvent(e: Event) {
    e.HandleCookieReply? || e.ForwardReply? || e.ClientTransport? || e.ServerTransport?
    || e.ExpireCheck? || e.UpdateServer? || e.SaveTable?
  }

  /** Only the time and the two addresses may differ. */
  predicate QuietPeer(p: Peer, q: Peer) {
    q == p.(lastActive := q.lastActive, clientDest := q.clientDest, serverDest := q.serverDest)
  }

  predicate QuietTable(t: Table, t': Table) {
    && |t'.heap| == |t.heap| && (forall i :: 0 <= i < |t.heap| ==> QuietPeer(t.heap[i], t'.heap[i]))
    && (forall k :: k in t'.clientMap ==> k in t.clientMap && t'.clientMap[k] == t.clientMap[k])
  }

  lemma TransportQuiet(s: State, e: Event)
    requires WellFormed(s) && (e.ClientTransport? || e.ServerTransport?)
    ensures Next(s, e).initiations == s.initiations && QuietTable(s.table, Next(s, e).table)
            && Next(s, e).disk == s.disk
  {
    if e.ClientTransport? {
      FromClientFrame(s.table, e.receiver, e.src, e.now);
    } else {
      FromServerFrame(s.table, e.receiver, e.src, e.now);
    }
  }

  lemma UpdateQuiet(s: State, e: Event)
    requires WellFormed(s) && (e.ExpireCheck? || e.UpdateServer?)
    ensures Next(s, e).initiations == s.initiations && QuietTable(s.table, Next(s, e).table)
            && Next(s, e).disk == s.disk
  {
  }

  lemma Quiet(s: State, e: Event)
    requires WellFormed(s) && QuietEvent(e)
    ensures Next(s, e).initiations == s.initiations && QuietTable(s.table, Next(s, e).table)
    ensures Next(s, e).disk == s.disk || e.SaveTable?
  {
    hide Next;
    if e.ClientTransport? || e.ServerTransport? {
      TransportQuiet(s, e);
    } else if e.ExpireCheck? || e.UpdateServer? {
      UpdateQuiet(s, e);
    } else {
      TableKept(s, e);
    }
  }

  lemma TableKept(s: State, e: Event)
    requires e.HandleCookieReply? || e.ForwardReply? || e.SaveTable?
    ensures Next(s, e).table == s.table && Next(s, e).initiations == s.initiations
    ensures e.SaveTable? || Next(s, e).disk == s.disk
  {
  }
}
