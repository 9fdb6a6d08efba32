/** What whole runs promise to one session: survival, transparency, non-interference, pinning, a stable obfuscation
    choice. Nothing is asked of the rest of the table, of the allocator or of the saved file: the steps that end a
    session are told exactly, and everything holds until one of them. */
module Sessions {
  import opened Bytes
  import opened Tables
  import opened Records
  import opened Runs
  import opened AnyRuns
  import opened WeakRuns

  /** The four indices of a session: what each end calls itself, and what the other end is shown. */
  datatype Session = Session(clientOrigin: Index, clientProxy: Index, serverOrigin: Index, serverProxy: Index)

  function Indices(p: Peer): Session {
    Session(p.clientOrigin, p.clientProxy, p.serverOrigin, p.serverProxy)
  }

  predicate Live(t: Table, x: Session) {
    && x.clientProxy != 0 && x.serverProxy != 0 && x.clientProxy in t.clientMap && x.serverProxy in t.serverMap
    && t.clientMap[x.clientProxy] == t.serverMap[x.serverProxy] < |t.heap|
    && Indices(t.heap[t.clientMap[x.clientProxy]]) == x
  }

  function PeerOf(t: Table, x: Session): Peer
    requires Live(t, x)
  {
    t.heap[t.clientMap[x.clientProxy]]
  }

  // ---------------------------------------------------------------- revival by a restart

  predicate Matches(r: Record, x: Session) {
    r.clientOrigin == x.clientOrigin && r.clientProxy == x.clientProxy
    && r.serverOrigin == x.serverOrigin && r.serverProxy == x.serverProxy
  }

  /** Record `i` is `x`, and no later one takes either of its keys. */
  ghost predicate Prevails(rs: seq<Record>, i: nat, x: Session) {
    && i < |rs| && Usable(rs[i]) && Matches(rs[i], x)
    && forall j :: i < j < |rs| && Usable(rs[j]) ==>
      rs[j].clientProxy != x.clientProxy && rs[j].serverProxy != x.serverProxy
  }

  ghost predicate Revived(rs: seq<Record>, x: Session) {
    x.clientProxy != 0 && x.serverProxy != 0 && exists i :: Prevails(rs, i, x)
  }

  lemma LoadOneLive(t: Table, r: Record, now: Time, x: Session)
    requires InHeap(t) && Usable(r) && x.clientProxy != 0 && x.serverProxy != 0
    ensures Live(LoadOne(t, r, now), x) <==>
            if r.clientProxy == x.clientProxy || r.serverProxy == x.serverProxy then Matches(r, x) else Live(t, x)
  {
  }

  lemma PrevailsPrefix(rs: seq<Record>, i: nat, x: Session)
    requires rs != []
    ensures var n := |rs| - 1;
            Prevails(rs, i, x) <==>
            if i == n then Usable(rs[n]) && Matches(rs[n], x)
            else Prevails(rs[..n], i, x)
                 && (Usable(rs[n]) ==> rs[n].clientProxy != x.clientProxy && rs[n].serverProxy != x.serverProxy)
  {
    var n := |rs| - 1;
    if i < n {
      assert forall j :: i < j < n ==> rs[..n][j] == rs[j];
    }
  }

  lemma NeverZero(rs: seq<Record>, now: Time)
    ensures 0 !in Load(EMPTY, rs, now).serverMap
  {
  }

  /** Whatever the file holds, a session is live after loading it exactly if a record of it prevails. */
  lemma {:induction false} RestartRevives(rs: seq<Record>, now: Time, x: Session)
    ensures Live(Load(EMPTY, rs, now), x) <==> Revived(rs, x)
  {
    NeverZero(rs, now);
    if rs != [] && x.clientProxy != 0 && x.serverProxy != 0 {
      var n := |rs| - 1;
      RestartRevives(rs[..n], now, x);
      LoadedFrom(rs[..n], now);
      forall i: nat
        ensures Prevails(rs, i, x) <==>
                if i == n then Usable(rs[n]) && Matches(rs[n], x)
                else Prevails(rs[..n], i, x)
                     && (Usable(rs[n]) ==> rs[n].clientProxy != x.clientProxy && rs[n].serverProxy != x.serverProxy)
      {
        PrevailsPrefix(rs, i, x);
      }
      assert Prevails(rs, n, x) <==> Usable(rs[n]) && Matches(rs[n], x);
      if Usable(rs[n]) {
        LoadOneLive(Load(EMPTY, rs[..n], now), rs[n], now, x);
      }
    }
  }

  // ---------------------------------------------------------------- survival

  /** The steps that end a live session: another peer takes its client key; its own peer is answered anew, or another
      peer's answer takes its server key; a stale peer with its server key expires, as it does itself; or a restart does
      not revive it. */
  ghost predicate Ends(s: State, e: Event, x: Session)
    requires InHeap(s.table) && Live(s.table, x)
  {
    match e
    case InsertPeer(_, proxy) => Enabled(s, e) && proxy == x.clientProxy
    case HandleResponse(sender, receiver, proxy, _) =>
      receiver != 0 && receiver in s.table.clientMap &&
      if receiver == x.clientProxy then sender != x.serverOrigin || proxy != x.serverProxy else proxy == x.serverProxy
    case ExpireCheck(cutoff) =>
      exists k :: k in s.table.clientMap && Stale(s.table, k, cutoff)
                  && s.table.heap[s.table.clientMap[k]].serverProxy == x.serverProxy
    case Restart(load, _) => !load || !Revived(s.disk, x)
    case _ => false
  }

  lemma ExpiryEnds(s: State, e: Event, x: Session)
    requires Orderly(s) && e.ExpireCheck? && Live(s.table, x)
    ensures Live(Next(s, e).table, x) <==> !Ends(s, e, x)
  {
    var t := s.table;
    var gone := StaleKeys(t, e.cutoff, t.clientMap.Keys);
    assert x.serverProxy in ServerKeys(t, gone) <==> Ends(s, e, x);
    assert x.clientProxy in gone ==> x.serverProxy in ServerKeys(t, gone);
  }

  lemma HandshakeEnds(s: State, e: Event, x: Session)
    requires Orderly(s) && Live(s.table, x) && (e.ExtractPeer? || e.InsertPeer? || e.MarkPeer? || e.ForwardInitiation?)
    ensures Live(Next(s, e).table, x) <==> !Ends(s, e, x)
  {
    assert s.table.clientMap[x.clientProxy] in s.table.clientMap.Values;
    if e.InsertPeer? && Enabled(s, e) {
      assert e.peer in Unregistered(s);
    }
  }

  lemma ResponseEnds(s: State, e: Event, x: Session)
    requires Orderly(s) && Live(s.table, x) && e.HandleResponse?
    ensures Live(Next(s, e).table, x) <==> !Ends(s, e, x)
  {
    if e.receiver in s.table.clientMap {
      assert s.table.heap[s.table.clientMap[e.receiver]].clientProxy == e.receiver;
    }
  }

  lemma QuietSpares(s: State, e: Event, x: Session)
    requires WellFormed(s) && Live(s.table, x) && QuietEvent(e) && !e.ExpireCheck?
    ensures Live(Next(s, e).table, x)
  {
    Quiet(s, e);
    if e.ClientTransport? {
      FromClientFrame(s.table, e.receiver, e.src, e.now);
    } else if e.ServerTransport? {
      FromServerFrame(s.table, e.receiver, e.src, e.now);
    }
    var id := s.table.clientMap[x.clientProxy];
    assert QuietPeer(s.table.heap[id], Next(s, e).table.heap[id]);
  }

  /** No other step ends a session: it lives on exactly when the step does not end it. */
  lemma LivesOn(s: State, e: Event, x: Session)
    requires Orderly(s) && Live(s.table, x)
    ensures Live(Next(s, e).table, x) <==> !Ends(s, e, x)
  {
    if e.Restart? {
      RestartRevives(s.disk, e.now, x);
    } else if e.ExpireCheck? {
      ExpiryEnds(s, e, x);
    } else if QuietEvent(e) {
      QuietSpares(s, e, x);
    } else if e.HandleResponse? {
      ResponseEnds(s, e, x);
    } else {
      HandshakeEnds(s, e, x);
    }
  }

  ghost predicate NeverEnds(s: State, es: seq<Event>, x: Session) {
    es != [] ==>
      var s' := Run(s, es[..|es| - 1]);
      NeverEnds(s, es[..|es| - 1], x) && (InHeap(s'.table) && Live(s'.table, x) ==> !Ends(s', es[|es| - 1], x))
  }

  lemma {:induction false} RunLivesOn(s: State, es: seq<Event>, x: Session)
    requires Orderly(s) && Live(s.table, x) && NeverEnds(s, es, x)
    ensures Orderly(Run(s, es)) && Live(Run(s, es).table, x)
  {
    RunOrderly(s, es);
    if es != [] {
      var init := es[..|es| - 1];
      RunLivesOn(s, init, x);
      LivesOn(Run(s, init), es[|es| - 1], x);
    }
  }

  lemma WeakIsOrderly(s: State)
    requires WeakSystemInv(s)
    ensures Orderly(s)
  {
    forall p | p in Unregistered(s)
      ensures p !in s.table.clientMap.Values
    {
      assert InitiationOk(s.table.heap[p], s.initiations[p]);
    }
  }

  /** Where the allocator delivers, only three things end a session: a further answer to its own peer, its own expiry,
      and a restart that does not revive it. */
  lemma EndsOnlyBy(s: State, e: Event, x: Session)
    requires WeakSystemInv(s) && WeakGood(s, e) && Live(s.table, x)
    ensures Ends(s, e, x) <==>
            match e
            case HandleResponse(_, receiver, _, _) => receiver == x.clientProxy
            case ExpireCheck(cutoff) => PeerOf(s.table, x).lastActive < cutoff
            case Restart(load, _) => !load || !Revived(s.disk, x)
            case _ => false
  {
    if e.ExpireCheck? {
      forall k | k in s.table.clientMap && s.table.heap[s.table.clientMap[k]].serverProxy == x.serverProxy
        ensures k == x.clientProxy
      {
        assert Replied(s.table.heap[s.table.clientMap[k]]);
        assert s.table.heap[s.table.clientMap[k]].clientProxy == k;
      }
    }
  }

  /** As long as no restart intervenes a live session keeps its peer. */
  lemma SamePeer(s: State, e: Event, x: Session)
    requires Orderly(s) && Live(s.table, x) && !e.Restart? && !Ends(s, e, x)
    ensures Live(Next(s, e).table, x) && Next(s, e).table.clientMap[x.clientProxy] == s.table.clientMap[x.clientProxy]
  {
    LivesOn(s, e, x);
    KeysGrow(s, e, x.clientProxy);
  }

  lemma {:induction false} RunSamePeer(s: State, es: seq<Event>, x: Session)
    requires Orderly(s) && NoRestart(es) && Live(s.table, x) && NeverEnds(s, es, x)
    ensures Live(Run(s, es).table, x) && Run(s, es).table.clientMap[x.clientProxy] == s.table.clientMap[x.clientProxy]
  {
    if es != [] {
      var init := es[..|es| - 1];
      RunSamePeer(s, init, x);
      RunOrderly(s, init);
      SamePeer(Run(s, init), es[|es| - 1], x);
    }
  }

  // ---------------------------------------------------------------- transparency

  /** The session is live, and in state `s` a client packet addressed to the name it was shown leaves with the name
      the server chose, for that session's server; a server packet is restored to the client's own name and sent to
      its client. */
  ghost predicate Translates(s: State, x: Session, src: Addr, now: Time) {
    && Live(s.table, x)
    && var p := PeerOf(s.table, x);
    && Emits(s, ClientTransport(x.serverProxy, src, now)) ==
       (if ClientAccepts(p, src) then SendToServer(x.serverOrigin, p.serverDest) else Nothing)
    && Emits(s, ServerTransport(x.clientProxy, src, now)) ==
       (if ServerAccepts(p, src) then SendToClient(x.clientOrigin, p.clientDest, p.obfuscate) else Nothing)
  }

  lemma LiveTranslates(s: State, x: Session, src: Addr, now: Time)
    requires WellFormed(s) && Live(s.table, x)
    ensures Translates(s, x, src, now)
  {
  }

  /** What the server is shown: the proxy index of the peer made for this initiation. */
  lemma InitiationShown(s: State, p: PeerId)
    requires WeakSystemInv(s) && AtStage(s, p, Marked)
    ensures var q := s.table.heap[p];
            && Emits(s, ForwardInitiation(p)) == SendInitiation(q.clientProxy, q.serverDest)
            && q.clientOrigin == s.initiations[p].sender
  {
    assert InitiationOk(s.table.heap[p], s.initiations[p]);
  }

  /** The handler that is about to show the client its session. */
  function ReplyFor(t: Table, x: Session): Reply
    requires Live(t, x)
  {
    Reply(Response, t.clientMap[x.clientProxy], x.serverOrigin, x.clientProxy)
  }

  /** What the client is shown: its own index as receiver, and the server proxy index as sender, patched or not. */
  lemma ResponseShown(s: State, x: Session)
    requires WellFormed(s) && Live(s.table, x) && ReplyFor(s.table, x) in s.replies
    ensures Emits(s, ForwardReply(ReplyFor(s.table, x))) ==
            SendResponse(x.serverProxy, x.clientOrigin, PeerOf(s.table, x).clientDest, PeerOf(s.table, x).obfuscate)
  {
  }

  /** A matched response brings a session to life, even if it is not its peer's first. */
  lemma ResponseStarts(s: State, e: Event)
    requires Orderly(s) && Matched(s, e)
    ensures var x := Started(s, e);
            Live(Next(s, e).table, x) && ReplyFor(Next(s, e).table, x) in Next(s, e).replies
  {
    assert s.table.heap[s.table.clientMap[e.receiver]].clientProxy == e.receiver;
  }

  /** A response for a registered peer, and a proxy index as the allocator returns it, which is never 0. */
  predicate Matched(s: State, e: Event) {
    e.HandleResponse? && e.receiver != 0 && e.receiver in s.table.clientMap && e.proxy != 0
  }

  function Started(s: State, e: Event): Session
    requires WellFormed(s) && Matched(s, e)
  {
    Session(s.table.heap[s.table.clientMap[e.receiver]].clientOrigin, e.receiver, e.sender, e.proxy)
  }

  /** The session lives from a response to its forwarding. */
  ghost predicate Awaits(s: State, e: Event, before: seq<Event>)
    requires WellFormed(s) && Matched(s, e)
  {
    NoRestart(before) && NeverEnds(Next(s, e), before, Started(s, e))
    && Reply(Response, s.table.clientMap[e.receiver], e.sender, e.receiver) in Run(Next(s, e), before).replies
  }

  ghost function Forwarding(s: State, e: Event, before: seq<Event>): State
    requires WellFormed(s) && Matched(s, e)
  {
    Next(Run(Next(s, e), before), ForwardReply(Reply(Response, s.table.clientMap[e.receiver], e.sender, e.receiver)))
  }

  /** From a response on, and until the session ends, the response is forwarded with the session's names, and then
      transport packets are translated between the names each end was shown and the names each end chose - through
      roaming, any other handshakes and answers, updates, saves and restarts, and however many clients chose the same
      index. */
  lemma SessionTransparency(s: State, e: Event, before: seq<Event>, after: seq<Event>, src: Addr, now: Time)
    requires Orderly(s) && Matched(s, e) && Awaits(s, e, before)
    ensures var shown := Emits(Run(Next(s, e), before),
                               ForwardReply(Reply(Response, s.table.clientMap[e.receiver], e.sender, e.receiver)));
            var f := Forwarding(s, e, before);
            && shown.SendResponse? && Session(shown.receiver, e.receiver, e.sender, shown.sender) == Started(s, e)
            && Orderly(f) && (NeverEnds(f, after, Started(s, e)) ==> Translates(Run(f, after), Started(s, e), src, now))
  {
    var x := Started(s, e);
    var s2, h := Run(Next(s, e), before), Reply(Response, s.table.clientMap[e.receiver], e.sender, e.receiver);
    StillAwaited(s, e, before);
    ResponseShown(s2, x);
    hide Next, Run, NeverEnds, Live, Orderly, Emits;
    ForwardingSpares(s2, x, h);
    if NeverEnds(Next(s2, ForwardReply(h)), after, x) {
      SessionFollows(Next(s2, ForwardReply(h)), x, after, src, now);
    }
  }

  lemma StillAwaited(s: State, e: Event, before: seq<Event>)
    requires Orderly(s) && Matched(s, e) && Awaits(s, e, before)
    ensures var s' := Run(Next(s, e), before);
            && Orderly(s') && Live(s'.table, Started(s, e))
            && ReplyFor(s'.table, Started(s, e)) == Reply(Response, s.table.clientMap[e.receiver], e.sender, e.receiver)
  {
    hide Next, Run, NeverEnds, RegisteredOk;
    var s1 := Next(s, e);
    ResponseStarts(s, e);
    StepOrderly(s, e);
    SameClientKeys(s, e);
    RunSamePeer(s1, before, Started(s, e));
    RunOrderly(s1, before);
  }

  lemma SameClientKeys(s: State, e: Event)
    requires e.HandleResponse?
    ensures Next(s, e).table.clientMap == s.table.clientMap
  {
  }

  lemma ForwardingSpares(s: State, x: Session, h: Reply)
    requires Orderly(s) && Live(s.table, x)
    ensures Orderly(Next(s, ForwardReply(h))) && Live(Next(s, ForwardReply(h)).table, x)
  {
    StepOrderly(s, ForwardReply(h));
    LivesOn(s, ForwardReply(h), x);
  }

  lemma SessionFollows(s: State, x: Session, es: seq<Event>, src: Addr, now: Time)
    requires Orderly(s) && Live(s.table, x) && NeverEnds(s, es, x)
    ensures Translates(Run(s, es), x, src, now)
  {
    RunLivesOn(s, es, x);
    LiveTranslates(Run(s, es), x, src, now);
  }

  // ---------------------------------------------------------------- non-interference

  /** The steps that handle the peer registered under `k`, or take one of its keys. A client packet may reach it under
      an older server key. */
  ghost predicate Concerns(s: State, e: Event, k: Index)
    requires InHeap(s.table) && k in s.table.clientMap
  {
    var id := s.table.clientMap[k];
    match e
    case InsertPeer(_, proxy) => proxy == k
    case MarkPeer(p) => p == id
    case HandleResponse(_, receiver, proxy, _) =>
      receiver == k || (receiver != 0 && receiver in s.table.clientMap && proxy == s.table.heap[id].serverProxy)
    case ClientTransport(receiver, _, _) => receiver in s.table.serverMap && s.table.serverMap[receiver] == id
    case ServerTransport(receiver, _, _) => receiver == k
    case ExpireCheck(cutoff) => Expires(s.table, cutoff, k)
    case Restart(_, _) => true
    case _ => false
  }

  /** A stale peer takes the entry under `k`, or the server key of its peer, with it. */
  ghost predicate Expires(t: Table, cutoff: Time, k: Index)
    requires InHeap(t) && k in t.clientMap
  {
    exists l :: l in t.clientMap && Stale(t, l, cutoff)
                && (l == k || t.heap[t.clientMap[l]].serverProxy == t.heap[t.clientMap[k]].serverProxy != 0)
  }

  /** Key `sp` leads where it did. */
  predicate SameLookup(t: Table, t': Table, sp: Index) {
    (sp in t.serverMap <==> sp in t'.serverMap) && (sp in t.serverMap ==> t'.serverMap[sp] == t.serverMap[sp])
  }

  /** The peer under `k` is still there, is now `q`, and its server key leads where it did. */
  predicate Undisturbed(t: Table, t': Table, k: Index, q: Peer)
    requires InHeap(t) && k in t.clientMap
  {
    && InHeap(t') && k in t'.clientMap && t'.clientMap[k] == t.clientMap[k] && t'.heap[t'.clientMap[k]] == q
    && (Replied(q) ==> SameLookup(t, t', q.serverProxy))
  }

  lemma HandshakeUndisturbed(s: State, e: Event, k: Index)
    requires Orderly(s) && k in s.table.clientMap && !Concerns(s, e, k)
    requires e.ExtractPeer? || e.InsertPeer? || e.MarkPeer?
    ensures Undisturbed(s.table, Next(s, e).table, k, s.table.heap[s.table.clientMap[k]])
  {
    assert s.table.clientMap[k] in s.table.clientMap.Values;
    if e.InsertPeer? && Enabled(s, e) {
      assert e.peer in Unregistered(s);
    }
  }

  lemma ResponseUndisturbed(s: State, e: Event, k: Index)
    requires Orderly(s) && k in s.table.clientMap && e.HandleResponse? && !Concerns(s, e, k)
    ensures Undisturbed(s.table, Next(s, e).table, k, s.table.heap[s.table.clientMap[k]])
  {
    assert s.table.heap[s.table.clientMap[k]].clientProxy == k;
    if e.receiver in s.table.clientMap {
      assert s.table.heap[s.table.clientMap[e.receiver]].clientProxy == e.receiver;
    }
  }

  lemma TransportUndisturbed(s: State, e: Event, k: Index)
    requires Orderly(s) && k in s.table.clientMap && !Concerns(s, e, k)
    requires e.ClientTransport? || e.ServerTransport?
    ensures Undisturbed(s.table, Next(s, e).table, k, s.table.heap[s.table.clientMap[k]])
  {
    assert s.table.heap[s.table.clientMap[k]].clientProxy == k;
    if e.ServerTransport? && e.receiver in s.table.clientMap {
      assert s.table.heap[s.table.clientMap[e.receiver]].clientProxy == e.receiver;
    }
  }

  lemma ExpiryUndisturbed(s: State, e: Event, k: Index)
    requires Orderly(s) && k in s.table.clientMap && e.ExpireCheck? && !Concerns(s, e, k)
    ensures Undisturbed(s.table, Next(s, e).table, k, s.table.heap[s.table.clientMap[k]])
  {
    var t, p := s.table, s.table.heap[s.table.clientMap[k]];
    var gone := StaleKeys(t, e.cutoff, t.clientMap.Keys);
    assert k !in gone;
    assert Replied(p) ==> p.serverProxy !in ServerKeys(t, gone);
  }

  lemma UpdateUndisturbed(s: State, e: Event, k: Index)
    requires WellFormed(s) && k in s.table.clientMap && e.UpdateServer?
    ensures Undisturbed(s.table, Next(s, e).table, k, s.table.heap[s.table.clientMap[k]].(serverDest := e.addr))
  {
    assert s.table.clientMap[k] in s.table.clientMap.Values;
  }

  /** In every run, a step that does not concern a registered peer leaves it, and both its lookups, as they are;
      an address update changes its server address and nothing else. */
  lemma NonInterference(s: State, e: Event, k: Index)
    requires Orderly(s) && k in s.table.clientMap && !Concerns(s, e, k)
    ensures var p := s.table.heap[s.table.clientMap[k]];
            Undisturbed(s.table, Next(s, e).table, k, if e.UpdateServer? then p.(serverDest := e.addr) else p)
  {
    if e.ExtractPeer? || e.InsertPeer? || e.MarkPeer? {
      HandshakeUndisturbed(s, e, k);
    } else if e.HandleResponse? {
      ResponseUndisturbed(s, e, k);
    } else if e.ClientTransport? || e.ServerTransport? {
      TransportUndisturbed(s, e, k);
    } else if e.ExpireCheck? {
      ExpiryUndisturbed(s, e, k);
    } else if e.UpdateServer? {
      UpdateUndisturbed(s, e, k);
    }
  }

  /** Where the allocator delivers, registrations and answers of others do not concern a peer, nor does their expiry,
      and it is found under its server key. */
  lemma ConcernsOnlyBy(s: State, e: Event, k: Index)
    requires WeakSystemInv(s) && WeakGood(s, e) && k in s.table.clientMap
    ensures e.InsertPeer? ==> !Concerns(s, e, k)
    ensures e.HandleResponse? ==> (Concerns(s, e, k) <==> e.receiver == k)
    ensures e.ExpireCheck? ==> (Concerns(s, e, k) <==> s.table.heap[s.table.clientMap[k]].lastActive < e.cutoff)
    ensures var p := s.table.heap[s.table.clientMap[k]];
            Replied(p) ==>
              p.serverProxy in s.table.serverMap && s.table.serverMap[p.serverProxy] == s.table.clientMap[k]
  {
    var p := s.table.heap[s.table.clientMap[k]];
    if e.ExpireCheck? {
      forall l | l in s.table.clientMap && s.table.heap[s.table.clientMap[l]].serverProxy == p.serverProxy != 0
        ensures l == k
      {
        assert s.table.heap[s.table.clientMap[l]].clientProxy == l && p.clientProxy == k;
      }
    }
  }

  // ---------------------------------------------------------------- what a session keeps, restarts included

  /** A revived session's peer comes from a record of it. */
  lemma RevivedFrom(rs: seq<Record>, now: Time, x: Session) returns (i: nat)
    requires Live(Load(EMPTY, rs, now), x)
    ensures i < |rs| && Matches(rs[i], x) && FromRecord(rs[i], now) == Some(PeerOf(Load(EMPTY, rs, now), x))
  {
    LoadedFrom(rs, now);
    var p := PeerOf(Load(EMPTY, rs, now), x);
    assert FromSome(rs, now, p);
    i :| 0 <= i < |rs| && FromRecord(rs[i], now) == Some(p);
  }

  /** Some server key leads to another peer with all four of the session's indices. */
  ghost predicate Doubled(t: Table, x: Session)
    requires InHeap(t) && Live(t, x)
  {
    exists k :: k in t.serverMap && t.serverMap[k] != t.clientMap[x.clientProxy] && Indices(t.heap[t.serverMap[k]]) == x
  }

  /** Not where every server key leads to a registered peer. */
  lemma RegisteredNotDoubled(t: Table, x: Session)
    requires InHeap(t) && Live(t, x) && AllRegistered(t)
    ensures !Doubled(t, x)
  {
  }

  /** The session is never saved while it is doubled. */
  ghost predicate SavedAlone(s: State, es: seq<Event>, x: Session) {
    es != [] ==>
      var s' := Run(s, es[..|es| - 1]);
      SavedAlone(s, es[..|es| - 1], x)
        && (es[|es| - 1].SaveTable? && InHeap(s'.table) && Live(s'.table, x) ==> !Doubled(s'.table, x))
  }

  /** Then every record of it is that of its peer. */
  lemma SavedOwn(t: Table, order: seq<Index>, x: Session, i: nat)
    requires InHeap(t) && Enumerates(order, t.serverMap) && Live(t, x) && !Doubled(t, x)
    requires i < |order| && Matches(Saved(t, order)[i], x)
    ensures Saved(t, order)[i] == ToRecord(PeerOf(t, x))
  {
    assert order[i] in t.serverMap && Indices(t.heap[t.serverMap[order[i]]]) == x;
  }

  predicate RecordBound(r: Record, level: int, dest: Addr) {
    r.clientDest.Some? && Bound(level, dest, r.clientLevel, r.clientDest.value)
  }

  /** The session's peer is bound to the address, and so is every saved copy of the session. */
  ghost predicate SessionBound(s: State, x: Session, level: int, dest: Addr) {
    && Live(s.table, x) && Bound(level, dest, PeerOf(s.table, x).clientLevel, PeerOf(s.table, x).clientDest)
    && (forall i :: 0 <= i < |s.disk| && Matches(s.disk[i], x) && Usable(s.disk[i]) ==>
      RecordBound(s.disk[i], level, dest))
  }

  lemma SaveBinds(s: State, order: seq<Index>, x: Session, level: int, dest: Addr)
    requires WellFormed(s) && Enumerates(order, s.table.serverMap) && SessionBound(s, x, level, dest)
             && !Doubled(s.table, x)
    ensures SessionBound(Next(s, SaveTable(order)), x, level, dest)
  {
    var rs := Saved(s.table, order);
    forall i | 0 <= i < |rs| && Matches(rs[i], x)
      ensures RecordBound(rs[i], level, dest)
    {
      SavedOwn(s.table, order, x, i);
    }
  }

  lemma StepBinds(s: State, e: Event, x: Session, level: int, dest: Addr)
    requires Orderly(s) && SessionBound(s, x, level, dest) && !Ends(s, e, x) && (e.SaveTable? ==> !Doubled(s.table, x))
    ensures SessionBound(Next(s, e), x, level, dest)
  {
    if e.SaveTable? && Enabled(s, e) {
      SaveBinds(s, e.order, x, level, dest);
    } else if e.Restart? {
      LivesOn(s, e, x);
      var i := RevivedFrom(s.disk, e.now, x);
    } else if Enabled(s, e) {
      SamePeer(s, e, x);
      StepFrame(s, e, s.table.clientMap[x.clientProxy]);
      SameDisk(s, e);
    }
  }

  /** Over whole runs, restarts included: a level-3 session keeps its client address, a level-2 session its client IP,
      for as long as it lives. */
  lemma {:induction false} RunBinds(s: State, es: seq<Event>, x: Session, level: int, dest: Addr)
    requires Orderly(s) && SessionBound(s, x, level, dest) && NeverEnds(s, es, x) && SavedAlone(s, es, x)
    ensures SessionBound(Run(s, es), x, level, dest)
  {
    if es != [] {
      var init := es[..|es| - 1];
      RunBinds(s, init, x, level, dest);
      RunOrderly(s, init);
      StepBinds(Run(s, init), es[|es| - 1], x, level, dest);
    }
  }

  /** The session's choice is settled as `b`, and every saved copy of the session agrees. */
  ghost predicate Choice(s: State, x: Session, b: bool) {
    && Live(s.table, x) && Decided(s, s.table.clientMap[x.clientProxy]) && PeerOf(s.table, x).obfuscate == b
    && CopiesAgree(s.disk, x, b)
  }

  predicate CopiesAgree(rs: seq<Record>, x: Session, b: bool) {
    forall i :: 0 <= i < |rs| && Matches(rs[i], x) && Usable(rs[i]) ==> rs[i].obfuscate == b
  }

  lemma SaveAgrees(s: State, order: seq<Index>, x: Session, b: bool)
    requires WellFormed(s) && Enumerates(order, s.table.serverMap) && Choice(s, x, b) && !Doubled(s.table, x)
    ensures Choice(Next(s, SaveTable(order)), x, b)
  {
    var rs := Saved(s.table, order);
    forall i | 0 <= i < |rs| && Matches(rs[i], x)
      ensures rs[i].obfuscate == b
    {
      SavedOwn(s.table, order, x, i);
    }
  }

  lemma StepChooses(s: State, e: Event, x: Session, b: bool)
    requires Orderly(s) && Choice(s, x, b) && !Ends(s, e, x) && (e.SaveTable? ==> !Doubled(s.table, x))
    ensures Choice(Next(s, e), x, b)
  {
    if e.SaveTable? && Enabled(s, e) {
      SaveAgrees(s, e.order, x, b);
    } else if e.Restart? {
      LivesOn(s, e, x);
      var i := RevivedFrom(s.disk, e.now, x);
    } else if Enabled(s, e) {
      SamePeer(s, e, x);
      StepDecided(s, e, s.table.clientMap[x.clientProxy]);
      SameDisk(s, e);
    }
  }

  lemma {:induction false} RunChooses(s: State, es: seq<Event>, x: Session, b: bool)
    requires Orderly(s) && Choice(s, x, b) && NeverEnds(s, es, x) && SavedAlone(s, es, x)
    ensures Choice(Run(s, es), x, b)
  {
    if es != [] {
      var init := es[..|es| - 1];
      RunChooses(s, init, x, b);
      RunOrderly(s, init);
      StepChooses(Run(s, init), es[|es| - 1], x, b);
    }
  }

  /** Once its initiation has been forwarded, everything that reaches a client - the response, cookie replies, and
      transport packets before and after the response - is marked for obfuscation exactly when the initiation arrived
      obfuscated: up to the first restart without further condition, and through restarts for as long as the session
      lives. */
  lemma ObfuscationStable(s: State, p: PeerId, before: seq<Event>, x: Session, after: seq<Event>)
    requires Orderly(s) && ChoiceOk(s) && AtStage(s, p, Forwarded) && NoRestart(before)
    ensures Orderly(Run(s, before)) && MarksAll(Run(s, before), p, s.initiations[p].deobfuscated)
    ensures var s' := Run(s, before);
            && Live(s'.table, x) && s'.table.clientMap[x.clientProxy] == p && NeverEnds(s', after, x)
            && SavedAlone(s', after, x) && CopiesAgree(s'.disk, x, s.initiations[p].deobfuscated)
            ==>
            var r := Run(s', after);
            Live(r.table, x) && MarksAll(r, r.table.clientMap[x.clientProxy], s.initiations[p].deobfuscated)
  {
    var b := s.initiations[p].deobfuscated;
    assert ChoiceOkAt(s, p);
    RunDecided(s, before, p);
    RunOrderly(s, before);
    var s' := Run(s, before);
    hide Run, NeverEnds, MarksAll, Orderly, SavedAlone;
    if Choice(s', x, b) && NeverEnds(s', after, x) && SavedAlone(s', after, x) {
      SessionMarks(s', x, after, b);
    }
  }

  lemma SessionMarks(s: State, x: Session, after: seq<Event>, b: bool)
    requires Orderly(s) && Choice(s, x, b) && NeverEnds(s, after, x) && SavedAlone(s, after, x)
    ensures var r := Run(s, after);
            Live(r.table, x) && MarksAll(r, r.table.clientMap[x.clientProxy], b)
  {
    RunChooses(s, after, x, b);
    RunOrderly(s, after);
    PeerMarks(Run(s, after), Run(s, after).table.clientMap[x.clientProxy]);
  }
}
