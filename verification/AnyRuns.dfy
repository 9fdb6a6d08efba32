/** What holds along every run whatsoever: whatever the allocator returns, however often servers answer, and whatever
    the saved file holds. A step that is not enabled changes nothing, so a run is any sequence of events. */
module AnyRuns {
  import opened Bytes
  import opened Tables
  import opened Records
  import opened Runs

  // ---------------------------------------------------------------- every step is well-formed, and has a frame

  /** Level 3 pins the whole address, level 2 the IP. */
  predicate Bound(level: int, dest: Addr, level': int, dest': Addr) {
    && level' == level
    && (level == LEVEL_IP_AND_PORT ==> dest' == dest)
    && (level == LEVEL_IP ==> dest'.ip == dest.ip)
  }

  predicate Pinned(p: Peer, q: Peer) {
    Bound(p.clientLevel, p.clientDest, q.clientLevel, q.clientDest)
  }

  /** What no step of the running process changes about a peer. */
  predicate SameIdentity(p: Peer, q: Peer) {
    && q.clientOrigin == p.clientOrigin && q.clientKey == p.clientKey && q.serverKey == p.serverKey
    && q.clientCookie == p.clientCookie && q.serverCookie == p.serverCookie
    && q.clientLevel == p.clientLevel && q.serverLevel == p.serverLevel
  }

  /** What peer `p` may have become after event `e`. */
  predicate Becomes(p: Peer, q: Peer, e: Event, id: PeerId) {
    && SameIdentity(p, q) && Pinned(p, q)
    && (q.obfuscate == p.obfuscate || e == MarkPeer(id))
    && (q.serverDest == p.serverDest || (e.UpdateServer? && q.serverDest == e.addr))
    && (q.clientDest == p.clientDest || e.ClientTransport?)
  }

  lemma ClientTransportFrame(s: State, e: Event, id: PeerId)
    requires WellFormed(s) && e.ClientTransport? && id < |s.table.heap|
    ensures |Next(s, e).table.heap| == |s.table.heap|
    ensures Becomes(s.table.heap[id], Next(s, e).table.heap[id], e, id)
  {
    FromClientFrame(s.table, e.receiver, e.src, e.now);
  }

  lemma MaintenanceFrame(s: State, e: Event, id: PeerId)
    requires WellFormed(s) && (e.ServerTransport? || e.ExpireCheck? || e.UpdateServer?) && id < |s.table.heap|
    ensures |Next(s, e).table.heap| == |s.table.heap|
    ensures Becomes(s.table.heap[id], Next(s, e).table.heap[id], e, id)
  {
    if e.ServerTransport? {
      FromServerFrame(s.table, e.receiver, e.src, e.now);
    }
  }

  lemma ReplyFrame(s: State, e: Event, id: PeerId)
    requires WellFormed(s) && (e.HandleResponse? || e.HandleCookieReply? || e.ForwardReply? || e.SaveTable?)
             && id < |s.table.heap|
    ensures |Next(s, e).table.heap| == |s.table.heap|
    ensures Becomes(s.table.heap[id], Next(s, e).table.heap[id], e, id)
  {
  }

  lemma HandshakeFrame(s: State, e: Event, id: PeerId)
    requires WellFormed(s) && (e.ExtractPeer? || e.InsertPeer? || e.MarkPeer? || e.ForwardInitiation?)
             && id < |s.table.heap|
    ensures |Next(s, e).table.heap| >= |s.table.heap|
    ensures Becomes(s.table.heap[id], Next(s, e).table.heap[id], e, id)
  {
  }

  /** A step of the running process keeps every peer, and of each of them all but what `Becomes` allows. */
  lemma StepFrame(s: State, e: Event, id: PeerId)
    requires WellFormed(s) && !e.Restart? && id < |s.table.heap|
    ensures id < |Next(s, e).table.heap| && Becomes(s.table.heap[id], Next(s, e).table.heap[id], e, id)
  {
    if e.ClientTransport? {
      ClientTransportFrame(s, e, id);
    } else if e.ServerTransport? || e.ExpireCheck? || e.UpdateServer? {
      MaintenanceFrame(s, e, id);
    } else if e.HandleResponse? || e.HandleCookieReply? || e.ForwardReply? || e.SaveTable? {
      ReplyFrame(s, e, id);
    } else {
      HandshakeFrame(s, e, id);
    }
  }

  lemma HandshakeWellFormed(s: State, e: Event)
    requires WellFormed(s)
             && (e.ExtractPeer? || e.InsertPeer? || e.MarkPeer? || e.ForwardInitiation? || e.HandleResponse?)
    ensures WellFormed(Next(s, e))
  {
  }

  lemma TransportWellFormed(s: State, e: Event)
    requires WellFormed(s) && (e.ClientTransport? || e.ServerTransport? || e.ExpireCheck? || e.UpdateServer?)
    ensures WellFormed(Next(s, e))
  {
  }

  lemma ReplyWellFormed(s: State, e: Event)
    requires WellFormed(s) && (e.HandleCookieReply? || e.ForwardReply? || e.SaveTable?)
    ensures WellFormed(Next(s, e))
  {
  }

  lemma RestartWellFormed(s: State, e: Event)
    requires WellFormed(s) && e.Restart?
    ensures WellFormed(Next(s, e))
  {
    LoadedFrom(s.disk, e.now);
  }

  lemma StepWellFormed(s: State, e: Event)
    requires WellFormed(s)
    ensures WellFormed(Next(s, e))
  {
    hide Next;
    if e.Restart? {
      RestartWellFormed(s, e);
    } else if e.ExtractPeer? || e.InsertPeer? || e.MarkPeer? || e.ForwardInitiation? || e.HandleResponse? {
      HandshakeWellFormed(s, e);
    } else if e.HandleCookieReply? || e.ForwardReply? || e.SaveTable? {
      ReplyWellFormed(s, e);
    } else {
      TransportWellFormed(s, e);
    }
  }

  lemma {:induction false} RunWellFormed(s: State, es: seq<Event>)
    requires WellFormed(s)
    ensures WellFormed(Run(s, es))
  {
    if es != [] {
      RunWellFormed(s, es[..|es| - 1]);
      StepWellFormed(Run(s, es[..|es| - 1]), es[|es| - 1]);
    }
  }

  // ---------------------------------------------------------------- registration

  /** Only an extraction makes a peer, and registers nothing. */
  lemma NewPeers(s: State, e: Event, id: PeerId)
    requires WellFormed(s) && !e.Restart? && |s.table.heap| <= id < |Next(s, e).table.heap|
    ensures e.ExtractPeer? && id == |s.table.heap|
    ensures Next(s, e).table.heap[id] == NewPeer(e.rule, e.src, e.sender, e.now)
    ensures Next(s, e).initiations == s.initiations[id := Initiation(e.sender, e.deobfuscated, Extracted)]
  {
    if !e.ExtractPeer? && id > 0 {
      SameHeap(s, e);
    }
  }

  lemma SameHeap(s: State, e: Event)
    requires WellFormed(s) && !e.Restart? && !e.ExtractPeer?
    ensures |Next(s, e).table.heap| == |s.table.heap|
  {
  }

  /** An initiation's handler advances by its own steps only. */
  lemma HandlerSteps(s: State, e: Event, id: PeerId)
    requires WellFormed(s) && !e.Restart? && id < |s.table.heap|
    ensures id in s.initiations <==> id in Next(s, e).initiations
    ensures id in s.initiations && Next(s, e).initiations[id] != s.initiations[id] ==>
            (e == MarkPeer(id) || e == ForwardInitiation(id) || (e.InsertPeer? && e.peer == id)) && Enabled(s, e)
  {
  }

  /** A key is registered by its peer's handler only, and stays with its peer. */
  lemma KeysGrow(s: State, e: Event, k: Index)
    requires WellFormed(s) && !e.Restart? && k in Next(s, e).table.clientMap
    ensures var id := Next(s, e).table.clientMap[k];
            (k in s.table.clientMap && s.table.clientMap[k] == id)
              || (e == InsertPeer(id, k) && AtStage(s, id, Extracted))
  {
    if QuietEvent(e) {
      Quiet(s, e);
    }
  }

  /** The peers whose handler is between extraction and registration. */
  function Unregistered(s: State): set<PeerId> {
    set p | p in s.initiations && s.initiations[p].stage == Extracted
  }

  /** Every client key is its peer's own, and a peer is registered by its handler only. */
  ghost predicate RegisteredOk(s: State)
    requires WellFormed(s)
  {
    && (forall k :: k in s.table.clientMap ==> s.table.heap[s.table.clientMap[k]].clientProxy == k)
    && Unregistered(s) !! s.table.clientMap.Values
  }

  /** What the theorems about sessions start from; it holds of the empty table and along every run. */
  ghost predicate Orderly(s: State) {
    WellFormed(s) && RegisteredOk(s)
  }

  /** Only registration changes the name under which a peer is known. */
  lemma NameKept(s: State, e: Event, id: PeerId)
    requires WellFormed(s) && !e.Restart? && id < |s.table.heap|
    ensures id < |Next(s, e).table.heap|
    ensures Next(s, e).table.heap[id].clientProxy == s.table.heap[id].clientProxy
            || (e.InsertPeer? && e.peer == id && Enabled(s, e))
  {
    if QuietEvent(e) {
      Quiet(s, e);
      assert QuietPeer(s.table.heap[id], Next(s, e).table.heap[id]);
    }
  }

  lemma InsertRegisters(s: State, e: Event)
    requires WellFormed(s) && RegisteredOk(s) && e.InsertPeer? && Enabled(s, e) && WellFormed(Next(s, e))
    ensures RegisteredOk(Next(s, e))
  {
    assert e.peer in Unregistered(s);
    var s' := Next(s, e);
    forall k | k in s'.table.clientMap
      ensures s'.table.heap[s'.table.clientMap[k]].clientProxy == k && s'.table.clientMap[k] !in Unregistered(s')
    {
      if k != e.proxy {
        assert s.table.clientMap[k] in s.table.clientMap.Values;
      }
    }
  }

  lemma StepRegistered(s: State, e: Event)
    requires WellFormed(s) && RegisteredOk(s) && WellFormed(Next(s, e))
    ensures RegisteredOk(Next(s, e))
  {
    var s' := Next(s, e);
    if e.Restart? {
      if e.load {
        LoadedRegistered(s.disk, e.now);
      }
    } else if e.InsertPeer? && Enabled(s, e) {
      InsertRegisters(s, e);
    } else {
      forall k | k in s'.table.clientMap
        ensures s'.table.heap[s'.table.clientMap[k]].clientProxy == k && s'.table.clientMap[k] !in Unregistered(s')
      {
        KeysGrow(s, e, k);
        var id := s'.table.clientMap[k];
        assert k in s.table.clientMap && s.table.clientMap[k] == id;
        assert id !in Unregistered(s);
        NameKept(s, e, id);
        HandlerSteps(s, e, id);
      }
    }
  }

  lemma StepOrderly(s: State, e: Event)
    requires Orderly(s)
    ensures Orderly(Next(s, e))
  {
    StepWellFormed(s, e);
    StepRegistered(s, e);
  }

  lemma LoadedRegistered(rs: seq<Record>, now: Time)
    ensures var t := Load(EMPTY, rs, now);
            InHeap(t) && forall k :: k in t.clientMap ==> t.heap[t.clientMap[k]].clientProxy == k
  {
    forall k: Index
      ensures InHeap(Load(EMPTY, rs, now))
      ensures var t := Load(EMPTY, rs, now); k in t.clientMap ==> t.heap[t.clientMap[k]].clientProxy == k
    {
      LoadedKeys(rs, now, k);
    }
  }

  /** So over every run. */
  lemma {:induction false} RunOrderly(s: State, es: seq<Event>)
    requires Orderly(s)
    ensures Orderly(Run(s, es))
  {
    if es != [] {
      RunOrderly(s, es[..|es| - 1]);
      StepOrderly(Run(s, es[..|es| - 1]), es[|es| - 1]);
    }
  }

  // ---------------------------------------------------------------- source pinning

  /** Over every run without restart a level-3 peer keeps its client address, and a level-2 peer its client IP. */
  lemma {:induction false} RunPins(s: State, es: seq<Event>, id: PeerId)
    requires WellFormed(s) && NoRestart(es) && id < |s.table.heap|
    ensures id < |Run(s, es).table.heap|
    ensures Pinned(s.table.heap[id], Run(s, es).table.heap[id])
            && SameIdentity(s.table.heap[id], Run(s, es).table.heap[id])
  {
    if es != [] {
      var init := es[..|es| - 1];
      RunPins(s, init, id);
      RunWellFormed(s, init);
      StepFrame(Run(s, init), es[|es| - 1], id);
    }
  }

  lemma RestartLevels(s: State, e: Event)
    requires WellFormed(s) && LevelsOk(s) && e.Restart?
    ensures LevelsOk(Next(s, e))
  {
    LoadedFrom(s.disk, e.now);
  }

  lemma SaveLevels(s: State, e: Event)
    requires WellFormed(s) && LevelsOk(s) && e.SaveTable?
    ensures LevelsOk(Next(s, e))
  {
  }

  lemma StepLevels(s: State, e: Event)
    requires WellFormed(s) && LevelsOk(s)
    ensures LevelsOk(Next(s, e))
  {
    if e.Restart? {
      RestartLevels(s, e);
    } else if e.SaveTable? {
      SaveLevels(s, e);
    } else {
      SameDisk(s, e);
      forall id | 0 <= id < |Next(s, e).table.heap|
        ensures Next(s, e).table.heap[id].serverLevel == LEVEL_DEFAULT
      {
        if id < |s.table.heap| {
          StepFrame(s, e, id);
        } else {
          NewPeers(s, e, id);
        }
      }
    }
  }

  lemma SameDisk(s: State, e: Event)
    requires !e.SaveTable?
    ensures Next(s, e).disk == s.disk
  {
  }

  /** No peer and no record ever carries a server level of its own, as none is ever copied from a rule. */
  lemma {:induction false} RunLevels(s: State, es: seq<Event>)
    requires WellFormed(s) && LevelsOk(s)
    ensures WellFormed(Run(s, es)) && LevelsOk(Run(s, es))
  {
    RunWellFormed(s, es);
    if es != [] {
      RunWellFormed(s, es[..|es| - 1]);
      RunLevels(s, es[..|es| - 1]);
      StepLevels(Run(s, es[..|es| - 1]), es[|es| - 1]);
    }
  }

  lemma ServerPinnedAt(s: State, k: Index, src: Addr, now: Time)
    requires WellFormed(s) && LevelsOk(s) && k in s.table.clientMap
    ensures var p := s.table.heap[s.table.clientMap[k]];
            Emits(s, ServerTransport(k, src, now)).SendToClient? <==> k != 0 && (Replied(p) ==> src == p.serverDest)
  {
  }

  /** In every run from the empty table (or any table free of server levels), a server transport packet for a replied
      peer is forwarded exactly when it comes from that peer's current server address; one for an unreplied peer is
      forwarded from anywhere. */
  lemma ServerPinned(s: State, es: seq<Event>, k: Index, src: Addr, now: Time)
    requires WellFormed(s) && LevelsOk(s) && k in Run(s, es).table.clientMap
    ensures WellFormed(Run(s, es))
    ensures var r := Run(s, es);
            var p := r.table.heap[r.table.clientMap[k]];
            Emits(r, ServerTransport(k, src, now)).SendToClient? <==> k != 0 && (Replied(p) ==> src == p.serverDest)
  {
    RunLevels(s, es);
    ServerPinnedAt(Run(s, es), k, src, now);
  }

  // ---------------------------------------------------------------- cookie generators

  /** The generators of a peer made from a rule: each is initialised with the key of the other end. */
  predicate NewGenerators(p: Peer) {
    p.clientCookie == p.serverKey && p.serverCookie == p.clientKey
  }

  /** The generators of a peer made from a record. */
  predicate LoadedGenerators(p: Peer) {
    p.clientCookie == p.clientKey && p.serverCookie == p.serverKey
  }

  /** A peer made by this process has an initiation on the books; all others were loaded. */
  predicate GeneratorsOkAt(s: State, id: PeerId)
    requires id < |s.table.heap|
  {
    if id in s.initiations then NewGenerators(s.table.heap[id]) else LoadedGenerators(s.table.heap[id])
  }

  predicate GeneratorsOk(s: State) {
    forall id :: 0 <= id < |s.table.heap| ==> GeneratorsOkAt(s, id)
  }

  /** The initiations on the books stay there, and only an extraction adds one. */
  lemma SameInitiations(s: State, e: Event)
    requires WellFormed(s) && !e.Restart? && !e.ExtractPeer?
    ensures Next(s, e).initiations.Keys == s.initiations.Keys
  {
  }

  lemma StepGenerators(s: State, e: Event, id: PeerId)
    requires WellFormed(s) && GeneratorsOk(s) && !e.Restart? && id < |Next(s, e).table.heap|
    ensures GeneratorsOkAt(Next(s, e), id)
  {
    if !e.ExtractPeer? {
      SameInitiations(s, e);
    }
    if id < |s.table.heap| {
      StepFrame(s, e, id);
      assert GeneratorsOkAt(s, id);
    } else {
      NewPeers(s, e, id);
    }
  }

  /** In every run from the empty table, each peer has the generators of a new peer if this process made it, and
      those of a loaded one if it came from the file. */
  lemma {:induction false} RunGenerators(s: State, es: seq<Event>)
    requires WellFormed(s) && GeneratorsOk(s)
    ensures GeneratorsOk(Run(s, es))
  {
    if es != [] {
      var r, e := Run(s, es[..|es| - 1]), es[|es| - 1];
      RunGenerators(s, es[..|es| - 1]);
      RunWellFormed(s, es[..|es| - 1]);
      if e.Restart? {
        LoadedFrom(r.disk, e.now);
      } else {
        forall id | 0 <= id < |Next(r, e).table.heap|
          ensures GeneratorsOkAt(Next(r, e), id)
        {
          StepGenerators(r, e, id);
        }
      }
    }
  }

  /** Saving and loading a peer restores its generators exactly when it was loaded before, or its two ends have the same
      key. */
  lemma GeneratorsRestored(s: State, es: seq<Event>, id: PeerId, now: Time)
    requires WellFormed(s) && GeneratorsOk(s) && id < |Run(s, es).table.heap|
    ensures var p := Run(s, es).table.heap[id];
            var q := FromRecord(ToRecord(p), now).value;
            q.clientCookie == p.clientCookie && q.serverCookie == p.serverCookie <==>
            id !in Run(s, es).initiations || p.clientKey == p.serverKey
  {
    RunGenerators(s, es);
    assert GeneratorsOkAt(Run(s, es), id);
  }

  // ---------------------------------------------------------------- the obfuscation choice

  /** Whether a packet for the client is marked for obfuscation. */
  function Marking(out: Output): Option<bool> {
    match out
    case SendResponse(_, _, _, b) => Some(b)
    case SendCookieReply(_, _, b) => Some(b)
    case SendToClient(_, _, b) => Some(b)
    case _ => None
  }

  /** All packets that peer `id` may send to its client now - pending responses and cookie replies, and server
      transport under any key it is found by - are marked as `b` says. */
  ghost predicate MarksAll(s: State, id: PeerId, b: bool) {
    && (forall h :: h in s.replies && h.peer == id ==> Marking(Emits(s, ForwardReply(h))) == Some(b))
    && (forall k, src, now :: k in s.table.clientMap && s.table.clientMap[k] == id ==>
          var out := Emits(s, ServerTransport(k, src, now)); out == Nothing || Marking(out) == Some(b))
  }

  lemma PeerMarks(s: State, id: PeerId)
    requires WellFormed(s) && id < |s.table.heap|
    ensures MarksAll(s, id, s.table.heap[id].obfuscate)
  {
  }

  predicate ChoiceOk(s: State)
    requires WellFormed(s)
  {
    forall p :: p in s.initiations ==> ChoiceOkAt(s, p)
  }

  predicate ChoiceOkAt(s: State, p: PeerId)
    requires p in s.initiations && p < |s.table.heap|
  {
    var i := s.initiations[p];
    s.table.heap[p].obfuscate == (i.deobfuscated && (i.stage == Marked || i.stage == Forwarded))
  }

  /** The choice of a peer whose handler is done, or that was loaded, is fixed. */
  predicate Decided(s: State, id: PeerId) {
    id < |s.table.heap| && (id in s.initiations ==> s.initiations[id].stage == Forwarded)
  }

  lemma StepDecided(s: State, e: Event, id: PeerId)
    requires WellFormed(s) && !e.Restart? && Decided(s, id)
    ensures Decided(Next(s, e), id) && Next(s, e).table.heap[id].obfuscate == s.table.heap[id].obfuscate
    ensures id in s.initiations ==> id in Next(s, e).initiations && Next(s, e).initiations[id] == s.initiations[id]
  {
    StepFrame(s, e, id);
    HandlerSteps(s, e, id);
  }

  /** Without restart a forwarded initiation's choice holds for good: for its response, its cookie replies and its
      transport packets, before and after the response, over every run. */
  lemma {:induction false} RunDecided(s: State, es: seq<Event>, id: PeerId)
    requires WellFormed(s) && NoRestart(es) && Decided(s, id)
    ensures Decided(Run(s, es), id) && MarksAll(Run(s, es), id, s.table.heap[id].obfuscate)
    ensures Run(s, es).table.heap[id].obfuscate == s.table.heap[id].obfuscate
    ensures id in s.initiations ==> id in Run(s, es).initiations && Run(s, es).initiations[id] == s.initiations[id]
  {
    RunWellFormed(s, es);
    if es != [] {
      var init := es[..|es| - 1];
      RunDecided(s, init, id);
      RunWellFormed(s, init);
      StepDecided(Run(s, init), es[|es| - 1], id);
    }
    PeerMarks(Run(s, es), id);
  }

  lemma StepChoice(s: State, e: Event)
    requires WellFormed(s) && ChoiceOk(s) && WellFormed(Next(s, e))
    ensures ChoiceOk(Next(s, e))
  {
    if !e.Restart? {
      forall p | p in Next(s, e).initiations
        ensures ChoiceOkAt(Next(s, e), p)
      {
        if p >= |s.table.heap| {
          NewPeers(s, e, p);
        } else if e == MarkPeer(p) {
          HandlerSteps(s, e, p);
          assert ChoiceOkAt(s, p);
        } else {
          StepFrame(s, e, p);
          HandlerSteps(s, e, p);
          assert ChoiceOkAt(s, p);
        }
      }
    }
  }

  lemma {:induction false} RunChoice(s: State, es: seq<Event>)
    requires WellFormed(s) && ChoiceOk(s)
    ensures WellFormed(Run(s, es)) && ChoiceOk(Run(s, es))
  {
    RunWellFormed(s, es);
    if es != [] {
      RunChoice(s, es[..|es| - 1]);
      StepChoice(Run(s, es[..|es| - 1]), es[|es| - 1]);
    }
  }

  /** In every run, all packets for the client of a forwarded initiation are marked exactly if it arrived obfuscated. */
  lemma ForwardedMarks(s: State, es: seq<Event>, p: PeerId)
    requires WellFormed(s) && ChoiceOk(s) && AtStage(Run(s, es), p, Forwarded)
    ensures MarksAll(Run(s, es), p, Run(s, es).initiations[p].deobfuscated)
  {
    RunChoice(s, es);
    assert ChoiceOkAt(Run(s, es), p);
    PeerMarks(Run(s, es), p);
  }

  // ---------------------------------------------------------------- address updates

  /** After an update the process resolves only the new address, and is not restarted. */
  predicate Settled(es: seq<Event>, addr: Addr) {
    forall i :: 0 <= i < |es| ==> SettledEvent(es[i], addr)
  }

  predicate SettledEvent(e: Event, addr: Addr) {
    && !e.Restart?
    && (e.ExtractPeer? ==> e.rule.forwardTo == addr)
    && (e.UpdateServer? ==> e.addr == addr)
  }

  predicate CarriedBy(s: State, id: PeerId, addr: Addr, late: set<PeerId>) {
    id < |s.table.heap| && (id in late || s.table.heap[id].serverDest == addr)
  }

  /** Everyone registered, or about to be, carries `addr`, except for the peers in `late`. */
  ghost predicate Carries(s: State, addr: Addr, late: set<PeerId>) {
    && (forall k :: k in s.table.clientMap ==> CarriedBy(s, s.table.clientMap[k], addr, late))
    && (forall p: PeerId :: AtStage(s, p, Extracted) ==> CarriedBy(s, p, addr, late))
  }

  lemma StepCarriedBy(s: State, e: Event, id: PeerId, addr: Addr, late: set<PeerId>)
    requires WellFormed(s) && SettledEvent(e, addr) && CarriedBy(s, id, addr, late)
    ensures CarriedBy(Next(s, e), id, addr, late)
  {
    StepFrame(s, e, id);
  }

  lemma StepCarries(s: State, e: Event, addr: Addr, late: set<PeerId>)
    requires WellFormed(s) && SettledEvent(e, addr) && Carries(s, addr, late)
    ensures Carries(Next(s, e), addr, late)
  {
    var s' := Next(s, e);
    forall k | k in s'.table.clientMap
      ensures CarriedBy(s', s'.table.clientMap[k], addr, late)
    {
      KeysGrow(s, e, k);
      StepCarriedBy(s, e, s'.table.clientMap[k], addr, late);
    }
    forall p: PeerId | AtStage(s', p, Extracted)
      ensures CarriedBy(s', p, addr, late)
    {
      StepWellFormed(s, e);
      if p < |s.table.heap| {
        HandlerSteps(s, e, p);
        StepCarriedBy(s, e, p, addr, late);
      } else {
        NewPeers(s, e, p);
      }
    }
  }

  lemma UpdateCarries(s: State, addr: Addr)
    requires WellFormed(s)
    ensures Carries(Next(s, UpdateServer(addr)), addr, Unregistered(s))
  {
  }

  lemma {:induction false} RunCarries(s: State, es: seq<Event>, addr: Addr, late: set<PeerId>)
    requires WellFormed(s) && Settled(es, addr) && Carries(s, addr, late)
    ensures WellFormed(Run(s, es)) && Carries(Run(s, es), addr, late)
  {
    RunWellFormed(s, es);
    if es != [] {
      RunCarries(s, es[..|es| - 1], addr, late);
      StepCarries(Run(s, es[..|es| - 1]), es[|es| - 1], addr, late);
    }
  }

  /** Whoever is registered with another address after an update had been extracted before it and was registered after.
      Where no server key has leaked, that goes for the server map, too. */
  lemma UpdateReachesAll(s: State, addr: Addr, es: seq<Event>)
    requires WellFormed(s) && Settled(es, addr)
    ensures var r := Run(Next(s, UpdateServer(addr)), es);
            && WellFormed(r) && Carries(r, addr, Unregistered(s))
            && (Inv(r.table) ==> forall k :: k in r.table.serverMap ==>
              CarriedBy(r, r.table.serverMap[k], addr, Unregistered(s)))
  {
    UpdateCarries(s, addr);
    StepWellFormed(s, UpdateServer(addr));
    RunCarries(Next(s, UpdateServer(addr)), es, addr, Unregistered(s));
    var t := Run(Next(s, UpdateServer(addr)), es).table;
    assert Inv(t) ==> forall k :: k in t.serverMap ==>
           t.clientMap[t.heap[t.serverMap[k]].clientProxy] == t.serverMap[k];
  }

  predicate NoUpdate(es: seq<Event>) {
    forall i :: 0 <= i < |es| ==> !es[i].UpdateServer?
  }

  /** Nothing but an update changes a peer's server address. */
  lemma {:induction false} RunKeepsAddress(s: State, es: seq<Event>, id: PeerId)
    requires WellFormed(s) && NoRestart(es) && NoUpdate(es) && id < |s.table.heap|
    ensures id < |Run(s, es).table.heap| && Run(s, es).table.heap[id].serverDest == s.table.heap[id].serverDest
  {
    if es != [] {
      RunKeepsAddress(s, es[..|es| - 1], id);
      RunWellFormed(s, es[..|es| - 1]);
      StepFrame(Run(s, es[..|es| - 1]), es[|es| - 1], id);
    }
  }

  predicate NoClientTransport(es: seq<Event>) {
    forall i :: 0 <= i < |es| ==> !es[i].ClientTransport?
  }

  /** Nothing but a client packet changes a peer's client address. */
  lemma {:induction false} RunKeepsClientAddress(s: State, es: seq<Event>, id: PeerId)
    requires WellFormed(s) && NoRestart(es) && NoClientTransport(es) && id < |s.table.heap|
    ensures id < |Run(s, es).table.heap| && Run(s, es).table.heap[id].clientDest == s.table.heap[id].clientDest
  {
    if es != [] {
      RunKeepsClientAddress(s, es[..|es| - 1], id);
      RunWellFormed(s, es[..|es| - 1]);
      StepFrame(Run(s, es[..|es| - 1]), es[|es| - 1], id);
    }
  }

  /** The update passes by a peer that is not registered. */
  lemma UpdatePassesBy(s: State, addr: Addr, id: PeerId)
    requires WellFormed(s) && id < |s.table.heap| && id !in s.table.clientMap.Values
    ensures Next(s, UpdateServer(addr)).table.heap[id] == s.table.heap[id]
    ensures |Next(s, UpdateServer(addr)).table.heap| == |s.table.heap|
  {
  }

  /** And the exception is real: until the next update a registered peer carries another address if and only if it was
      between extraction and registration at the time, with another address. */
  lemma UpdateMissesExactly(s: State, addr: Addr, es: seq<Event>, k: Index)
    requires Orderly(s) && Settled(es, addr) && NoUpdate(es)
    requires k in Run(Next(s, UpdateServer(addr)), es).table.clientMap
    ensures var r := Run(Next(s, UpdateServer(addr)), es);
            var id := r.table.clientMap[k];
            && id < |r.table.heap|
            && (r.table.heap[id].serverDest != addr <==> id in Unregistered(s) && s.table.heap[id].serverDest != addr)
  {
    UpdateReachesAll(s, addr, es);
    var s1 := Next(s, UpdateServer(addr));
    var id := Run(s1, es).table.clientMap[k];
    if id in Unregistered(s) {
      UpdatePassesBy(s, addr, id);
      StepWellFormed(s, UpdateServer(addr));
      RunKeepsAddress(s1, es, id);
    }
    assert CarriedBy(Run(s1, es), id, addr, Unregistered(s));
  }

  /** A run that shows it: extraction, update, registration. */
  lemma UpdateMissesOne(src: Addr, rule: Rule, addr: Addr, a: Index, now: Time)
    requires rule.forwardTo != addr
    ensures var s := Next(INITIAL, ExtractPeer(src, a, rule, false, now));
            var r := Next(Next(s, UpdateServer(addr)), InsertPeer(0, a));
            && r.table.clientMap == map[a := 0] && |r.table.heap| == 1 && r.table.heap[0].serverDest == rule.forwardTo
  {
    var s := Next(INITIAL, ExtractPeer(src, a, rule, false, now));
    assert s.table.heap == [NewPeer(rule, src, a, now)];
    UpdatePassesBy(s, addr, 0);
    var s' := Next(s, UpdateServer(addr));
    assert AtStage(s', 0, Extracted) && s'.table.clientMap == map[];
  }

  // ---------------------------------------------------------------- from the start

  lemma InitialOk()
    ensures Orderly(INITIAL) && LevelsOk(INITIAL) && GeneratorsOk(INITIAL) && ChoiceOk(INITIAL)
  {
  }

  /** The starting conditions above hold of the empty table, so their consequences hold of every run of the program. */
  lemma FromTheStart(es: seq<Event>)
    ensures var r := Run(INITIAL, es);
            Orderly(r) && LevelsOk(r) && GeneratorsOk(r) && ChoiceOk(r)
  {
    InitialOk();
    RunOrderly(INITIAL, es);
    RunLevels(INITIAL, es);
    RunGenerators(INITIAL, es);
    RunChoice(INITIAL, es);
  }
}
