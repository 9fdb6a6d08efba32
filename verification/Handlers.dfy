/** What the two packet handlers do, from received bytes to sent bytes, when nothing interleaves (wgit.go:244-381). */
module Handlers {
  import opened Bytes
  import opened Packets
  import opened Tables
  import opened Runs
  import opened WeakRuns
  import Alloc

  /** The outcome for a packet: recycled, stuck in the allocator with the lock held, or handed to the write loop. */
  datatype Action = Drop | Spin | Send(message: seq<byte>, dest: Addr, obfuscate: bool)

  /** Peer extraction from the bytes of an initiation; `None` where it reports an error. */
  type Extract = seq<byte> -> Option<Rule>

  /** Whether the cookie generator accepts a cookie reply. */
  type Consume = seq<byte> -> bool

  function ClientPacket(t: Table, m: seq<byte>, src: Addr, deobfuscated: bool, now: Time,
                        extract: Extract, mac: MacFunction, debug: bool, draws: seq<Index>): (r: (Table, Action))
    requires InHeap(t)
  {
    if TypeOf(m) == MESSAGE_INITIATION then ClientInitiation(t, m, src, deobfuscated, now, extract, mac, debug, draws)
    else if TypeOf(m) == MESSAGE_TRANSPORT then ClientData(t, m, src, now)
    else (t, Drop)
  }

  function ClientInitiation(t: Table, m: seq<byte>, src: Addr, deobfuscated: bool, now: Time,
                            extract: Extract, mac: MacFunction, debug: bool, draws: seq<Index>): (Table, Action)
  {
    if |m| < INITIATION_SIZE then (t, Drop) else
    match extract(m[..INITIATION_SIZE])
    case None => (t, Drop)
    case Some(rule) =>
      var sender := GetLE(m[4..8]);
      var t1 := Create(t, NewPeer(rule, src, sender, now));
      match Alloc.Written(t.clientMap, sender, debug, draws)
      case None => (t1, Spin)
      case Some(proxy) =>
        var t2 := Insert(t1, |t.heap|, proxy);
        (if deobfuscated then MarkObfuscated(t2, |t.heap|) else t2,
         Send(TranslateInitiation(m, sender, proxy, mac, rule.serverKey), rule.forwardTo, false))
  }

  function ClientData(t: Table, m: seq<byte>, src: Addr, now: Time): (Table, Action)
    requires InHeap(t) && TypeOf(m) == MESSAGE_TRANSPORT
  {
    match Receiver(m)
    case None => (t, Drop)
    case Some(receiver) =>
      var (t', who) := FromClient(t, receiver, src, now);
      (t', if who.None? then Drop
           else Send(Splice(m, 4, PutLE(t.heap[who.value].serverOrigin)), t.heap[who.value].serverDest, false))
  }

  function ServerPacket(t: Table, m: seq<byte>, src: Addr, now: Time,
                        consume: Consume, mac: MacFunction, debug: bool, draws: seq<Index>): (r: (Table, Action))
    requires InHeap(t)
  {
    if TypeOf(m) == MESSAGE_RESPONSE then ServerResponse(t, m, now, mac, debug, draws)
    else if TypeOf(m) == MESSAGE_COOKIE_REPLY then (t, ServerCookieReply(t, m, consume))
    else if TypeOf(m) == MESSAGE_TRANSPORT then ServerData(t, m, src, now)
    else (t, Drop)
  }

  function ServerResponse(t: Table, m: seq<byte>, now: Time, mac: MacFunction, debug: bool,
                          draws: seq<Index>): (Table, Action)
    requires InHeap(t)
  {
    if |m| < RESPONSE_SIZE then (t, Drop) else
    var sender, receiver := GetLE(m[4..8]), GetLE(m[8..12]);
    if receiver == 0 || receiver !in t.clientMap then (t, Drop) else
    var id := t.clientMap[receiver];
    var p := t.heap[id];
    match Alloc.Written(t.serverMap, sender, debug, draws)
    case None => (t.(heap := t.heap[id := p.(lastActive := now, serverOrigin := sender)]), Spin)
    case Some(proxy) =>
      (Respond(t, receiver, sender, proxy, now),
       Send(TranslateResponse(m, sender, proxy, p.clientOrigin, p.clientProxy, mac, p.serverCookie), p.clientDest,
            p.obfuscate))
  }

  function ServerCookieReply(t: Table, m: seq<byte>, consume: Consume): Action
    requires InHeap(t)
  {
    if |m| < COOKIE_REPLY_SIZE then Drop else
    var receiver := GetLE(m[4..8]);
    if receiver == 0 || receiver !in t.clientMap || !consume(m[..COOKIE_REPLY_SIZE]) then Drop else
    var p := t.heap[t.clientMap[receiver]];
    Send(Splice(m, 4, PutLE(p.clientOrigin)), p.clientDest, p.obfuscate)
  }

  function ServerData(t: Table, m: seq<byte>, src: Addr, now: Time): (Table, Action)
    requires InHeap(t) && TypeOf(m) == MESSAGE_TRANSPORT
  {
    match Receiver(m)
    case None => (t, Drop)
    case Some(receiver) =>
      var (t', who) := FromServer(t, receiver, src, now);
      (t', if who.None? then Drop
           else var p := t.heap[who.value];
                Send(Splice(m, 4, PutLE(p.clientOrigin)), p.clientDest, p.obfuscate))
  }

  // ---------------------------------------------------------------- bytes and events agree

  /** A client's transport packet: the table makes the transport step, and the bytes sent are those received except
      for the receiver field, which holds the index the step emits. */
  lemma ClientDataAgrees(s: State, m: seq<byte>, src: Addr, now: Time)
    requires WellFormed(s) && TypeOf(m) == MESSAGE_TRANSPORT && |m| >= 8
    ensures var e := ClientTransport(Receiver(m).value, src, now);
            var (t, action) := ClientData(s.table, m, src, now);
            && t == Next(s, e).table
            && match Emits(s, e)
               case SendToServer(receiver, dest) =>
                 action == Send(Splice(m, 4, PutLE(receiver)), dest, false)
                 && TypeOf(action.message) == MESSAGE_TRANSPORT && Receiver(action.message) == Some(receiver)
               case _ => action == Drop
  {
    if ClientData(s.table, m, src, now).1.Send? {
      var id := FromClient(s.table, Receiver(m).value, src, now).1.value;
      PatchReads(m, 4, s.table.heap[id].serverOrigin);
    }
  }

  lemma ServerDataAgrees(s: State, m: seq<byte>, src: Addr, now: Time)
    requires WellFormed(s) && TypeOf(m) == MESSAGE_TRANSPORT && |m| >= 8
    ensures var e := ServerTransport(Receiver(m).value, src, now);
            var (t, action) := ServerData(s.table, m, src, now);
            && t == Next(s, e).table
            && match Emits(s, e)
               case SendToClient(receiver, dest, obfuscate) =>
                 action == Send(Splice(m, 4, PutLE(receiver)), dest, obfuscate)
                 && TypeOf(action.message) == MESSAGE_TRANSPORT && Receiver(action.message) == Some(receiver)
               case _ => action == Drop
  {
    if ServerData(s.table, m, src, now).1.Send? {
      var id := FromServer(s.table, Receiver(m).value, src, now).1.value;
      PatchReads(m, 4, s.table.heap[id].clientOrigin);
    }
  }

  /** An initiation handled without interleaving takes its four steps; what it sends shows the server the index the
      last step emits, and differs from what came in only there and in the MACs. */
  lemma InitiationAgrees(s: State, m: seq<byte>, src: Addr, deobfuscated: bool, now: Time,
                         extract: Extract, mac: MacFunction, debug: bool, draws: seq<Index>)
    requires WeakSystemInv(s) && TypeOf(m) == MESSAGE_INITIATION && |m| >= INITIATION_SIZE
    requires extract(m[..INITIATION_SIZE]).Some?
    requires var x := Alloc.Written(s.table.clientMap, GetLE(m[4..8]), debug, draws);
             x.Some? && Alloc.Free(s.table.clientMap, x.value)
    ensures var rule := extract(m[..INITIATION_SIZE]).value;
            var proxy := Alloc.Written(s.table.clientMap, GetLE(m[4..8]), debug, draws).value;
            var id := |s.table.heap|;
            var s1 := Next(s, ExtractPeer(src, GetLE(m[4..8]), rule, deobfuscated, now));
            var s3 := Next(Next(s1, InsertPeer(id, proxy)), MarkPeer(id));
            var (t, action) := ClientInitiation(s.table, m, src, deobfuscated, now, extract, mac, debug, draws);
            && t == s3.table && action.Send? && |action.message| == |m|
            && Emits(s3, ForwardInitiation(id)) == SendInitiation(proxy, action.dest)
            && Sender(action.message) == Some(proxy)
            && action.message[..4] == m[..4] && action.message[8..|m| - 32] == m[8..|m| - 32]
  {
    var rule := extract(m[..INITIATION_SIZE]).value;
    var sender := GetLE(m[4..8]);
    var proxy := Alloc.Written(s.table.clientMap, sender, debug, draws).value;
    var id := |s.table.heap|;
    ConditionalInitiation(m, sender, proxy, mac, rule.serverKey);
    hide TranslateInitiation, Insert, MarkObfuscated, NewPeer, Alloc.Written, Alloc.Free, Next;
    InitiationSteps(s, ExtractPeer(src, sender, rule, deobfuscated, now), proxy);
    var r := TranslateInitiation(m, sender, proxy, mac, rule.serverKey);
    SameAround(m, r, proxy);
  }

  /** A message that is `m` with a new sender, up to the MACs, is `m` around the sender. */
  lemma SameAround(m: seq<byte>, r: seq<byte>, proxy: Index)
    requires |r| == |m| >= INITIATION_SIZE && r[..|m| - 32] == Splice(m, 4, PutLE(proxy))[..|m| - 32]
    ensures r[..4] == m[..4] && r[8..|m| - 32] == m[8..|m| - 32]
  {
    var w := Splice(m, 4, PutLE(proxy));
    assert r[..4] == r[..|m| - 32][..4] == w[..|m| - 32][..4] == m[..4];
    assert r[8..|m| - 32] == r[..|m| - 32][8..] == w[..|m| - 32][8..] == m[8..|m| - 32];
  }

  lemma ExtractStep(s: State, e: Event)
    requires WeakSystemInv(s) && e.ExtractPeer?
    ensures var s' := Next(s, e);
            && WeakSystemInv(s') && s'.table == Create(s.table, NewPeer(e.rule, e.src, e.sender, e.now))
            && s'.initiations == s.initiations[|s.table.heap| := Initiation(e.sender, e.deobfuscated, Extracted)]
  {
    WeakStepKeeps(s, e);
  }

  lemma InsertStep(s: State, id: PeerId, proxy: Index)
    requires WeakSystemInv(s) && AtStage(s, id, Extracted) && Alloc.Free(s.table.clientMap, proxy)
    ensures var s' := Next(s, InsertPeer(id, proxy));
            && WeakSystemInv(s') && s'.table == Insert(s.table, id, proxy)
            && s'.initiations == s.initiations[id := s.initiations[id].(stage := Inserted)]
  {
    WeakStepKeeps(s, InsertPeer(id, proxy));
  }

  lemma MarkStep(s: State, id: PeerId)
    requires WeakSystemInv(s) && AtStage(s, id, Inserted)
    ensures var s' := Next(s, MarkPeer(id));
            var q := s.table.heap[id];
            && WeakSystemInv(s')
            && s'.table == (if s.initiations[id].deobfuscated then MarkObfuscated(s.table, id) else s.table)
            && Emits(s', ForwardInitiation(id)) == SendInitiation(q.clientProxy, q.serverDest)
  {
    WeakStepKeeps(s, MarkPeer(id));
    assert InitiationOk(s.table.heap[id], s.initiations[id]);
  }

  lemma InitiationSteps(s: State, e: Event, proxy: Index)
    requires WeakSystemInv(s) && e.ExtractPeer? && Alloc.Free(s.table.clientMap, proxy)
    ensures var id := |s.table.heap|;
            var s3 := Next(Next(Next(s, e), InsertPeer(id, proxy)), MarkPeer(id));
            var t2 := Insert(Create(s.table, NewPeer(e.rule, e.src, e.sender, e.now)), id, proxy);
            && s3.table == (if e.deobfuscated then MarkObfuscated(t2, id) else t2)
            && Emits(s3, ForwardInitiation(id)) == SendInitiation(proxy, e.rule.forwardTo)
  {
    var id := |s.table.heap|;
    ExtractStep(s, e);
    InsertStep(Next(s, e), id, proxy);
    MarkStep(Next(Next(s, e), InsertPeer(id, proxy)), id);
  }

  lemma ResponseBytes(m: seq<byte>, sender: Index, proxy: Index, origin: Index, receiver: Index, mac: MacFunction,
                      key: PublicKey)
    requires TypeOf(m) == MESSAGE_RESPONSE && |m| >= RESPONSE_SIZE
    requires Sender(m) == Some(sender) && Receiver(m) == Some(receiver)
    ensures var r := TranslateResponse(m, sender, proxy, origin, receiver, mac, key);
            && |r| == |m| && Sender(r) == Some(proxy) && Receiver(r) == Some(origin)
            && r[..4] == m[..4] && r[12..|m| - 32] == m[12..|m| - 32]
  {
    ConditionalResponse(m, sender, proxy, origin, receiver, mac, key);
    BothPatched(m, proxy, origin);
    var r := TranslateResponse(m, sender, proxy, origin, receiver, mac, key);
    var w := Splice(Splice(m, 4, PutLE(proxy)), 8, PutLE(origin));
    assert r[..4] == r[..|m| - 32][..4] == w[..|m| - 32][..4] == m[..4];
    assert r[12..|m| - 32] == r[..|m| - 32][12..] == w[..|m| - 32][12..];
    assert w[..|m| - 32][12..] == w[12..][..|m| - 44] == m[12..|m| - 32];
  }

  lemma ResponseSteps(s: State, e: Event)
    requires WeakSystemInv(s) && e.HandleResponse? && e.receiver in s.table.clientMap
    ensures var p := s.table.heap[s.table.clientMap[e.receiver]];
            var s' := Next(s, e);
            && p.clientProxy == e.receiver != 0
            && s'.table == Respond(s.table, e.receiver, e.sender, e.proxy, e.now)
            && Emits(s', ForwardReply(Reply(Response, s.table.clientMap[e.receiver], e.sender, e.receiver)))
               == SendResponse(e.proxy, p.clientOrigin, p.clientDest, p.obfuscate)
  {
    assert Reply(Response, s.table.clientMap[e.receiver], e.sender, e.receiver) in Next(s, e).replies;
  }

  /** A response handled without interleaving takes its two steps; the client is shown what the second one emits. */
  lemma ResponseAgrees(s: State, m: seq<byte>, now: Time, mac: MacFunction, debug: bool, draws: seq<Index>)
    requires WeakSystemInv(s) && TypeOf(m) == MESSAGE_RESPONSE && |m| >= RESPONSE_SIZE
    requires GetLE(m[8..12]) in s.table.clientMap
             && Alloc.Written(s.table.serverMap, GetLE(m[4..8]), debug, draws).Some?
    ensures var sender, receiver := GetLE(m[4..8]), GetLE(m[8..12]);
            var proxy := Alloc.Written(s.table.serverMap, sender, debug, draws).value;
            var s1 := Next(s, HandleResponse(sender, receiver, proxy, now));
            var h := Reply(Response, s.table.clientMap[receiver], sender, receiver);
            var (t, action) := ServerResponse(s.table, m, now, mac, debug, draws);
            && t == s1.table && action.Send? && |action.message| == |m|
            && Sender(action.message).Some? && Receiver(action.message).Some?
            && Emits(s1, ForwardReply(h)) ==
               SendResponse(Sender(action.message).value, Receiver(action.message).value, action.dest, action.obfuscate)
            && action.message[..4] == m[..4] && action.message[12..|m| - 32] == m[12..|m| - 32]
  {
    var sender, receiver := GetLE(m[4..8]), GetLE(m[8..12]);
    var proxy := Alloc.Written(s.table.serverMap, sender, debug, draws).value;
    var p := s.table.heap[s.table.clientMap[receiver]];
    ResponseSteps(s, HandleResponse(sender, receiver, proxy, now));
    ResponseBytes(m, sender, proxy, p.clientOrigin, receiver, mac, p.serverCookie);
  }

  lemma CookieReplySteps(s: State, receiver: Index)
    requires WellFormed(s) && receiver in s.table.clientMap && receiver != 0
    ensures var p := s.table.heap[s.table.clientMap[receiver]];
            var s' := Next(s, HandleCookieReply(receiver, true));
            && s'.table == s.table
            && Emits(s', ForwardReply(Reply(CookieReply, s.table.clientMap[receiver], 0, receiver)))
               == SendCookieReply(p.clientOrigin, p.clientDest, p.obfuscate)
  {
    assert Reply(CookieReply, s.table.clientMap[receiver], 0,
                 receiver) in Next(s, HandleCookieReply(receiver, true)).replies;
  }

  lemma CookieReplyRefused(s: State, receiver: Index, accepted: bool)
    requires receiver == 0 || receiver !in s.table.clientMap || !accepted
    ensures Next(s, HandleCookieReply(receiver, accepted)) == s
  {
  }

  /** A cookie reply handled without interleaving takes its two steps, and only its receiver field changes. */
  lemma CookieReplyAgrees(s: State, m: seq<byte>, consume: Consume)
    requires WellFormed(s) && TypeOf(m) == MESSAGE_COOKIE_REPLY && |m| >= COOKIE_REPLY_SIZE
    ensures var receiver, accepted := GetLE(m[4..8]), consume(m[..COOKIE_REPLY_SIZE]);
            var s1 := Next(s, HandleCookieReply(receiver, accepted));
            var action := ServerCookieReply(s.table, m, consume);
            && s1.table == s.table
            && if receiver == 0 || receiver !in s.table.clientMap || !accepted then s1 == s && action == Drop
               else
                 var out := Emits(s1, ForwardReply(Reply(CookieReply, s.table.clientMap[receiver], 0, receiver)));
                 && out.SendCookieReply?
                 && action == Send(Splice(m, 4, PutLE(out.receiver)), out.dest, out.obfuscate)
                 && Receiver(action.message) == Some(out.receiver)
  {
    var receiver, accepted := GetLE(m[4..8]), consume(m[..COOKIE_REPLY_SIZE]);
    hide Next, Emits;
    if receiver == 0 || receiver !in s.table.clientMap || !accepted {
      CookieReplyRefused(s, receiver, accepted);
    } else {
      CookieReplySteps(s, receiver);
      PatchReads(m, 4, s.table.heap[s.table.clientMap[receiver]].clientOrigin);
    }
  }
}
