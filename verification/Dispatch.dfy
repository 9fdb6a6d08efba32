/** What the two packet handlers do with whatever arrives, by message type (wgit.go:251-300, 310-380). */
module Dispatch {
  import opened Bytes
  import opened Packets
  import opened Tables
  import opened Runs
  import opened AnyRuns
  import opened WeakRuns
  import opened Sessions
  import opened Handlers
  import Alloc
  import TwoHop

  // ---------------------------------------------------------------- from clients

  /** A transport packet of a live session leaves for its server under the name the server chose, with no other byte
      changed, if its source is accepted; else it is recycled. */
  lemma ClientTransportHandled(s: State, x: Session, m: seq<byte>, src: Addr, deobfuscated: bool, now: Time,
                               extract: Extract, mac: MacFunction, debug: bool, draws: seq<Index>)
    requires WellFormed(s) && Live(s.table, x) && TwoHop.TransportMessage(m) && Receiver(m) == Some(x.serverProxy)
    ensures ClientPacket(s.table, m, src, deobfuscated, now, extract, mac, debug, draws).1 ==
            if ClientAccepts(PeerOf(s.table, x), src)
            then Send(Splice(m, 4, PutLE(x.serverOrigin)), PeerOf(s.table, x).serverDest, false) else Drop
  {
    LiveTranslates(s, x, src, now);
    ClientDataAgrees(s, m, src, now);
  }

  /** An initiation takes its steps, is shown to the server under the name it was given, with fresh MACs made with the
      server's key if that is a new one, and goes where its rule says. */
  lemma ClientInitiationHandled(s: State, m: seq<byte>, src: Addr, deobfuscated: bool, now: Time,
                                extract: Extract, mac: MacFunction, debug: bool, draws: seq<Index>)
    requires WeakSystemInv(s) && TypeOf(m) == MESSAGE_INITIATION && |m| >= INITIATION_SIZE
    requires extract(m[..INITIATION_SIZE]).Some?
    requires var k := Alloc.Written(s.table.clientMap, GetLE(m[4..8]), debug, draws);
             k.Some? && Alloc.Free(s.table.clientMap, k.value)
    ensures var rule := extract(m[..INITIATION_SIZE]).value;
            var sender := GetLE(m[4..8]);
            var proxy := Alloc.Written(s.table.clientMap, sender, debug, draws).value;
            var id := |s.table.heap|;
            var s1 := Next(s, ExtractPeer(src, sender, rule, deobfuscated, now));
            var s3 := Next(Next(s1, InsertPeer(id, proxy)), MarkPeer(id));
            var (t, action) := ClientPacket(s.table, m, src, deobfuscated, now, extract, mac, debug, draws);
            && t == s3.table && action.Send? && action.dest == rule.forwardTo && !action.obfuscate
            && |action.message| == |m| && Sender(action.message) == Some(proxy)
            && action.message[..4] == m[..4] && action.message[8..|m| - 32] == m[8..|m| - 32]
            && action.message[|m| - 32..] ==
               if proxy == sender then m[|m| - 32..] else mac(rule.serverKey, Splice(m, 4, PutLE(proxy)))
  {
    var sender := GetLE(m[4..8]);
    var proxy := Alloc.Written(s.table.clientMap, sender, debug, draws).value;
    var rule := extract(m[..INITIATION_SIZE]).value;
    InitiationAgrees(s, m, src, deobfuscated, now, extract, mac, debug, draws);
    RewrittenMacs(m, 0, 0, sender, proxy, mac, rule.serverKey);
    hide Next, TranslateInitiation, Alloc.Written, Insert, Create, MarkObfuscated, WeakSystemInv, Alloc.Free;
    assert ClientPacket(s.table, m, src, deobfuscated, now, extract, mac, debug, draws)
        == ClientInitiation(s.table, m, src, deobfuscated, now, extract, mac, debug, draws);
    if sender == proxy {
      ConditionalInitiation(m, sender, proxy, mac, rule.serverKey);
    }
  }

  /** A client packet is forwarded exactly if it is an initiation that is long enough, names a configured peer and gets
      an index, or a transport packet for a known name from an accepted source. */
  lemma ClientForwardedExactly(t: Table, m: seq<byte>, src: Addr, deobfuscated: bool, now: Time,
                               extract: Extract, mac: MacFunction, debug: bool, draws: seq<Index>)
    requires InHeap(t)
    ensures ClientPacket(t, m, src, deobfuscated, now, extract, mac, debug, draws).1.Send? <==>
            || (|m| >= 148 && m[0] == 1 && extract(m[..148]).Some?
                && Alloc.Written(t.clientMap, GetLE(m[4..8]), debug, draws).Some?)
            || (|m| >= 8 && m[0] == 4 && GetLE(m[4..8]) != 0 && GetLE(m[4..8]) in t.serverMap
                && ClientAccepts(t.heap[t.serverMap[GetLE(m[4..8])]], src))
    ensures ClientPacket(t, m, src, deobfuscated, now, extract, mac, debug, draws).1.Spin? <==>
            |m| >= 148 && m[0] == 1 && extract(m[..148]).Some?
            && Alloc.Written(t.clientMap, GetLE(m[4..8]), debug, draws).None?
    ensures |m| == 0 || (m[0] != 1 && m[0] != 4) ==>
            ClientPacket(t, m, src, deobfuscated, now, extract, mac, debug, draws) == (t, Drop)
  {
    hide Alloc.Written;
    TypeIs(m);
  }

  /** A handler that is stuck has made its peer, or noted the answer, and registered nothing. */
  lemma StuckExactly(t: Table, m: seq<byte>, src: Addr, deobfuscated: bool, now: Time, extract: Extract,
                     consume: Consume, mac: MacFunction, debug: bool, draws: seq<Index>)
    requires InHeap(t)
    ensures var (t', action) := ClientPacket(t, m, src, deobfuscated, now, extract, mac, debug, draws);
            action.Spin? ==>
              && t'.clientMap == t.clientMap && t'.serverMap == t.serverMap
              && |t'.heap| == |t.heap| + 1 && t'.heap[..|t.heap|] == t.heap && t'.heap[|t.heap|].clientDest == src
    ensures var (t', action) := ServerPacket(t, m, src, now, consume, mac, debug, draws);
            action.Spin? ==>
              var id := t.clientMap[GetLE(m[8..12])];
              && t'.clientMap == t.clientMap && t'.serverMap == t.serverMap && |t'.heap| == |t.heap|
              && (forall i :: 0 <= i < |t.heap| && i != id ==> t'.heap[i] == t.heap[i])
              && t'.heap[id].lastActive == now && t'.heap[id].serverOrigin == GetLE(m[4..8])
              && t'.heap[id].serverProxy == t.heap[id].serverProxy
  {
    hide Alloc.Written, TranslateResponse;
  }

  /** The type of a message is its first byte. */
  lemma TypeIs(m: seq<byte>)
    ensures TypeOf(m) == MESSAGE_INITIATION <==> |m| > 0 && m[0] == 1
    ensures TypeOf(m) == MESSAGE_RESPONSE <==> |m| > 0 && m[0] == 2
    ensures TypeOf(m) == MESSAGE_COOKIE_REPLY <==> |m| > 0 && m[0] == 3
    ensures TypeOf(m) == MESSAGE_TRANSPORT <==> |m| > 0 && m[0] == 4
  {
  }

  // ---------------------------------------------------------------- from servers

  /** A transport packet of a live session leaves for its client under the client's own name, with no other byte
      changed, if its source is accepted; else it is recycled. */
  lemma ServerTransportHandled(s: State, x: Session, m: seq<byte>, src: Addr, now: Time,
                               consume: Consume, mac: MacFunction, debug: bool, draws: seq<Index>)
    requires WellFormed(s) && Live(s.table, x) && TwoHop.TransportMessage(m) && Receiver(m) == Some(x.clientProxy)
    ensures var p := PeerOf(s.table, x);
            ServerPacket(s.table, m, src, now, consume, mac, debug, draws).1 ==
            if ServerAccepts(p, src) then Send(Splice(m, 4, PutLE(x.clientOrigin)), p.clientDest, p.obfuscate) else Drop
  {
    LiveTranslates(s, x, src, now);
    ServerDataAgrees(s, m, src, now);
  }

  /** A response starts a session, and shows the client its own name and the session's name for the server. Where either
      is changed, the MACs are made with the client's key if this process made the peer, and with the server's if it was
      loaded. */
  lemma ServerResponseHandled(s: State, m: seq<byte>, src: Addr, now: Time,
                              consume: Consume, mac: MacFunction, debug: bool, draws: seq<Index>)
    requires WeakSystemInv(s) && GeneratorsOk(s) && TypeOf(m) == MESSAGE_RESPONSE && |m| >= RESPONSE_SIZE
    requires GetLE(m[8..12]) in s.table.clientMap
    requires Alloc.Written(s.table.serverMap, GetLE(m[4..8]), debug, draws).Some?
    ensures var sender, receiver := GetLE(m[4..8]), GetLE(m[8..12]);
            var proxy := Alloc.Written(s.table.serverMap, sender, debug, draws).value;
            var id := s.table.clientMap[receiver];
            var p := s.table.heap[id];
            var (t, action) := ServerPacket(s.table, m, src, now, consume, mac, debug, draws);
            && t == Next(s, HandleResponse(sender, receiver, proxy, now)).table
            && action.Send? && action.dest == p.clientDest && action.obfuscate == p.obfuscate && |action.message| == |m|
            && Sender(action.message) == Some(proxy) && Receiver(action.message) == Some(p.clientOrigin)
            && action.message[..4] == m[..4] && action.message[12..|m| - 32] == m[12..|m| - 32]
            && action.message[|m| - 32..] ==
               if proxy == sender && p.clientOrigin == receiver then m[|m| - 32..]
               else mac(if id in s.initiations then p.clientKey else p.serverKey,
                        Splice(Splice(m, 4, PutLE(proxy)), 8, PutLE(p.clientOrigin)))
  {
    var sender, receiver := GetLE(m[4..8]), GetLE(m[8..12]);
    var proxy := Alloc.Written(s.table.serverMap, sender, debug, draws).value;
    var id := s.table.clientMap[receiver];
    var p := s.table.heap[id];
    assert GeneratorsOkAt(s, id);
    assert p.clientProxy == receiver != 0;
    ResponseSteps(s, HandleResponse(sender, receiver, proxy, now));
    ResponseBytes(m, sender, proxy, p.clientOrigin, receiver, mac, p.serverCookie);
    RewrittenMacs(m, sender, proxy, p.clientOrigin, receiver, mac, p.serverCookie);
    ConditionalResponse(m, sender, proxy, p.clientOrigin, receiver, mac, p.serverCookie);
    hide Next, Emits, TranslateResponse, Alloc.Written, Respond, WeakSystemInv, GeneratorsOk;
  }

  /** An accepted cookie reply for a peer goes to its client under the sender of the peer's initiation, with no other
      byte changed, and leaves the table alone. */
  lemma ServerCookieReplyHandled(s: State, m: seq<byte>, src: Addr, now: Time,
                                 consume: Consume, mac: MacFunction, debug: bool, draws: seq<Index>)
    requires WeakSystemInv(s) && TypeOf(m) == MESSAGE_COOKIE_REPLY && |m| >= COOKIE_REPLY_SIZE
    requires GetLE(m[4..8]) in s.table.clientMap && s.table.clientMap[GetLE(m[4..8])] in s.initiations
    ensures var id := s.table.clientMap[GetLE(m[4..8])];
            var p := s.table.heap[id];
            ServerPacket(s.table, m, src, now, consume, mac, debug, draws) ==
            (s.table, if consume(m[..COOKIE_REPLY_SIZE])
                      then Send(Splice(m, 4, PutLE(s.initiations[id].sender)), p.clientDest, p.obfuscate) else Drop)
  {
    var id := s.table.clientMap[GetLE(m[4..8])];
    assert InitiationOk(s.table.heap[id], s.initiations[id]);
  }

  /** A server packet is forwarded exactly if it is for a known name, long enough, and: a response that gets an index, a
      cookie reply that the generator accepts, or a transport packet from an accepted source. */
  lemma ServerForwardedExactly(t: Table, m: seq<byte>, src: Addr, now: Time,
                               consume: Consume, mac: MacFunction, debug: bool, draws: seq<Index>)
    requires InHeap(t)
    ensures ServerPacket(t, m, src, now, consume, mac, debug, draws).1.Send? <==>
            || (|m| >= 92 && m[0] == 2 && GetLE(m[8..12]) != 0 && GetLE(m[8..12]) in t.clientMap
                && Alloc.Written(t.serverMap, GetLE(m[4..8]), debug, draws).Some?)
            || (|m| >= 64 && m[0] == 3 && GetLE(m[4..8]) != 0 && GetLE(m[4..8]) in t.clientMap && consume(m[..64]))
            || (|m| >= 8 && m[0] == 4 && GetLE(m[4..8]) != 0 && GetLE(m[4..8]) in t.clientMap
                && ServerAccepts(t.heap[t.clientMap[GetLE(m[4..8])]], src))
    ensures ServerPacket(t, m, src, now, consume, mac, debug, draws).1.Spin? <==>
            |m| >= 92 && m[0] == 2 && GetLE(m[8..12]) != 0 && GetLE(m[8..12]) in t.clientMap
            && Alloc.Written(t.serverMap, GetLE(m[4..8]), debug, draws).None?
    ensures |m| == 0 || (m[0] != 2 && m[0] != 3 && m[0] != 4) ==>
            ServerPacket(t, m, src, now, consume, mac, debug, draws) == (t, Drop)
  {
    hide Alloc.Written, TranslateResponse, Respond;
    TypeIs(m);
  }
}
