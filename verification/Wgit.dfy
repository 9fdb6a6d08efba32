/** The translation table as the program keeps it: peer objects shared by two maps and changed in place (wgit.go).

    Every method is proved to make the corresponding step of `Tables`, and the two packet handlers to do what
    `Handlers` says on bytes. */
module Wgit {
  import opened Bytes
  import opened Packets
  import Alloc
  import T = Tables
  import H = Handlers

  class Peer {
    /** The peer's position among all peers ever made. */
    ghost const id: T.PeerId

    var clientOriginIndex: Index
    var clientProxyIndex: Index
    var serverOriginIndex: Index
    var serverProxyIndex: Index
    var clientPublicKey: PublicKey
    var serverPublicKey: PublicKey
    var clientCookieGenerator: PublicKey
    var serverCookieGenerator: PublicKey
    var clientDestination: Addr
    var serverDestination: Addr
    var lastActive: Time
    var clientSourceValidateLevel: int
    var serverSourceValidateLevel: int
    var obfuscateEnabled: bool

    ghost function State(): T.Peer
      reads this
    {
      T.Peer(clientOriginIndex, clientProxyIndex, serverOriginIndex, serverProxyIndex, clientPublicKey, serverPublicKey,
             clientCookieGenerator, serverCookieGenerator, clientDestination, serverDestination, lastActive,
             clientSourceValidateLevel, serverSourceValidateLevel, obfuscateEnabled)
    }

    constructor FromRule(rule: T.Rule, src: Addr, sender: Index, now: Time, ghost id: T.PeerId)
      ensures this.id == id && State() == T.NewPeer(rule, src, sender, now)
    {
      this.id := id;
      clientPublicKey := rule.clientKey;
      clientCookieGenerator := rule.serverKey;
      serverPublicKey := rule.serverKey;
      serverCookieGenerator := rule.clientKey;
      clientOriginIndex := sender;
      clientDestination := src;
      serverDestination := rule.forwardTo;
      clientSourceValidateLevel := rule.clientLevel;
      lastActive := now;
      clientProxyIndex, serverOriginIndex, serverProxyIndex := 0, 0, 0;
      serverSourceValidateLevel := 0;
      obfuscateEnabled := false;
    }

    /** A peer with every field zero. */
    constructor Zero(ghost id: T.PeerId)
      ensures this.id == id
    {
      this.id := id;
      clientOriginIndex, clientProxyIndex, serverOriginIndex, serverProxyIndex := 0, 0, 0, 0;
    }

    /** Lines 514 and 546-572: refresh, validate the source, follow a roaming client. */
    method AcceptFromClient(src: Addr, now: Time) returns (ok: bool)
      modifies this`lastActive, this`clientDestination
      ensures ok == T.ClientAccepts(old(State()), src)
      ensures State() == T.AfterClientPacket(old(State()), src, now)
    {
      lastActive := now;
      var ipChanged := src.ip != clientDestination.ip;
      var portChanged := src.port != clientDestination.port;
      assert ipChanged || portChanged <==> src != clientDestination;
      if clientSourceValidateLevel == T.LEVEL_IP {
        if ipChanged {
          return false;
        }
      } else if clientSourceValidateLevel == T.LEVEL_IP_AND_PORT {
        if ipChanged || portChanged {
          return false;
        }
      }
      if ipChanged || portChanged {
        clientDestination := src;
      }
      ok := true;
    }

    /** Lines 514-545: refresh, and validate the source once the server has replied. */
    method AcceptFromServer(src: Addr, now: Time) returns (ok: bool)
      modifies this`lastActive
      ensures ok == T.ServerAccepts(old(State()), src)
      ensures State() == old(State()).(lastActive := now)
    {
      lastActive := now;
      var replied := IsServerReplied();
      if replied {
        var ipChanged := src.ip != serverDestination.ip;
        var portChanged := src.port != serverDestination.port;
        assert ipChanged || portChanged <==> src != serverDestination;
        if serverSourceValidateLevel == T.LEVEL_IP {
          if ipChanged {
            return false;
          }
        } else if serverSourceValidateLevel == T.LEVEL_DEFAULT || serverSourceValidateLevel == T.LEVEL_IP_AND_PORT {
          if ipChanged || portChanged {
            return false;
          }
        }
      }
      ok := true;
    }

    method IsServerReplied() returns (b: bool)
      ensures b == T.Replied(State())
    {
      b := serverProxyIndex != 0;
    }
  }

  /** What looking a packet up came to. */
  datatype Lookup = NoPeer | Spinning | Found(peer: Peer)

  class WireGuardIndexTranslationTable {
    const timeout: int
    const debugAlwaysGenerateProxyIndex: bool
    var clientMap: map<Index, Peer>
    var serverMap: map<Index, Peer>

    /** Every peer ever made, in the order of creation. */
    ghost var heap: seq<Peer>

    /** The table as a value. */
    ghost var view: T.Table

    ghost predicate Known(p: Peer)
      reads this`heap
    {
      p.id < |heap| && heap[p.id] == p
    }

    /** A map and its view agree. */
    ghost predicate MapOk(m: map<Index, Peer>, ids: map<Index, T.PeerId>)
      reads this`heap
    {
      m.Keys == ids.Keys && forall k :: k in m ==> Known(m[k]) && ids[k] == m[k].id
    }

    /** The peers and their view agree, and all peers are distinct. */
    ghost predicate HeapOk()
      reads this`heap, this`view, heap
    {
      |heap| == |view.heap| && forall i :: 0 <= i < |heap| ==> heap[i].id == i && heap[i].State() == view.heap[i]
    }

    ghost predicate Valid()
      reads this, heap
      ensures Valid() ==> T.InHeap(view)
    {
      HeapOk() && MapOk(clientMap, view.clientMap) && MapOk(serverMap, view.serverMap)
    }

    /** The lookup found peer number `id`. */
    ghost predicate IsPeer(r: Lookup, id: T.PeerId)
      reads this`heap, this`view, if r.Found? then {r.peer} else {}
    {
      r.Found? && r.peer.id == id < |view.heap| && Known(r.peer) && r.peer.State() == view.heap[id]
    }

    constructor (timeout: int, debug: bool)
      ensures Valid() && view == T.EMPTY && heap == []
      ensures this.timeout == timeout && debugAlwaysGenerateProxyIndex == debug
    {
      this.timeout := timeout;
      debugAlwaysGenerateProxyIndex := debug;
      clientMap, serverMap := map[], map[];
      heap := [];
      view := T.EMPTY;
    }

    method AddPeer(src: Addr, sender: Index, rule: T.Rule, now: Time) returns (peer: Peer)
      requires Valid()
      modifies this`heap, this`view
      ensures Valid() && heap == old(heap) + [peer] && fresh(peer) && peer.id == |old(heap)|
      ensures view == T.Create(old(view), T.NewPeer(rule, src, sender, now))
    {
      peer := new Peer.FromRule(rule, src, sender, now, |heap|);
      heap := heap + [peer];
      view := T.Create(view, T.NewPeer(rule, src, sender, now));
    }

    method Register(peer: Peer, proxy: Index)
      requires Valid() && Known(peer)
      modifies this`clientMap, this`view, peer`clientProxyIndex
      ensures Valid() && view == T.Insert(old(view), peer.id, proxy)
    {
      peer.clientProxyIndex := proxy;
      clientMap := clientMap[proxy := peer];
      view := T.Insert(view, peer.id, proxy);
    }

    /** Lines 394-412: make the peer, then register it under the lock. */
    method ProcessClientMessageInitiation(src: Addr, sender: Index, rule: T.Rule, now: Time, draws: seq<Index>)
      returns (r: Lookup)
      requires Valid()
      modifies this`heap, this`clientMap, this`view
      ensures Valid() && |heap| == |old(heap)| + 1 && heap[..|old(heap)|] == old(heap) && fresh(heap[|old(heap)|])
      ensures r.Found? ==> fresh(r.peer)
      ensures var t := T.Create(old(view), T.NewPeer(rule, src, sender, now));
              var x := Alloc.Written(old(view).clientMap, sender, debugAlwaysGenerateProxyIndex, draws);
              if x.None? then r == Spinning && view == t
              else IsPeer(r, |old(view).heap|) && view == T.Insert(t, |old(view).heap|, x.value)
    {
      var peer := AddPeer(src, sender, rule, now);
      var proxy := Alloc.GenerateProxyIndex(clientMap, sender, debugAlwaysGenerateProxyIndex, draws);
      assert proxy == Alloc.Written(view.clientMap, sender, debugAlwaysGenerateProxyIndex, draws);
      if proxy.None? {
        return Spinning;
      }
      Register(peer, proxy.value);
      r := Found(peer);
    }

    method Touch(peer: Peer, sender: Index, now: Time)
      requires Valid() && Known(peer)
      modifies this`view, peer`lastActive, peer`serverOriginIndex
      ensures Valid()
      ensures var t := old(view);
              view == t.(heap := t.heap[peer.id := t.heap[peer.id].(lastActive := now, serverOrigin := sender)])
    {
      peer.lastActive := now;
      peer.serverOriginIndex := sender;
      view := view.(heap := view.heap[peer.id := view.heap[peer.id].(lastActive := now, serverOrigin := sender)]);
    }

    method RegisterServer(peer: Peer, proxy: Index)
      requires Valid() && Known(peer)
      modifies this`serverMap, this`view, peer`serverProxyIndex
      ensures Valid()
      ensures var t := old(view);
              view == t.(heap := t.heap[peer.id := t.heap[peer.id].(serverProxy := proxy)],
                         serverMap := t.serverMap[proxy := peer.id])
    {
      peer.serverProxyIndex := proxy;
      serverMap := serverMap[proxy := peer];
      view := view.(heap := view.heap[peer.id := view.heap[peer.id].(serverProxy := proxy)],
                    serverMap := view.serverMap[proxy := peer.id]);
    }

    /** Lines 436-439, for the peer that was matched. */
    method Answer(peer: Peer, sender: Index, now: Time, draws: seq<Index>) returns (r: Lookup)
      requires Valid() && Known(peer)
      modifies this`serverMap, this`view, peer
      ensures Valid()
      ensures var t := old(view);
              match Alloc.Written(t.serverMap, sender, debugAlwaysGenerateProxyIndex, draws)
              case None =>
                r == Spinning
                && view == t.(heap := t.heap[peer.id := t.heap[peer.id].(lastActive := now, serverOrigin := sender)])
              case Some(proxy) =>
                r == Found(peer)
                && view == t.(heap := t.heap[peer.id :=
                                t.heap[peer.id].(lastActive := now, serverOrigin := sender, serverProxy := proxy)],
                              serverMap := t.serverMap[proxy := peer.id])
    {
      Touch(peer, sender, now);
      var proxy := Alloc.GenerateProxyIndex(serverMap, sender, debugAlwaysGenerateProxyIndex, draws);
      assert proxy == Alloc.Written(view.serverMap, sender, debugAlwaysGenerateProxyIndex, draws);
      if proxy.None? {
        return Spinning;
      }
      RegisterServer(peer, proxy.value);
      r := Found(peer);
    }

    /** Lines 422-450. */
    method ProcessServerMessageResponse(sender: Index, receiver: Index, now: Time, draws: seq<Index>)
      returns (r: Lookup)
      requires Valid()
      modifies this`serverMap, this`view, heap
      ensures Valid()
      ensures var t := old(view);
              if receiver == 0 || receiver !in t.clientMap then r == NoPeer && view == t
              else
                var id := t.clientMap[receiver];
                var x := Alloc.Written(t.serverMap, sender, debugAlwaysGenerateProxyIndex, draws);
                if x.None? then
                  r == Spinning
                  && view == t.(heap := t.heap[id := t.heap[id].(lastActive := now, serverOrigin := sender)])
                else IsPeer(r, id) && view == T.Respond(t, receiver, sender, x.value, now)
    {
      if receiver == 0 || receiver !in clientMap {
        return NoPeer;
      }
      r := Answer(clientMap[receiver], sender, now, draws);
    }

    /** Lines 477-575, client to server. */
    method ProcessClientTransport(receiver: Index, src: Addr, now: Time) returns (r: Lookup)
      requires Valid()
      modifies this`view, heap
      ensures Valid() && view == T.FromClient(old(view), receiver, src, now).0
      ensures var who := T.FromClient(old(view), receiver, src, now).1;
              if who.None? then r == NoPeer else IsPeer(r, who.value)
    {
      if receiver == 0 || receiver !in serverMap {
        return NoPeer;
      }
      var peer := serverMap[receiver];
      var ok := peer.AcceptFromClient(src, now);
      view := T.FromClient(view, receiver, src, now).0;
      r := if ok then Found(peer) else NoPeer;
    }

    /** Lines 477-575, server to client. */
    method ProcessServerTransport(receiver: Index, src: Addr, now: Time) returns (r: Lookup)
      requires Valid()
      modifies this`view, heap
      ensures Valid() && view == T.FromServer(old(view), receiver, src, now).0
      ensures var who := T.FromServer(old(view), receiver, src, now).1;
              if who.None? then r == NoPeer else IsPeer(r, who.value)
    {
      if receiver == 0 || receiver !in clientMap {
        return NoPeer;
      }
      var peer := clientMap[receiver];
      var ok := peer.AcceptFromServer(src, now);
      view := T.FromServer(view, receiver, src, now).0;
      r := if ok then Found(peer) else NoPeer;
    }

    /** Lines 453-475: a lookup, then the foreign generator decides. */
    method ProcessServerMessageCookieReply(receiver: Index, accepted: bool) returns (r: Lookup)
      requires Valid()
      ensures if receiver == 0 || receiver !in view.clientMap || !accepted then r == NoPeer
              else IsPeer(r, view.clientMap[receiver])
    {
      if receiver == 0 || receiver !in clientMap {
        return NoPeer;
      }
      if !accepted {
        return NoPeer;
      }
      r := Found(clientMap[receiver]);
    }

    /** Lines 598-600 for one entry; one that an earlier turn deleted is not visited. */
    method ExpireOne(k: Index, current: Time)
      requires Valid()
      modifies this`clientMap, this`serverMap, this`view
      ensures Valid() && view == T.ExpireKey(old(view), current - timeout, k)
    {
      if k in clientMap {
        var peer := clientMap[k];
        if peer.lastActive < current - timeout {
          clientMap := clientMap - {peer.clientProxyIndex};
          serverMap := serverMap - {peer.serverProxyIndex};
          view := T.ExpireKey(view, current - timeout, k);
        }
      }
    }

    /** Lines 589-606: delete while iterating, in any order. */
    method HandlePeersExpireCheck(current: Time)
      requires Valid()
      modifies this`clientMap, this`serverMap, this`view
      ensures Valid()
      ensures exists order :: T.Enumerates(order, old(view).clientMap)
                              && view == T.ExpireInOrder(old(view), current - timeout, order)
      ensures T.ClientKeys(old(view)) ==> view == T.Expire(old(view), current - timeout)
    {
      ghost var t := view;
      ghost var order: seq<Index> := [];
      var todo := clientMap.Keys;
      hide T.Expire, T.ExpireKey, T.Iterates, T.Enumerates, MapOk, HeapOk;
      assert T.Iterates(order, todo, t.clientMap) by {
        Untouched();
      }
      while todo != {}
        invariant Valid() && T.Iterates(order, todo, t.clientMap)
                  && view == T.ExpireInOrder(t, current - timeout, order)
        decreases todo
      {
        var k :| k in todo;
        ExpireOne(k, current);
        T.ExpireNext(t, current - timeout, order, k);
        T.IteratesOn(order, todo, t.clientMap, k);
        todo := todo - {k};
        order := order + [k];
      }
      T.IteratesAll(order, t.clientMap);
      if T.ClientKeys(t) {
        T.ExpireOrderIrrelevant(t, current - timeout, order);
      }
    }

    lemma Untouched()
      requires Valid()
      ensures T.Iterates([], clientMap.Keys, view.clientMap)
    {
    }

    method SetServerDestination(peer: Peer, addr: Addr)
      requires Valid() && Known(peer)
      modifies this`view, peer`serverDestination
      ensures Valid()
      ensures view == old(view).(heap := old(view).heap[peer.id := old(view).heap[peer.id].(serverDest := addr)])
    {
      peer.serverDestination := addr;
      view := view.(heap := view.heap[peer.id := view.heap[peer.id].(serverDest := addr)]);
    }

    /** Lines 608-619. */
    method HandleAllServerDestinationUpdate(addr: Addr)
      requires Valid()
      modifies this`view, heap
      ensures Valid() && view == T.UpdateServers(old(view), addr)
    {
      ghost var t := view;
      ghost var ids: set<T.PeerId> := {};
      var todo := clientMap.Keys;
      hide T.UpdateSome, T.UpdateServers;
      T.UpdateNone(t, addr);
      while todo != {}
        invariant Valid() && todo <= t.clientMap.Keys && ids <= t.clientMap.Values
        invariant |t.heap| == |view.heap| && view.clientMap == t.clientMap
        invariant forall k :: k in t.clientMap && k !in todo ==> t.clientMap[k] in ids
        invariant view == T.UpdateSome(t, addr, ids)
        decreases todo
      {
        var k :| k in todo;
        todo := todo - {k};
        var peer := clientMap[k];
        ghost var u := view;
        SetServerDestination(peer, addr);
        T.UpdateTurn(t, addr, ids, peer.id, u, view);
        ids := ids + {peer.id};
      }
      assert ids == t.clientMap.Values;
      T.UpdateAll(t, addr, ids, view);
    }

    /** What became of a packet: kept by the handler's caller, stuck, or ready for the write loop. */
    static ghost predicate Outcome(packet: Packet, was: set<Flag>, action: H.Action, forwarded: bool)
      reads packet, packet.data
    {
      packet.Valid() &&
      match action
      case Drop => !forwarded && packet.length == 0 && packet.flags == {}
      case Spin => !forwarded
      case Send(message, dest, obfuscate) =>
        forwarded && packet.Slice() == message && packet.destination == Some(dest)
        && packet.flags == was + if obfuscate then {ObfuscateBeforeSend} else {}
    }

    method MarkIfDeobfuscated(peer: Peer, packet: Packet)
      requires Valid() && Known(peer)
      modifies this`view, peer`obfuscateEnabled
      ensures Valid()
      ensures view ==
              if DeobfuscatedAfterReceived in packet.flags then T.MarkObfuscated(old(view), peer.id) else old(view)
      ensures Known(peer) && peer.State() == view.heap[peer.id]
    {
      if DeobfuscatedAfterReceived in packet.flags {
        peer.obfuscateEnabled := true;
        view := T.MarkObfuscated(view, peer.id);
      }
    }

    /** Lines 285-289: rename the sender towards the server, only if the name differs. */
    static method PatchInitiation(packet: Packet, peer: Peer, mac: MacFunction)
      requires packet.Valid() && packet.length >= INITIATION_SIZE && TypeOf(packet.Slice()) == MESSAGE_INITIATION
      modifies packet.data
      ensures packet.Slice() == TranslateInitiation(old(packet.Slice()), peer.clientOriginIndex, peer.clientProxyIndex,
                                                    mac, peer.clientCookieGenerator)
    {
      if peer.clientOriginIndex != peer.clientProxyIndex {
        var ok := packet.SetSenderIndex(peer.clientProxyIndex);
        packet.FixMACs(mac, peer.clientCookieGenerator);
      }
    }

    /** Lines 352-362. */
    static method PatchResponse(packet: Packet, peer: Peer, mac: MacFunction)
      requires packet.Valid() && packet.length >= RESPONSE_SIZE && TypeOf(packet.Slice()) == MESSAGE_RESPONSE
      modifies packet.data
      ensures packet.Slice() == TranslateResponse(old(packet.Slice()), peer.serverOriginIndex, peer.serverProxyIndex,
                                                  peer.clientOriginIndex, peer.clientProxyIndex, mac,
                                                  peer.serverCookieGenerator)
    {
      if peer.serverOriginIndex != peer.serverProxyIndex || peer.clientOriginIndex != peer.clientProxyIndex {
        ghost var was := packet.Slice();
        PatchReads(was, 4, peer.serverProxyIndex);
        var ok := packet.SetSenderIndex(peer.serverProxyIndex);
        ok := packet.SetReceiverIndex(peer.clientOriginIndex);
        packet.FixMACs(mac, peer.serverCookieGenerator);
      }
    }

    /** Lines 291 and 298: towards the server. */
    static method SendToServer(packet: Packet, index: Index, dest: Addr)
      requires packet.Valid() && TypeOf(packet.Slice()) == MESSAGE_TRANSPORT && packet.length >= 8
      modifies packet`destination, packet.data
      ensures Outcome(packet, packet.flags, H.Send(Splice(old(packet.Slice()), 4, PutLE(index)), dest, false), true)
    {
      var ok := packet.SetReceiverIndex(index);
      packet.destination := Some(dest);
    }

    /** Lines 366 and 373-378: towards the client. */
    static method SendToClient(packet: Packet, index: Index, dest: Addr, obfuscate: bool)
      requires packet.Valid() && packet.length >= 8
      requires TypeOf(packet.Slice()) == MESSAGE_TRANSPORT || TypeOf(packet.Slice()) == MESSAGE_COOKIE_REPLY
      modifies packet`destination, packet`flags, packet.data
      ensures Outcome(packet, old(packet.flags), H.Send(Splice(old(packet.Slice()), 4, PutLE(index)), dest, obfuscate),
                      true)
    {
      var ok := packet.SetReceiverIndex(index);
      Address(packet, dest, obfuscate);
    }

    static method FinishInitiation(packet: Packet, peer: Peer, mac: MacFunction)
      requires packet.Valid() && packet.length >= INITIATION_SIZE && TypeOf(packet.Slice()) == MESSAGE_INITIATION
      modifies packet`destination, packet.data
      ensures var p := peer.State();
              Outcome(packet, packet.flags,
                      H.Send(TranslateInitiation(old(packet.Slice()), p.clientOrigin, p.clientProxy, mac,
                                                 p.clientCookie),
                             p.serverDest, false), true)
    {
      PatchInitiation(packet, peer, mac);
      packet.destination := Some(peer.serverDestination);
    }

    method HandleClientInitiation(packet: Packet, src: Addr, now: Time, extract: H.Extract, mac: MacFunction,
                                  draws: seq<Index>)
      returns (forwarded: bool)
      requires Valid() && packet.Valid() && TypeOf(packet.Slice()) == MESSAGE_INITIATION
      modifies this, packet, packet.data
      ensures Valid()
      ensures var (t, action) := H.ClientInitiation(old(view), old(packet.Slice()), src,
                DeobfuscatedAfterReceived in old(packet.flags), now, extract, mac,
                debugAlwaysGenerateProxyIndex, draws);
              view == t && Outcome(packet, old(packet.flags), action, forwarded)
    {
      hide HeapOk, MapOk, TranslateInitiation, Alloc.Written;
      forwarded := false;
      if packet.length < INITIATION_SIZE {
        packet.Reset();
        return;
      }
      ghost var m := packet.Slice();
      assert packet.data[..INITIATION_SIZE] == m[..INITIATION_SIZE] && packet.data[4..8] == m[4..8];
      var rule := extract(packet.data[..INITIATION_SIZE]);
      if rule.None? {
        packet.Reset();
        return;
      }
      var sender := GetLE(packet.data[4..8]);
      var r := ProcessClientMessageInitiation(src, sender, rule.value, now, draws);
      if r.Spinning? {
        return;
      }
      MarkIfDeobfuscated(r.peer, packet);
      FinishInitiation(packet, r.peer, mac);
      forwarded := true;
    }

    method HandleClientData(packet: Packet, src: Addr, now: Time) returns (forwarded: bool)
      requires Valid() && packet.Valid() && TypeOf(packet.Slice()) == MESSAGE_TRANSPORT
      modifies this`view, heap, packet, packet.data
      ensures Valid()
      ensures var (t, action) := H.ClientData(old(view), old(packet.Slice()), src, now);
              view == t && Outcome(packet, old(packet.flags), action, forwarded)
    {
      hide HeapOk, MapOk;
      forwarded := false;
      var receiver := packet.ReceiverIndex();
      if receiver.None? {
        packet.Reset();
        return;
      }
      var r := ProcessClientTransport(receiver.value, src, now);
      if r.NoPeer? {
        packet.Reset();
        return;
      }
      SendToServer(packet, r.peer.serverOriginIndex, r.peer.serverDestination);
      forwarded := true;
    }

    /** Lines 244-301. */
    method HandleClientPacket(packet: Packet, now: Time, extract: H.Extract, mac: MacFunction, draws: seq<Index>)
      returns (forwarded: bool)
      requires Valid() && packet.Valid() && packet.source.Some?
      modifies this, heap, packet, packet.data
      ensures Valid()
      ensures var (t, action) := H.ClientPacket(old(view), old(packet.Slice()), old(packet.source).value,
                DeobfuscatedAfterReceived in old(packet.flags), now, extract, mac,
                debugAlwaysGenerateProxyIndex, draws);
              view == t && Outcome(packet, old(packet.flags), action, forwarded)
    {
      var src := packet.source.value;
      var ty := packet.MessageType();
      if ty == MESSAGE_INITIATION {
        forwarded := HandleClientInitiation(packet, src, now, extract, mac, draws);
      } else if ty == MESSAGE_TRANSPORT {
        forwarded := HandleClientData(packet, src, now);
      } else {
        packet.Reset();
        forwarded := false;
      }
    }

    /** Lines 373-378. */
    static method Address(packet: Packet, dest: Addr, obfuscate: bool)
      requires packet.Valid()
      modifies packet`flags, packet`destination
      ensures packet.Valid() && packet.destination == Some(dest)
      ensures packet.flags == old(packet.flags) + if obfuscate then {ObfuscateBeforeSend} else {}
    {
      if obfuscate {
        packet.flags := packet.flags + {ObfuscateBeforeSend};
      }
      packet.destination := Some(dest);
    }

    static method FinishResponse(packet: Packet, peer: Peer, mac: MacFunction)
      requires packet.Valid() && packet.length >= RESPONSE_SIZE && TypeOf(packet.Slice()) == MESSAGE_RESPONSE
      modifies packet`destination, packet`flags, packet.data
      ensures var p := peer.State();
              Outcome(packet, old(packet.flags),
                      H.Send(TranslateResponse(old(packet.Slice()), p.serverOrigin, p.serverProxy, p.clientOrigin,
                                               p.clientProxy,
                                               mac, p.serverCookie), p.clientDest, p.obfuscate), true)
    {
      PatchResponse(packet, peer, mac);
      Address(packet, peer.clientDestination, peer.obfuscateEnabled);
    }

    method HandleServerResponse(packet: Packet, now: Time, mac: MacFunction, draws: seq<Index>)
      returns (forwarded: bool)
      requires Valid() && packet.Valid() && TypeOf(packet.Slice()) == MESSAGE_RESPONSE
      modifies this`serverMap, this`view, heap, packet, packet.data
      ensures Valid()
      ensures var (t, action) := H.ServerResponse(old(view), old(packet.Slice()), now, mac,
                                                  debugAlwaysGenerateProxyIndex, draws);
              view == t && Outcome(packet, old(packet.flags), action, forwarded)
    {
      hide HeapOk, MapOk, TranslateResponse, Alloc.Written;
      forwarded := false;
      if packet.length < RESPONSE_SIZE {
        packet.Reset();
        return;
      }
      ghost var m := packet.Slice();
      assert packet.data[4..8] == m[4..8] && packet.data[8..12] == m[8..12];
      var r := ProcessServerMessageResponse(GetLE(packet.data[4..8]), GetLE(packet.data[8..12]), now, draws);
      if r.NoPeer? {
        packet.Reset();
        return;
      }
      if r.Spinning? {
        return;
      }
      FinishResponse(packet, r.peer, mac);
      forwarded := true;
    }

    method HandleServerCookieReply(packet: Packet, consume: H.Consume) returns (forwarded: bool)
      requires Valid() && packet.Valid() && TypeOf(packet.Slice()) == MESSAGE_COOKIE_REPLY
      modifies packet, packet.data
      ensures Valid()
      ensures Outcome(packet, old(packet.flags), H.ServerCookieReply(old(view), old(packet.Slice()), consume),
                      forwarded)
    {
      hide HeapOk, MapOk;
      forwarded := false;
      if packet.length < COOKIE_REPLY_SIZE {
        packet.Reset();
        return;
      }
      ghost var m := packet.Slice();
      assert packet.data[4..8] == m[4..8] && packet.data[..COOKIE_REPLY_SIZE] == m[..COOKIE_REPLY_SIZE];
      var r := ProcessServerMessageCookieReply(GetLE(packet.data[4..8]), consume(packet.data[..COOKIE_REPLY_SIZE]));
      if r.NoPeer? {
        packet.Reset();
        return;
      }
      SendToClient(packet, r.peer.clientOriginIndex, r.peer.clientDestination, r.peer.obfuscateEnabled);
      forwarded := true;
    }

    method HandleServerData(packet: Packet, src: Addr, now: Time) returns (forwarded: bool)
      requires Valid() && packet.Valid() && TypeOf(packet.Slice()) == MESSAGE_TRANSPORT
      modifies this`view, heap, packet, packet.data
      ensures Valid()
      ensures var (t, action) := H.ServerData(old(view), old(packet.Slice()), src, now);
              view == t && Outcome(packet, old(packet.flags), action, forwarded)
    {
      hide HeapOk, MapOk;
      forwarded := false;
      var receiver := packet.ReceiverIndex();
      if receiver.None? {
        packet.Reset();
        return;
      }
      var r := ProcessServerTransport(receiver.value, src, now);
      if r.NoPeer? {
        packet.Reset();
        return;
      }
      SendToClient(packet, r.peer.clientOriginIndex, r.peer.clientDestination, r.peer.obfuscateEnabled);
      forwarded := true;
    }

    /** Lines 303-381. */
    method HandleServerPacket(packet: Packet, now: Time, consume: H.Consume, mac: MacFunction, draws: seq<Index>)
      returns (forwarded: bool)
      requires Valid() && packet.Valid() && packet.source.Some?
      modifies this`serverMap, this`view, heap, packet, packet.data
      ensures Valid()
      ensures var (t, action) := H.ServerPacket(old(view), old(packet.Slice()), old(packet.source).value, now,
                consume, mac, debugAlwaysGenerateProxyIndex, draws);
              view == t && Outcome(packet, old(packet.flags), action, forwarded)
    {
      var src := packet.source.value;
      var ty := packet.MessageType();
      if ty == MESSAGE_RESPONSE {
        forwarded := HandleServerResponse(packet, now, mac, draws);
      } else if ty == MESSAGE_COOKIE_REPLY {
        forwarded := HandleServerCookieReply(packet, consume);
      } else if ty == MESSAGE_TRANSPORT {
        forwarded := HandleServerData(packet, src, now);
      } else {
        packet.Reset();
        forwarded := false;
      }
    }
  }
}
