/** WireGuard messages as bytes, and the packet buffer that carries them (packet.go). */
module Packets {
  import opened Bytes

  const MESSAGE_INITIATION := 1
  const MESSAGE_RESPONSE := 2
  const MESSAGE_COOKIE_REPLY := 3
  const MESSAGE_TRANSPORT := 4

  const INITIATION_SIZE := 148
  const RESPONSE_SIZE := 92
  const COOKIE_REPLY_SIZE := 64
  const TRANSPORT_HEADER_SIZE := 16
  const MIN_MESSAGE_SIZE := 32

  // ---------------------------------------------------------------- messages as byte sequences

  function TypeOf(s: seq<byte>): int {
    if |s| < 1 then -1 else s[0] as int
  }

  /** Where the sender index of a message of type `t` lies, if it has one. */
  function SenderOffset(t: int): Option<nat> {
    if t == MESSAGE_INITIATION || t == MESSAGE_RESPONSE then Some(4) else None
  }

  /** Where the code looks for the receiver index of a message of type `t`. */
  function ReceiverOffset(t: int): Option<nat> {
    if t == MESSAGE_INITIATION || t == MESSAGE_RESPONSE then Some(8)
    else if t == MESSAGE_COOKIE_REPLY || t == MESSAGE_TRANSPORT then Some(4)
    else None
  }

  function FieldAt(s: seq<byte>, off: Option<nat>): Option<Index> {
    if off.None? || |s| < off.value + 4 then None
    else Some(GetLE(s[off.value..off.value + 4]))
  }

  function Sender(s: seq<byte>): Option<Index> {
    FieldAt(s, SenderOffset(TypeOf(s)))
  }

  function Receiver(s: seq<byte>): Option<Index> {
    FieldAt(s, ReceiverOffset(TypeOf(s)))
  }

  function PutAt(s: seq<byte>, off: Option<nat>, v: Index): Option<seq<byte>> {
    if off.None? || |s| < off.value + 4 then None
    else Some(Splice(s, off.value, PutLE(v)))
  }

  function PatchSender(s: seq<byte>, v: Index): Option<seq<byte>> {
    PutAt(s, SenderOffset(TypeOf(s)), v)
  }

  function PatchReceiver(s: seq<byte>, v: Index): Option<seq<byte>> {
    PutAt(s, ReceiverOffset(TypeOf(s)), v)
  }

  /** Which messages have the two fields, and where: initiations and responses a sender at 4; these a receiver at 8, and
      cookie replies and transport messages one at 4. For all others, and for messages too short, it is an error. */
  lemma FieldsExactly(s: seq<byte>, v: Index)
    ensures PatchSender(s, v) ==
            if |s| >= 8 && (s[0] == 1 || s[0] == 2) then Some(s[..4] + PutLE(v) + s[8..]) else None
    ensures PatchReceiver(s, v) ==
            if |s| >= 12 && (s[0] == 1 || s[0] == 2) then Some(s[..8] + PutLE(v) + s[12..])
            else if |s| >= 8 && (s[0] == 3 || s[0] == 4) then Some(s[..4] + PutLE(v) + s[8..]) else None
    ensures Sender(s) == if |s| >= 8 && (s[0] == 1 || s[0] == 2) then Some(GetLE(s[4..8])) else None
    ensures Receiver(s) ==
            if |s| >= 12 && (s[0] == 1 || s[0] == 2) then Some(GetLE(s[8..12]))
            else if |s| >= 8 && (s[0] == 3 || s[0] == 4) then Some(GetLE(s[4..8])) else None
  {
  }

  /** A patched field reads back as patched; the type, the length and every other byte stay. */
  lemma PatchReads(s: seq<byte>, off: nat, v: Index)
    requires 4 <= off && off + 4 <= |s|
    ensures var r := Splice(s, off, PutLE(v));
            && TypeOf(r) == TypeOf(s)
            && FieldAt(r, Some(off)) == Some(v)
            && forall o :: 0 <= o && o + 4 <= |s| && (o + 4 <= off || off + 4 <= o) ==>
                 FieldAt(r, Some(o)) == FieldAt(s, Some(o))
  {
    GetPut(v);
    var r := Splice(s, off, PutLE(v));
    forall o | 0 <= o && o + 4 <= |s| && (o + 4 <= off || off + 4 <= o)
      ensures FieldAt(r, Some(o)) == FieldAt(s, Some(o))
    {
      assert r[o..o + 4] == s[o..o + 4];
    }
  }

  /** Rewriting a field with the value it already holds changes nothing. */
  lemma PatchSame(s: seq<byte>, off: nat, v: Index)
    requires off + 4 <= |s| && FieldAt(s, Some(off)) == Some(v)
    ensures Splice(s, off, PutLE(v)) == s
  {
    PutGet(s[off..off + 4]);
    assert s == s[..off] + s[off..off + 4] + s[off + 4..];
  }

  /** A second write at the same place wins. */
  lemma PatchTwice(s: seq<byte>, off: nat, v: Index, w: Index)
    requires off + 4 <= |s|
    ensures Splice(Splice(s, off, PutLE(v)), off, PutLE(w)) == Splice(s, off, PutLE(w))
  {
  }

  // ---------------------------------------------------------------- message authentication codes

  /** The two 16-byte MACs at the end of a handshake message. */
  type Macs = m: seq<byte> | |m| == 32 witness seq(32, _ => 0)

  /** The foreign cookie generator: the MACs it writes, from the key that initialised it and the message. */
  type MacFunction = (PublicKey, seq<byte>) -> Macs

  function FixMacs(mac: MacFunction, key: PublicKey, s: seq<byte>): (r: seq<byte>)
    requires |s| >= 32
    ensures |r| == |s| && r[..|s| - 32] == s[..|s| - 32]
  {
    s[..|s| - 32] + mac(key, s)
  }

  /** What `handleClientPacket` does to an initiation: patch and fix the MACs only when the index changed. */
  function TranslateInitiation(s: seq<byte>, origin: Index, proxy: Index, mac: MacFunction, key: PublicKey): seq<byte>
    requires |s| >= INITIATION_SIZE
  {
    if origin != proxy then FixMacs(mac, key, Splice(s, 4, PutLE(proxy))) else s
  }

  /** What `handleServerPacket` does to a response: patch both fields when either pair differs. */
  function TranslateResponse(s: seq<byte>, serverOrigin: Index, serverProxy: Index, clientOrigin: Index,
                             clientProxy: Index,
                             mac: MacFunction, key: PublicKey): seq<byte>
    requires |s| >= RESPONSE_SIZE
  {
    if serverOrigin != serverProxy || clientOrigin != clientProxy then
      FixMacs(mac, key, Splice(Splice(s, 4, PutLE(serverProxy)), 8, PutLE(clientOrigin)))
    else s
  }

  /** Skipping the rewrite when the indices agree loses nothing: up to the MACs the result is
      the unconditional rewrite, and an untouched message keeps the MACs its author computed. */
  lemma ConditionalInitiation(s: seq<byte>, origin: Index, proxy: Index, mac: MacFunction, key: PublicKey)
    requires |s| >= INITIATION_SIZE && TypeOf(s) == MESSAGE_INITIATION && Sender(s) == Some(origin)
    ensures var r := TranslateInitiation(s, origin, proxy, mac, key);
            && |r| == |s| && TypeOf(r) == MESSAGE_INITIATION && Sender(r) == Some(proxy)
            && r[..|s| - 32] == Splice(s, 4, PutLE(proxy))[..|s| - 32]
            && (origin == proxy ==> r == s)
  {
    PatchReads(s, 4, proxy);
    var u := Splice(s, 4, PutLE(proxy));
    if origin == proxy {
      PatchSame(s, 4, proxy);
    } else {
      SameFields(FixMacs(mac, key, u), u);
    }
  }

  /** A message that agrees with `w` up to the MACs has the same type and fields. */
  lemma SameFields(r: seq<byte>, w: seq<byte>)
    requires |r| == |w| >= RESPONSE_SIZE && r[..|r| - 32] == w[..|r| - 32]
    ensures TypeOf(r) == TypeOf(w) && Sender(r) == Sender(w) && Receiver(r) == Receiver(w)
  {
    forall i | 0 <= i < 12
      ensures r[i] == w[i]
    {
      assert r[i] == r[..|r| - 32][i] && w[i] == w[..|r| - 32][i];
    }
    assert r[4..8] == w[4..8] && r[8..12] == w[8..12];
  }

  lemma BothPatched(s: seq<byte>, sender: Index, receiver: Index)
    requires |s| >= RESPONSE_SIZE && TypeOf(s) == MESSAGE_RESPONSE
    ensures var w := Splice(Splice(s, 4, PutLE(sender)), 8, PutLE(receiver));
            && |w| == |s| && TypeOf(w) == MESSAGE_RESPONSE && Sender(w) == Some(sender) && Receiver(w) == Some(receiver)
            && w[12..] == s[12..]
  {
    var u := Splice(s, 4, PutLE(sender));
    var w := Splice(u, 8, PutLE(receiver));
    PatchReads(s, 4, sender);
    PatchReads(u, 8, receiver);
    assert w[12..] == u[12..] == s[12..];
    hide FieldAt, Splice, PutLE;
    assert FieldAt(w, Some(4)) == FieldAt(u, Some(4));
  }

  lemma ConditionalResponse(s: seq<byte>, serverOrigin: Index, serverProxy: Index, clientOrigin: Index,
                            clientProxy: Index,
                            mac: MacFunction, key: PublicKey)
    requires |s| >= RESPONSE_SIZE && TypeOf(s) == MESSAGE_RESPONSE
    requires Sender(s) == Some(serverOrigin) && Receiver(s) == Some(clientProxy)
    ensures var r := TranslateResponse(s, serverOrigin, serverProxy, clientOrigin, clientProxy, mac, key);
            && |r| == |s| && TypeOf(r) == MESSAGE_RESPONSE
            && Sender(r) == Some(serverProxy) && Receiver(r) == Some(clientOrigin)
            && r[..|s| - 32] == Splice(Splice(s, 4, PutLE(serverProxy)), 8, PutLE(clientOrigin))[..|s| - 32]
            && (serverOrigin == serverProxy && clientOrigin == clientProxy ==> r == s)
  {
    var w := Splice(Splice(s, 4, PutLE(serverProxy)), 8, PutLE(clientOrigin));
    BothPatched(s, serverProxy, clientOrigin);
    if serverOrigin == serverProxy && clientOrigin == clientProxy {
      PatchSame(s, 4, serverProxy);
      PatchSame(s, 8, clientOrigin);
    } else {
      SameFields(FixMacs(mac, key, w), w);
    }
  }

  /** A rewritten handshake message ends with the MACs that the peer's generator makes for it. */
  lemma RewrittenMacs(s: seq<byte>, serverOrigin: Index, serverProxy: Index, clientOrigin: Index, clientProxy: Index,
                      mac: MacFunction, key: PublicKey)
    ensures |s| >= INITIATION_SIZE && clientOrigin != clientProxy ==>
              TranslateInitiation(s, clientOrigin, clientProxy, mac, key)[|s| - 32..]
              == mac(key, Splice(s, 4, PutLE(clientProxy)))
    ensures |s| >= RESPONSE_SIZE && (serverOrigin != serverProxy || clientOrigin != clientProxy) ==>
              TranslateResponse(s, serverOrigin, serverProxy, clientOrigin, clientProxy, mac, key)[|s| - 32..]
              == mac(key, Splice(Splice(s, 4, PutLE(serverProxy)), 8, PutLE(clientOrigin)))
  {
  }

  // ---------------------------------------------------------------- the packet buffer

  datatype Flag = DeobfuscatedAfterReceived | ObfuscateBeforeSend

  class Packet {
    const data: array<byte>
    var length: nat
    var source: Option<Addr>
    var destination: Option<Addr>
    var flags: set<Flag>

    constructor (size: nat)
      ensures data.Length == size && fresh(data)
      ensures length == 0 && source == None && destination == None && flags == {}
    {
      data := new byte[size];
      length, source, destination, flags := 0, None, None, {};
    }

    ghost predicate Valid()
      reads this
    {
      length <= data.Length
    }

    /** The message the packet carries. */
    ghost function Slice(): seq<byte>
      requires Valid()
      reads this, data
    {
      data[..length]
    }

    method Reset()
      modifies this
      ensures Valid() && length == 0 && source == None && destination == None && flags == {}
    {
      length := 0;
      source := None;
      destination := None;
      flags := {};
    }

    method MessageType() returns (t: int)
      requires Valid()
      ensures t == TypeOf(Slice())
    {
      if length < 1 {
        return -1;
      }
      t := data[0] as int;
    }

    method GetLEUint32Offset(off: nat) returns (r: Option<Index>)
      requires Valid()
      ensures r == FieldAt(Slice(), Some(off))
    {
      if length < off + 4 {
        return None;
      }
      assert Slice()[off..off + 4] == data[off..off + 4];
      r := Some(GetLE(data[off..off + 4]));
    }

    method PutLEUint32Offset(off: nat, v: Index) returns (ok: bool)
      requires Valid()
      modifies data
      ensures ok == PutAt(old(Slice()), Some(off), v).Some?
      ensures Slice() == if ok then PutAt(old(Slice()), Some(off), v).value else old(Slice())
      ensures data[length..] == old(data[length..])
    {
      if length < off + 4 {
        return false;
      }
      var four := PutLE(v);
      ghost var was := Slice();
      data[off], data[off + 1], data[off + 2], data[off + 3] := four[0], four[1], four[2], four[3];
      assert Slice() == Splice(was, off, four);
      ok := true;
    }

    method ReceiverIndex() returns (r: Option<Index>)
      requires Valid()
      ensures r == Receiver(Slice())
    {
      var t := MessageType();
      if t == MESSAGE_INITIATION || t == MESSAGE_RESPONSE {
        r := GetLEUint32Offset(8);
      } else if t == MESSAGE_COOKIE_REPLY || t == MESSAGE_TRANSPORT {
        r := GetLEUint32Offset(4);
      } else {
        r := None;
      }
    }

    method SetSenderIndex(v: Index) returns (ok: bool)
      requires Valid()
      modifies data
      ensures ok == PatchSender(old(Slice()), v).Some?
      ensures Slice() == if ok then PatchSender(old(Slice()), v).value else old(Slice())
      ensures data[length..] == old(data[length..])
    {
      var t := MessageType();
      if t == MESSAGE_INITIATION || t == MESSAGE_RESPONSE {
        ok := PutLEUint32Offset(4, v);
      } else {
        ok := false;
      }
    }

    method SetReceiverIndex(v: Index) returns (ok: bool)
      requires Valid()
      modifies data
      ensures ok == PatchReceiver(old(Slice()), v).Some?
      ensures Slice() == if ok then PatchReceiver(old(Slice()), v).value else old(Slice())
      ensures data[length..] == old(data[length..])
    {
      var t := MessageType();
      if t == MESSAGE_INITIATION || t == MESSAGE_RESPONSE {
        ok := PutLEUint32Offset(8, v);
      } else if t == MESSAGE_COOKIE_REPLY || t == MESSAGE_TRANSPORT {
        ok := PutLEUint32Offset(4, v);
      } else {
        ok := false;
      }
    }

    method FixMACs(mac: MacFunction, key: PublicKey)
      requires Valid() && length >= 32
      modifies data
      ensures Slice() == FixMacs(mac, key, old(Slice()))
      ensures data[length..] == old(data[length..])
    {
      var m := mac(key, data[..length]);
      var i := 0;
      while i < 32
        invariant 0 <= i <= 32
        invariant forall k :: 0 <= k < data.Length ==>
          data[k] == if length - 32 <= k < length - 32 + i then m[k - (length - 32)] else old(data[k])
      {
        data[length - 32 + i] := m[i];
        i := i + 1;
      }
      assert Slice() == FixMacs(mac, key, old(Slice()));
    }
  }
}
