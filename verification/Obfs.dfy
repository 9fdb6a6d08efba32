/** The in-place packet obfuscator (obfs.go). */
module Obfs {
  import opened Bytes
  import opened Packets

  const RANDOM_SUFFIX_MAX := 384
  const SUFFIX_AS_NONCE_MIN := 256
  const NONCE_LENGTH := 16
  const XOR_KEY_LENGTH := 8
  const INITIATION_MAC2_OFFSET := 132
  const RESPONSE_MAC2_OFFSET := 76

  /** What the decoder may write to, whatever it receives. */
  const BUFFER_MIN := INITIATION_SIZE

  /** One 8-byte block of keystream. */
  type Mask = m: seq<byte> | |m| == 8 witness seq(8, _ => 0)

  /** The foreign 64-bit hash, as a function of all the bytes written to the digest. */
  type Hash = seq<byte> -> Mask

  // ---------------------------------------------------------------- keystream

  /** `n` copies of the user key hash: what the digest has absorbed after the nonce. */
  function Repeat(k: seq<byte>, n: nat): seq<byte> {
    if n == 0 then [] else Repeat(k, n - 1) + k
  }

  predicate NeedsFix(m: Mask) {
    m[0] & 0xF8 == 0 && m[1] & 0xFE == 0
  }

  function FixMask(m: Mask): Mask {
    if NeedsFix(m) then m[0 := m[0] | 0xD7][1 := m[1] | 0x69] else m
  }

  /** The mask for block `n` (counted from 0) of a packet whose nonce is `nonce`. */
  function BlockMask(hash: Hash, key: seq<byte>, nonce: seq<byte>, n: nat): Mask {
    var m := hash(nonce + Repeat(key, n + 1));
    if n == 0 then FixMask(m) else m
  }

  function KeyByte(hash: Hash, key: seq<byte>, nonce: seq<byte>, i: nat): byte {
    BlockMask(hash, key, nonce, i / 8)[i % 8]
  }

  /** The first `part` bytes of `d` xored with the keystream of `nonce`, the rest kept. */
  function Masked(hash: Hash, key: seq<byte>, nonce: seq<byte>, d: seq<byte>, part: nat): (r: seq<byte>)
    ensures |r| == |d|
  {
    seq(|d|, i requires 0 <= i < |d| => if i < part then d[i] ^ KeyByte(hash, key, nonce, i) else d[i])
  }

  // ---------------------------------------------------------------- what the two directions compute

  predicate AllZero(s: seq<byte>) {
    forall i :: 0 <= i < |s| ==> s[i] == 0
  }

  /** How a packet will be obfuscated: its new length, how many leading bytes are masked,
      whether byte 1 is set to 1, and from where on random bytes are written. */
  datatype Plan = Plan(length: nat, part: nat, flagged: bool, fillFrom: nat)

  /** How long a message of type `t` and length `len` becomes. */
  function Room(t: int, len: nat, r: nat): nat {
    var pad := NONCE_LENGTH + r % RANDOM_SUFFIX_MAX;
    if t == MESSAGE_INITIATION then INITIATION_SIZE + pad
    else if t == MESSAGE_RESPONSE then RESPONSE_SIZE + pad
    else if t == MESSAGE_COOKIE_REPLY then COOKIE_REPLY_SIZE + pad
    else if t == MESSAGE_TRANSPORT && len < SUFFIX_AS_NONCE_MIN then len + NONCE_LENGTH
    else len
  }

  /** The buffer has room for it. */
  predicate Fits(d: seq<byte>, len: nat, r: nat) {
    len <= |d| && Room(TypeOf(d[..len]), len, r) <= |d|
  }

  /** The plan for a buffer `d` holding a message of length `len`; `r` is the random number drawn for padding. */
  function PlanOf(d: seq<byte>, len: nat, r: nat): (p: Option<Plan>)
    requires Fits(d, len, r)
    ensures p.Some? ==> NONCE_LENGTH < p.value.length <= |d| && p.value.part <= |d|
  {
    var pad := NONCE_LENGTH + r % RANDOM_SUFFIX_MAX;
    var t := TypeOf(d[..len]);
    if t == MESSAGE_INITIATION then
      var elide := AllZero(d[INITIATION_MAC2_OFFSET..INITIATION_SIZE]);
      var part := if elide then INITIATION_MAC2_OFFSET else INITIATION_SIZE;
      Some(Plan(INITIATION_SIZE + pad, part, elide, part))
    else if t == MESSAGE_RESPONSE then
      var elide := AllZero(d[RESPONSE_MAC2_OFFSET..RESPONSE_SIZE]);
      var part := if elide then RESPONSE_MAC2_OFFSET else RESPONSE_SIZE;
      Some(Plan(RESPONSE_SIZE + pad, part, elide, part))
    else if t == MESSAGE_COOKIE_REPLY then
      Some(Plan(COOKIE_REPLY_SIZE + pad, COOKIE_REPLY_SIZE, false, COOKIE_REPLY_SIZE))
    else if t == MESSAGE_TRANSPORT then
      if len < SUFFIX_AS_NONCE_MIN then Some(Plan(len + NONCE_LENGTH, TRANSPORT_HEADER_SIZE, true, len))
      else Some(Plan(len, TRANSPORT_HEADER_SIZE, false, len))
    else None
  }

  /** A random source: the byte it would write at each position of the buffer. */
  type Random = nat -> byte

  /** The buffer after the flag byte and the random bytes are written, before masking. */
  function Prepared(d: seq<byte>, p: Plan, fill: Random): (r: seq<byte>)
    ensures |r| == |d|
  {
    seq(|d|, i requires 0 <= i < |d| =>
      if p.fillFrom <= i < p.length then fill(i) else if i == 1 && p.flagged then 1 else d[i])
  }

  datatype Buffer = Buffer(data: seq<byte>, length: nat)

  predicate ValidBuffer(b: Buffer) {
    b.length <= |b.data| && BUFFER_MIN <= |b.data|
  }

  /** The message a buffer holds. */
  function Message(b: Buffer): seq<byte>
    requires b.length <= |b.data|
  {
    b.data[..b.length]
  }

  function Obfuscated(hash: Hash, key: seq<byte>, b: Buffer, r: nat, fill: Random): (o: Buffer)
    requires Fits(b.data, b.length, r)
    ensures o.length <= |o.data| == |b.data|
  {
    match PlanOf(b.data, b.length, r)
    case None => b
    case Some(p) =>
      var d := Prepared(b.data, p, fill);
      Buffer(Masked(hash, key, d[p.length - NONCE_LENGTH..p.length], d, p.part), p.length)
  }

  /** The receiver's test for a packet that was never obfuscated. */
  predicate LooksPlain(d: seq<byte>)
    requires |d| >= 4
  {
    1 <= d[0] <= 4 && d[1] == 0 && d[2] == 0 && d[3] == 0
  }

  /** What the first decoded block says about the rest: final length, masked bytes, and the range to zero. */
  datatype Shape = Shape(length: nat, part: nat, zeroFrom: nat)

  function ShapeOf(t: int, flagged: bool, len: nat): (sh: Option<Shape>)
    requires len >= MIN_MESSAGE_SIZE
    ensures sh.Some? ==> XOR_KEY_LENGTH <= sh.value.part <= sh.value.zeroFrom && sh.value.part <= INITIATION_SIZE
  {
    if t == MESSAGE_INITIATION then
      var part := if flagged then INITIATION_MAC2_OFFSET else INITIATION_SIZE;
      Some(Shape(INITIATION_SIZE, part, part))
    else if t == MESSAGE_RESPONSE then
      var part := if flagged then RESPONSE_MAC2_OFFSET else RESPONSE_SIZE;
      Some(Shape(RESPONSE_SIZE, part, part))
    else if t == MESSAGE_COOKIE_REPLY then
      Some(Shape(COOKIE_REPLY_SIZE, COOKIE_REPLY_SIZE, COOKIE_REPLY_SIZE))
    else if t == MESSAGE_TRANSPORT then
      var l := if flagged then len - NONCE_LENGTH else len;
      Some(Shape(l, TRANSPORT_HEADER_SIZE, l))
    else None
  }

  /** A buffer of `n` bytes is long enough to hold a message of type `t`. */
  predicate Writable(t: int, n: nat) {
    && (t == MESSAGE_INITIATION ==> n >= INITIATION_SIZE)
    && (t == MESSAGE_RESPONSE ==> n >= RESPONSE_SIZE)
    && (t == MESSAGE_COOKIE_REPLY ==> n >= COOKIE_REPLY_SIZE)
  }

  /** The decoded buffer and whether the packet is marked as deobfuscated. */
  function Deobfuscated(hash: Hash, key: seq<byte>, b: Buffer): (r: (Buffer, bool))
    requires ValidBuffer(b)
    ensures ValidBuffer(r.0)
  {
    if b.length < MIN_MESSAGE_SIZE || LooksPlain(b.data) then (b, false) else
    var nonce := b.data[b.length - NONCE_LENGTH..b.length];
    var head := Masked(hash, key, nonce, b.data, XOR_KEY_LENGTH);
    var t := head[0] as int;
    var flagged := t != MESSAGE_COOKIE_REPLY && head[1] == 1;
    match ShapeOf(t, flagged, b.length)
    case None => (Buffer(head, b.length), false)
    case Some(sh) =>
      var d := Masked(hash, key, nonce, b.data, sh.part);
      (Buffer(Cleared(d, sh, flagged), sh.length), true)
  }

  /** Byte 1 and the elided MAC2 of a flagged packet are set back to zero. */
  function Cleared(d: seq<byte>, sh: Shape, flagged: bool): (r: seq<byte>)
    ensures |r| == |d|
  {
    seq(|d|, i requires 0 <= i < |d| =>
      if flagged && (i == 1 || sh.zeroFrom <= i < sh.length) then 0 else d[i])
  }

  // ---------------------------------------------------------------- header separation

  /** Could an obfuscated header, masked with `m`, be taken for a plain one? Types are 1..4 and the flag byte 0 or 1. */
  ghost predicate Collides(m: Mask) {
    exists t: byte, f: byte :: 1 <= t <= 4 && f <= 1 && Collision(m, t, f)
  }

  predicate Collision(m: Mask, t: byte, f: byte) {
    1 <= t ^ m[0] <= 4 && f ^ m[1] == 0
  }

  /** After the fix-up no type and flag collide, whatever the hash returned. */
  lemma HeaderSeparation(m: Mask)
    ensures !Collides(FixMask(m))
  {
    forall t: byte, f: byte | 1 <= t <= 4 && f <= 1
      ensures !Collision(FixMask(m), t, f)
    {
    }
  }

  /** The fix-up is applied to exactly the masks that need it, and to those that start with byte 4. */
  lemma FixIsTight(m: Mask)
    ensures NeedsFix(m) <==> Collides(m) || (m[0] == 4 && m[1] <= 1)
    ensures m[0] == 4 && m[1] <= 1 ==> !Collides(m)
  {
    if NeedsFix(m) && m[0] != 4 {
      var t: byte := if m[0] == 0 then 1 else if m[0] == 1 then 2 else if m[0] == 2 then 1 else if m[0] == 3 then 1
                     else if m[0] == 5 then 1 else if m[0] == 6 then 2 else 3;
      assert Collision(m, t, m[1]);
    }
    if Collides(m) {
      var t: byte, f: byte :| 1 <= t <= 4 && f <= 1 && Collision(m, t, f);
    }
  }

  // ---------------------------------------------------------------- round trip

  /** The packets that survive an obfuscated trip whatever the keystream and the random bytes are. */
  predicate Restorable(b: Buffer)
    requires ValidBuffer(b)
  {
    var t := TypeOf(Message(b));
    if t == MESSAGE_INITIATION then b.length == INITIATION_SIZE && b.data[1] == 0
    else if t == MESSAGE_RESPONSE then b.length == RESPONSE_SIZE && b.data[1] == 0
    else if t == MESSAGE_COOKIE_REPLY then b.length == COOKIE_REPLY_SIZE && b.data[1] <= 1
    else if t == MESSAGE_TRANSPORT then b.length >= TRANSPORT_HEADER_SIZE && b.data[1] == 0
    else b.length < MIN_MESSAGE_SIZE
  }

  predicate RoundTrips(hash: Hash, key: seq<byte>, b: Buffer, r: nat, fill: Random)
    requires ValidBuffer(b) && Fits(b.data, b.length, r)
  {
    var (d, _) := Deobfuscated(hash, key, Obfuscated(hash, key, b, r, fill));
    Message(d) == Message(b)
  }

  /** The nonce lies beyond the masked bytes, so both ends read the same one. */
  lemma NonceSurvives(hash: Hash, key: seq<byte>, b: Buffer, r: nat, fill: Random)
    requires ValidBuffer(b) && Fits(b.data, b.length, r) && PlanOf(b.data, b.length, r).Some?
    requires TypeOf(Message(b)) == MESSAGE_TRANSPORT ==> b.length >= TRANSPORT_HEADER_SIZE
    ensures var p := PlanOf(b.data, b.length, r).value;
            var o := Obfuscated(hash, key, b, r, fill);
            && p.part <= p.length - NONCE_LENGTH && MIN_MESSAGE_SIZE <= p.length <= |b.data|
            && o.data[p.length - NONCE_LENGTH..p.length]
               == Prepared(b.data, p, fill)[p.length - NONCE_LENGTH..p.length]
  {
  }

  /** Unmasking with the same nonce gives the prepared buffer back, byte by byte. */
  lemma Unmask(hash: Hash, key: seq<byte>, nonce: seq<byte>, d: seq<byte>, part: nat, part': nat)
    requires part' <= part
    ensures var r := Masked(hash, key, nonce, Masked(hash, key, nonce, d, part), part');
            forall i :: 0 <= i < |d| && (i < part' || part <= i) ==> r[i] == d[i]
  {
    forall i | 0 <= i < |d| && i < part'
      ensures (d[i] ^ KeyByte(hash, key, nonce, i)) ^ KeyByte(hash, key, nonce, i) == d[i]
    {
      XorCancels(d[i], KeyByte(hash, key, nonce, i));
    }
  }

  /** An obfuscated packet of a known type whose flag byte is 0 or 1 never looks plain. */
  lemma NotMistakenForPlain(hash: Hash, key: seq<byte>, nonce: seq<byte>, d: seq<byte>, part: nat)
    requires |d| >= 8 && part >= 8 && 1 <= d[0] <= 4 && d[1] <= 1
    ensures !LooksPlain(Masked(hash, key, nonce, d, part))
  {
    var m := BlockMask(hash, key, nonce, 0);
    HeaderSeparation(hash(nonce + Repeat(key, 1)));
    var e := Masked(hash, key, nonce, d, part);
    assert e[0] == d[0] ^ m[0] && e[1] == d[1] ^ m[1];
    assert !Collision(m, d[0], d[1]);
  }

  /** Decoding a masked buffer: the decoder finds the nonce, the type, the flag and the extent again,
      and is left with the prepared buffer, cleared. */
  lemma Decodes(hash: Hash, key: seq<byte>, d: seq<byte>, len: nat, part: nat)
    requires BUFFER_MIN <= |d| && MIN_MESSAGE_SIZE <= len <= |d|
    requires XOR_KEY_LENGTH <= part <= len - NONCE_LENGTH
    requires 1 <= d[0] <= 4 && d[1] <= 1
    requires ShapeOf(d[0] as int, d[0] != 3 && d[1] == 1, len).value.part == part
    ensures var nonce := d[len - NONCE_LENGTH..len];
            var flagged := d[0] != 3 && d[1] == 1;
            var sh := ShapeOf(d[0] as int, flagged, len).value;
            Deobfuscated(hash, key, Buffer(Masked(hash, key, nonce, d, part), len))
            == (Buffer(Cleared(d, sh, flagged), sh.length), true)
  {
    var nonce := d[len - NONCE_LENGTH..len];
    var e := Masked(hash, key, nonce, d, part);
    NotMistakenForPlain(hash, key, nonce, d, part);
    MaskedTail(hash, key, nonce, d, part, len);
    Unmask(hash, key, nonce, d, part, XOR_KEY_LENGTH);
    Unmask(hash, key, nonce, d, part, part);
    assert Masked(hash, key, nonce, e, part) == d;
  }

  /** The decoder's shape undoes the encoder's plan. */
  lemma PlanMatchesShape(b: Buffer, r: nat, fill: Random)
    requires ValidBuffer(b) && Fits(b.data, b.length, r) && Restorable(b) && 1 <= TypeOf(Message(b)) <= 4
    ensures PlanOf(b.data, b.length, r).Some?
    ensures var p := PlanOf(b.data, b.length, r).value;
            var d := Prepared(b.data, p, fill);
            var flagged := d[0] != 3 && d[1] == 1;
            && MIN_MESSAGE_SIZE <= p.length <= |b.data| && XOR_KEY_LENGTH <= p.part <= p.length - NONCE_LENGTH
            && d[0] == b.data[0] && d[1] <= 1
            && ShapeOf(d[0] as int, flagged, p.length).Some?
            && var sh := ShapeOf(d[0] as int, flagged, p.length).value;
               sh.part == p.part && sh.length == b.length && Cleared(d, sh, flagged)[..b.length] == Message(b)
  {
    var p := PlanOf(b.data, b.length, r).value;
    var d := Prepared(b.data, p, fill);
    assert d[1] == if p.flagged then 1 else b.data[1];
  }

  /** The parts of `Obfuscated`, put together. */
  lemma ObfuscatedAs(hash: Hash, key: seq<byte>, b: Buffer, r: nat, fill: Random, p: Plan, d: seq<byte>)
    requires Fits(b.data, b.length, r) && PlanOf(b.data, b.length, r) == Some(p) && d == Prepared(b.data, p, fill)
    ensures Obfuscated(hash, key, b, r, fill)
            == Buffer(Masked(hash, key, d[p.length - NONCE_LENGTH..p.length], d, p.part), p.length)
  {
  }

  lemma RoundTripDecodes(hash: Hash, key: seq<byte>, b: Buffer, r: nat, fill: Random)
    requires ValidBuffer(b) && Fits(b.data, b.length, r) && Restorable(b) && 1 <= TypeOf(Message(b)) <= 4
    ensures var (e, marked) := Deobfuscated(hash, key, Obfuscated(hash, key, b, r, fill));
            marked && e.length == b.length && e.data[..b.length] == Message(b)
  {
    assert b.length <= |b.data| && BUFFER_MIN <= |b.data|;
    hide *;
    PlanMatchesShape(b, r, fill);
    var p := PlanOf(b.data, b.length, r).value;
    var d := Prepared(b.data, p, fill);
    ObfuscatedAs(hash, key, b, r, fill, p, d);
    Decodes(hash, key, d, p.length, p.part);
  }

  /** Decoding what was encoded restores the message and marks the packet. */
  lemma RoundTrip(hash: Hash, key: seq<byte>, b: Buffer, r: nat, fill: Random)
    requires ValidBuffer(b) && Fits(b.data, b.length, r) && Restorable(b)
    ensures RoundTrips(hash, key, b, r, fill)
    ensures Deobfuscated(hash, key, Obfuscated(hash, key, b, r, fill)).1 == (1 <= TypeOf(Message(b)) <= 4)
  {
    if 1 <= TypeOf(Message(b)) <= 4 {
      RoundTripDecodes(hash, key, b, r, fill);
      hide Deobfuscated, Obfuscated;
    }
  }

  // ---------------------------------------------------------------- what is on the wire

  function Xor(x: byte, k: byte): byte {
    x ^ k
  }

  /** The fix-up gives every mask it applies to the same two bytes. */
  lemma FixMaskExactly(m: Mask)
    ensures FixMask(m) == if m[0] < 8 && m[1] < 2 then [0xD7, 0x69] + m[2..] else m
  {
    assert m[0] & 0xF8 == 0 <==> m[0] < 8;
    assert m[1] & 0xFE == 0 <==> m[1] < 2;
    assert m[0] < 8 ==> m[0] | 0xD7 == 0xD7;
    assert m[1] < 2 ==> m[1] | 0x69 == 0x69;
  }

  /** `Repeat` is repetition: none, one, and the sum of two are what they should be. */
  lemma {:induction false} RepeatSum(k: seq<byte>, m: nat, n: nat)
    ensures Repeat(k, 0) == [] && Repeat(k, 1) == k && Repeat(k, m + n) == Repeat(k, m) + Repeat(k, n)
  {
    if n > 0 {
      RepeatSum(k, m, n - 1);
    }
  }

  /** Block `n` is masked with the hash of the nonce and `n + 1` copies of the key; the first block's is fixed up. */
  lemma KeystreamExactly(hash: Hash, key: seq<byte>, nonce: seq<byte>, i: nat)
    ensures KeyByte(hash, key, nonce, i) ==
            if i < 8 then FixMask(hash(nonce + key))[i] else hash(nonce + Repeat(key, i / 8 + 1))[i % 8]
  {
    assert Repeat(key, 1) == key;
  }

  /** Every byte of an obfuscated packet, by type. Of an initiation 148 bytes are masked, of a response 92, of a cookie
      reply 64 and of a transport message 16; an all-zero MAC2 is left out of that, and told by a 1 in byte 1, as is
      a transport message below 256 bytes. Handshake messages are followed by 16 to 399 random bytes, short transport
      messages by 16, and the last 16 bytes before masking are the nonce. */
  lemma ObfuscatedExactly(hash: Hash, key: seq<byte>, b: Buffer, r: nat, fill: Random, i: nat)
    requires Fits(b.data, b.length, r) && b.length >= 1 && 1 <= b.data[0] <= 4 && i < |b.data|
    ensures var o := Obfuscated(hash, key, b, r, fill);
            var t := b.data[0];
            var zero := (t == 1 && forall j :: 132 <= j < 148 ==> b.data[j] == 0)
                        || (t == 2 && forall j :: 76 <= j < 92 ==> b.data[j] == 0);
            var part := if t == 1 then (if zero then 132 else 148) else if t == 2 then (if zero then 76 else 92)
                        else if t == 3 then 64 else 16;
            var flagged := zero || (t == 4 && b.length < 256);
            var from := if t < 4 then part else b.length;
            && o.length == (if t == 1 then 164 + r % 384 else if t == 2 then 108 + r % 384
                            else if t == 3 then 80 + r % 384 else if b.length < 256 then b.length + 16 else b.length)
            && |o.data| == |b.data|
            && var plain := if from <= i < o.length then fill(i) else if i == 1 && flagged then 1 else b.data[i];
               var nonce := NonceOf(b, o.length, fill);
               o.data[i] ==
               if i >= part then plain
               else if i < 8 then Xor(plain, FixMask(hash(nonce + key))[i])
               else Xor(plain, hash(nonce + Repeat(key, i / 8 + 1))[i % 8])
  {
    PlanExactly(b, r);
    var p := PlanOf(b.data, b.length, r).value;
    WireByte(hash, key, b, r, fill, p, i);
    NonceExactly(b, p, fill);
    hide *;
  }

  /** The 16 bytes that end the packet before it is masked: random ones, but for a long transport message. */
  function NonceOf(b: Buffer, len: nat, fill: Random): seq<byte>
    requires 16 <= len <= |b.data|
  {
    seq(16, j requires 0 <= j < 16 =>
      if b.data[0] == 4 && b.length >= 256 then b.data[len - 16 + j] else fill(len - 16 + j))
  }

  lemma NonceExactly(b: Buffer, p: Plan, fill: Random)
    requires 16 < p.length <= |b.data| && (p.fillFrom <= p.length - 16 || (p.fillFrom == p.length && !p.flagged))
    requires p.fillFrom == p.length <==> b.data[0] == 4 && b.length >= 256
    ensures Prepared(b.data, p, fill)[p.length - 16..p.length] == NonceOf(b, p.length, fill)
  {
  }

  /** A byte on the wire, by plan. */
  lemma WireByte(hash: Hash, key: seq<byte>, b: Buffer, r: nat, fill: Random, p: Plan, i: nat)
    requires Fits(b.data, b.length, r) && PlanOf(b.data, b.length, r) == Some(p) && i < |b.data|
    ensures 16 < p.length <= |b.data|
    ensures var o := Obfuscated(hash, key, b, r, fill);
            var plain := if p.fillFrom <= i < p.length then fill(i) else if i == 1 && p.flagged then 1 else b.data[i];
            var nonce := Prepared(b.data, p, fill)[p.length - 16..p.length];
            && o.length == p.length && |o.data| == |b.data|
            && o.data[i] ==
               if i >= p.part then plain
               else if i < 8 then Xor(plain, FixMask(hash(nonce + key))[i])
               else Xor(plain, hash(nonce + Repeat(key, i / 8 + 1))[i % 8])
  {
    var d := Prepared(b.data, p, fill);
    ObfuscatedAs(hash, key, b, r, fill, p, d);
    var nonce := d[p.length - NONCE_LENGTH..p.length];
    KeystreamExactly(hash, key, nonce, i);
    MaskedExactly(hash, key, nonce, d, p.part, i);
    assert d[i] == if p.fillFrom <= i < p.length then fill(i) else if i == 1 && p.flagged then 1 else b.data[i];
    hide *;
  }

  lemma MaskedExactly(hash: Hash, key: seq<byte>, nonce: seq<byte>, d: seq<byte>, part: nat, i: nat)
    requires i < |d|
    ensures Masked(hash, key, nonce, d, part)[i] == if i < part then Xor(d[i], KeyByte(hash, key, nonce, i)) else d[i]
  {
    hide KeyByte;
  }

  lemma MaskedTail(hash: Hash, key: seq<byte>, nonce: seq<byte>, d: seq<byte>, part: nat, len: nat)
    requires part + 16 <= len <= |d|
    ensures Masked(hash, key, nonce, d, part)[len - 16..len] == d[len - 16..len]
  {
    hide KeyByte;
  }

  /** And every byte of a decoded one, whoever sent it. The first two bytes tell the type, and whether MAC2 was left out
      or 16 bytes were added; a packet that decodes to no known type is left with its first block decoded, unmarked. */
  lemma DeobfuscatedExactly(hash: Hash, key: seq<byte>, b: Buffer, i: nat)
    requires ValidBuffer(b) && b.length >= MIN_MESSAGE_SIZE && !LooksPlain(b.data) && i < |b.data|
    ensures var (o, marked) := Deobfuscated(hash, key, b);
            var nonce := b.data[b.length - 16..b.length];
            var m := FixMask(hash(nonce + key));
            var t, flagged := Xor(b.data[0], m[0]), Xor(b.data[1], m[1]) == 1 && Xor(b.data[0], m[0]) != 3;
            var part := if t == 1 then (if flagged then 132 else 148) else if t == 2 then (if flagged then 76 else 92)
                        else if t == 3 then 64 else if t == 4 then 16 else 8;
            && marked == (1 <= t <= 4)
            && o.length == (if t == 1 then 148 else if t == 2 then 92 else if t == 3 then 64
                            else if t == 4 && flagged then b.length - 16 else b.length)
            && |o.data| == |b.data|
            && o.data[i] ==
               if 1 <= t <= 4 && flagged && (i == 1 || (t == 1 && 132 <= i < 148) || (t == 2 && 76 <= i < 92)) then 0
               else if i >= part then b.data[i]
               else if i < 8 then Xor(b.data[i], m[i])
               else Xor(b.data[i], hash(nonce + Repeat(key, i / 8 + 1))[i % 8])
  {
    var nonce := b.data[b.length - 16..b.length];
    var head := Masked(hash, key, nonce, b.data, XOR_KEY_LENGTH);
    hide *;
    MaskedExactly(hash, key, nonce, b.data, XOR_KEY_LENGTH, 0);
    MaskedExactly(hash, key, nonce, b.data, XOR_KEY_LENGTH, 1);
    KeystreamExactly(hash, key, nonce, 0);
    KeystreamExactly(hash, key, nonce, 1);
    KeystreamExactly(hash, key, nonce, i);
    var flagged := head[0] as int != MESSAGE_COOKIE_REPLY && head[1] == 1;
    ShapeExactly(head[0], flagged, b.length);
    DecodedByte(hash, key, b, head, flagged, ShapeOf(head[0] as int, flagged, b.length), i);
  }

  /** A decoded byte, by shape. */
  lemma DecodedByte(hash: Hash, key: seq<byte>, b: Buffer, head: seq<byte>, flagged: bool, sh: Option<Shape>, i: nat)
    requires ValidBuffer(b) && b.length >= MIN_MESSAGE_SIZE && !LooksPlain(b.data) && i < |b.data|
    requires head == Masked(hash, key, b.data[b.length - NONCE_LENGTH..b.length], b.data, XOR_KEY_LENGTH)
    requires flagged == (head[0] as int != MESSAGE_COOKIE_REPLY && head[1] == 1)
    requires sh == ShapeOf(head[0] as int, flagged, b.length)
    ensures var (o, marked) := Deobfuscated(hash, key, b);
            var x := Xor(b.data[i], KeyByte(hash, key, b.data[b.length - NONCE_LENGTH..b.length], i));
            && marked == sh.Some? && |o.data| == |b.data|
            && o.length == (if sh.Some? then sh.value.length else b.length)
            && o.data[i] ==
               if sh.None? then (if i < 8 then x else b.data[i])
               else if flagged && (i == 1 || sh.value.zeroFrom <= i < sh.value.length) then 0
               else if i < sh.value.part then x
               else b.data[i]
  {
    var nonce := b.data[b.length - NONCE_LENGTH..b.length];
    hide Masked, KeyByte, Deobfuscated, LooksPlain, Xor, Cleared, ShapeOf;
    DeobfuscatedAs(hash, key, b, head, flagged, sh);
    if sh.Some? {
      MaskedExactly(hash, key, nonce, b.data, sh.value.part, i);
      ClearedExactly(Masked(hash, key, nonce, b.data, sh.value.part), sh.value, flagged, i);
    } else {
      MaskedExactly(hash, key, nonce, b.data, XOR_KEY_LENGTH, i);
    }
  }

  lemma ShapeExactly(t: byte, flagged: bool, len: nat)
    requires len >= MIN_MESSAGE_SIZE
    ensures t as int == MESSAGE_COOKIE_REPLY <==> t == 3
    ensures var sh := ShapeOf(t as int, flagged, len);
            && sh.Some? == (1 <= t <= 4)
            && (t == 1 ==> sh == Some(if flagged then Shape(148, 132, 132) else Shape(148, 148, 148)))
            && (t == 2 ==> sh == Some(if flagged then Shape(92, 76, 76) else Shape(92, 92, 92)))
            && (t == 3 ==> sh == Some(Shape(64, 64, 64)))
            && (t == 4 ==> sh == Some(if flagged then Shape(len - 16, 16, len - 16) else Shape(len, 16, len)))
  {
  }

  lemma ClearedExactly(d: seq<byte>, sh: Shape, flagged: bool, i: nat)
    requires i < |d|
    ensures Cleared(d, sh, flagged)[i] == if flagged && (i == 1 || sh.zeroFrom <= i < sh.length) then 0 else d[i]
  {
  }

  /** The plan of a packet of a known type, written out. */
  lemma PlanExactly(b: Buffer, r: nat)
    requires Fits(b.data, b.length, r) && b.length >= 1 && 1 <= b.data[0] <= 4
    ensures PlanOf(b.data, b.length, r).Some?
    ensures var p := PlanOf(b.data, b.length, r).value;
            var t := b.data[0];
            var zero := (t == 1 && forall j :: 132 <= j < 148 ==> b.data[j] == 0)
                        || (t == 2 && forall j :: 76 <= j < 92 ==> b.data[j] == 0);
            && p.part == (if t == 1 then (if zero then 132 else 148) else if t == 2 then (if zero then 76 else 92)
                          else if t == 3 then 64 else 16)
            && p.length == (if t == 1 then 164 + r % 384 else if t == 2 then 108 + r % 384
                            else if t == 3 then 80 + r % 384 else if b.length < 256 then b.length + 16 else b.length)
            && p.fillFrom == (if t < 4 then p.part else b.length) && 16 < p.length <= |b.data|
            && (p.flagged <==> zero || (t == 4 && b.length < 256))
            && (p.fillFrom <= p.length - 16 || (p.fillFrom == p.length && !p.flagged))
            && (p.fillFrom == p.length <==> t == 4 && b.length >= 256)
  {
    ElidedExactly(b.data);
  }

  lemma ElidedExactly(d: seq<byte>)
    ensures |d| >= 148 ==> (AllZero(d[132..148]) <==> forall j :: 132 <= j < 148 ==> d[j] == 0)
    ensures |d| >= 92 ==> (AllZero(d[76..92]) <==> forall j :: 76 <= j < 92 ==> d[j] == 0)
  {
    assert |d| >= 148 ==> forall j :: 132 <= j < 148 ==> d[j] == d[132..148][j - 132];
    assert |d| >= 92 ==> forall j :: 76 <= j < 92 ==> d[j] == d[76..92][j - 76];
  }

  // ---------------------------------------------------------------- the round trip fails everywhere else

  function Constant(m: Mask): Hash {
    _ => m
  }

  /** A mask that leaves the type byte alone and cannot make byte 1, now `f`, vanish. */
  function Revealing(f: byte): Mask {
    [0, if f == 0x80 then 0x40 else 0x80, 0, 0, 0, 0, 0, 0]
  }

  /** A mask under which a header with a flag byte above 1 looks plain. */
  function Hiding(d: seq<byte>): Mask
    requires |d| >= 4
  {
    [0, d[1], d[2], d[3], 0, 0, 0, 0]
  }

  lemma ConstantHead(m: Mask, key: seq<byte>, nonce: seq<byte>, d: seq<byte>, part: nat)
    requires |d| >= 4 && part >= 4 && !NeedsFix(m)
    ensures var e := Masked(Constant(m), key, nonce, d, part);
            forall i :: 0 <= i < 4 ==> e[i] == d[i] ^ m[i]
  {
    assert BlockMask(Constant(m), key, nonce, 0) == m;
  }

  /** Under a revealing mask the decoder sees the type and the flag byte of the prepared buffer. */
  lemma RevealedHead(key: seq<byte>, d: seq<byte>, len: nat, part: nat)
    requires BUFFER_MIN <= |d| && MIN_MESSAGE_SIZE <= len <= |d|
    requires XOR_KEY_LENGTH <= part <= len - NONCE_LENGTH
    ensures var hash := Constant(Revealing(d[1]));
            var e := Masked(hash, key, d[len - NONCE_LENGTH..len], d, part);
            var r := Deobfuscated(hash, key, Buffer(e, len)).0;
            var flagged := d[0] != 3 && d[1] == 1;
            var sh := ShapeOf(d[0] as int, flagged, len);
            sh.Some? ==> r.length == sh.value.length && (flagged ==> r.data[1] == 0)
  {
    var m := Revealing(d[1]);
    var hash := Constant(m);
    var nonce := d[len - NONCE_LENGTH..len];
    var e := Masked(hash, key, nonce, d, part);
    assert m[1] & 0xFE != 0;
    ConstantHead(m, key, nonce, d, part);
    assert !LooksPlain(e);
    MaskedTail(hash, key, nonce, d, part, len);
    Unmask(hash, key, nonce, d, part, XOR_KEY_LENGTH);
    hide Deobfuscated, Masked, ShapeOf, LooksPlain, Constant, Revealing;
    var head := Masked(hash, key, nonce, e, XOR_KEY_LENGTH);
    assert head[0] == d[0] && head[1] == d[1];
    var flagged := d[0] != 3 && d[1] == 1;
    DeobfuscatedAs(hash, key, Buffer(e, len), head, flagged, ShapeOf(d[0] as int, flagged, len));
  }

  lemma HiddenByte(key: seq<byte>, nonce: seq<byte>, d: seq<byte>, part: nat, i: nat)
    requires |d| >= 8 && part >= 8 && d[1] > 1 && i < 4
    ensures Masked(Constant(Hiding(d)), key, nonce, d, part)[i] == if i == 0 then d[0] else 0
  {
    FlagNotMasked(d[1]);
    ConstantHead(Hiding(d), key, nonce, d, part);
    XorSelf(d[i]);
  }

  /** Under a hiding mask a header whose flag byte is above 1 passes the plain test. */
  lemma HiddenHead(key: seq<byte>, nonce: seq<byte>, d: seq<byte>, part: nat)
    requires |d| >= 8 && part >= 8 && 1 <= d[0] <= 4 && d[1] > 1
    ensures LooksPlain(Masked(Constant(Hiding(d)), key, nonce, d, part))
  {
    hide Masked, Hiding, Constant;
    HiddenByte(key, nonce, d, part, 0);
    HiddenByte(key, nonce, d, part, 1);
    HiddenByte(key, nonce, d, part, 2);
    HiddenByte(key, nonce, d, part, 3);
  }

  lemma FlagNotMasked(f: byte)
    requires f > 1
    ensures f & 0xFE != 0
  {
  }

  lemma XorSelf(x: byte)
    ensures x ^ x == 0 && x ^ 0 == x
  {
  }

  lemma PlanFacts(b: Buffer, r: nat, fill: Random)
    requires ValidBuffer(b) && Fits(b.data, b.length, r) && 1 <= TypeOf(Message(b)) <= 4
    ensures PlanOf(b.data, b.length, r).Some?
    ensures var t := TypeOf(Message(b));
            var p := PlanOf(b.data, b.length, r).value;
            var d := Prepared(b.data, p, fill);
            && 1 <= b.data[0] <= 4 && d[0] == b.data[0] && b.length >= 1
            && p.part >= 16 && p.length >= 17
            && (t < 4 ==> p.part <= p.length - 16 && p.length > [148, 92, 64][t - 1] && p.length >= 32)
            && (t == 4 && !p.flagged ==> p.part <= p.length - 16 && p.length == b.length >= 256)
            && (t == 4 && p.flagged ==> p.length == b.length + 16)
            && (!p.flagged ==> d[1] == b.data[1])
            && (p.flagged && (t < 4 || b.length >= 2) ==> d[1] == 1)
            && (t == 3 ==> !p.flagged)
  {
  }

  /** For every packet outside `Restorable` some keystream and padding spoil the trip. */
  lemma NotRestorable(key: seq<byte>, b: Buffer) returns (hash: Hash, r: nat, fill: Random)
    requires ValidBuffer(b) && !Restorable(b) && Fits(b.data, b.length, 0)
    ensures r == 0 && !RoundTrips(hash, key, b, r, fill)
  {
    r, fill := 0, _ => 0;
    if 1 <= TypeOf(Message(b)) <= 4 {
      hash := SpoilTyped(key, b, r, fill);
    } else {
      hash := Constant(Revealing(0));
      UntypedNeverSurvives(hash, key, b, r, fill);
    }
  }

  /** A packet of no known type and at least 32 bytes is sent as it is, and no keystream lets it through: what the
      decoder makes of it has a known type, or differs in one of the first two bytes. */
  lemma UntypedNeverSurvives(hash: Hash, key: seq<byte>, b: Buffer, r: nat, fill: Random)
    requires ValidBuffer(b) && Fits(b.data, b.length, r) && !Restorable(b) && !(1 <= TypeOf(Message(b)) <= 4)
    ensures !RoundTrips(hash, key, b, r, fill)
  {
    DecodesElsewise(hash, key, b);
    assert Obfuscated(hash, key, b, r, fill) == b;
    hide Deobfuscated, Obfuscated, Restorable;
  }

  /** What the decoder makes of a packet of no known type: another length or type, or another second byte. */
  lemma DecodesElsewise(hash: Hash, key: seq<byte>, b: Buffer)
    requires ValidBuffer(b) && b.length >= MIN_MESSAGE_SIZE && !(1 <= TypeOf(Message(b)) <= 4)
    ensures Message(Deobfuscated(hash, key, b).0) != Message(b)
  {
    assert !(1 <= b.data[0] <= 4) && !LooksPlain(b.data);
    hide Deobfuscated, FixMask, Xor, LooksPlain, TypeOf, Repeat;
    DeobfuscatedExactly(hash, key, b, 0);
    DeobfuscatedExactly(hash, key, b, 1);
    var m := FixMask(hash(b.data[b.length - 16..b.length] + key));
    FixedMaskNotBlank(hash(b.data[b.length - 16..b.length] + key));
    XorMoves(b.data[0], m[0]);
    XorMoves(b.data[1], m[1]);
    Differs(b, Deobfuscated(hash, key, b).0);
  }

  lemma XorMoves(x: byte, k: byte)
    ensures Xor(x, k) == x <==> k == 0
  {
    XorChanges(x, k);
  }

  lemma Differs(b: Buffer, o: Buffer)
    requires ValidBuffer(b) && ValidBuffer(o) && b.length >= 2 && o.length >= 2
    requires o.data[0] != b.data[0] || o.data[1] != b.data[1]
    ensures Message(o) != Message(b)
  {
    assert Message(o)[0] == o.data[0] && Message(o)[1] == o.data[1];
    assert Message(b)[0] == b.data[0] && Message(b)[1] == b.data[1];
  }

  lemma SpoilTyped(key: seq<byte>, b: Buffer, r: nat, fill: Random) returns (hash: Hash)
    requires ValidBuffer(b) && Fits(b.data, b.length, r) && !Restorable(b) && 1 <= TypeOf(Message(b)) <= 4
    ensures !RoundTrips(hash, key, b, r, fill)
  {
    PlanFacts(b, r, fill);
    var t := TypeOf(Message(b));
    var p := PlanOf(b.data, b.length, r).value;
    var d := Prepared(b.data, p, fill);
    if t == 4 && b.length < 16 {
      hash := Constant(Revealing(0));
      var o := Obfuscated(hash, key, b, r, fill);
      assert |Message(o)| != |Message(b)|;
    } else if p.flagged || b.data[1] <= 1 || (t < 4 && b.length != [148, 92, 64][t - 1]) {
      hash := Constant(Revealing(d[1]));
      RevealedSpoils(key, b, r, fill, p, d);
    } else {
      hash := Constant(Hiding(d));
      HidingSpoils(key, b, r, fill, p, d);
    }
  }

  lemma RevealedSpoils(key: seq<byte>, b: Buffer, r: nat, fill: Random, p: Plan, d: seq<byte>)
    requires ValidBuffer(b) && Fits(b.data, b.length, r) && !Restorable(b) && 1 <= TypeOf(Message(b)) <= 4
    requires PlanOf(b.data, b.length, r) == Some(p) && d == Prepared(b.data, p, fill)
    requires TypeOf(Message(b)) == 4 ==> b.length >= 16
    requires var t := TypeOf(Message(b));
             p.flagged || b.data[1] <= 1 || (t < 4 && b.length != [148, 92, 64][t - 1])
    ensures !RoundTrips(Constant(Revealing(d[1])), key, b, r, fill)
  {
    PlanFacts(b, r, fill);
    hide *;
    var hash := Constant(Revealing(d[1]));
    ObfuscatedAs(hash, key, b, r, fill, p, d);
    RevealedHead(key, d, p.length, p.part);
    LengthsDiffer(b, p, d[1]);
    MessagesDiffer(b, Deobfuscated(hash, key, Obfuscated(hash, key, b, r, fill)).0);
    Unequal(hash, key, b, r, fill);
  }

  lemma Unequal(hash: Hash, key: seq<byte>, b: Buffer, r: nat, fill: Random)
    requires ValidBuffer(b) && Fits(b.data, b.length, r)
             && Message(Deobfuscated(hash, key, Obfuscated(hash, key, b, r, fill)).0) != Message(b)
    ensures !RoundTrips(hash, key, b, r, fill)
  {
    hide Deobfuscated, Obfuscated, Message;
  }

  lemma MessagesDiffer(b: Buffer, e: Buffer)
    requires ValidBuffer(b) && ValidBuffer(e)
    requires e.length != b.length || (b.length >= 2 && e.data[1] == 0 && b.data[1] != 0)
    ensures Message(e) != Message(b)
  {
    if e.length == b.length {
      assert Message(e)[1] != Message(b)[1];
    }
  }

  lemma LengthsDiffer(b: Buffer, p: Plan, f: byte)
    requires ValidBuffer(b) && !Restorable(b) && 1 <= TypeOf(Message(b)) <= 4
    requires TypeOf(Message(b)) == 4 ==> b.length >= 16
    requires p.length >= 32 && (p.flagged ==> f == 1) && (!p.flagged ==> f == b.data[1])
    requires TypeOf(Message(b)) == 3 ==> !p.flagged
    requires TypeOf(Message(b)) == 4 ==> p.length == if p.flagged then b.length + 16 else b.length
    requires var t := TypeOf(Message(b));
             p.flagged || b.data[1] <= 1 || (t < 4 && b.length != [148, 92, 64][t - 1])
    ensures var t := TypeOf(Message(b));
            var flagged := t != 3 && f == 1;
            var sh := ShapeOf(t, flagged, p.length).value;
            sh.length != b.length || (flagged && b.length >= 2 && b.data[1] != 0)
  {
  }

  lemma HidingSpoils(key: seq<byte>, b: Buffer, r: nat, fill: Random, p: Plan, d: seq<byte>)
    requires ValidBuffer(b) && Fits(b.data, b.length, r) && 1 <= TypeOf(Message(b)) <= 4 && b.data[1] > 1
    requires PlanOf(b.data, b.length, r) == Some(p) && d == Prepared(b.data, p, fill) && !p.flagged
    requires var t := TypeOf(Message(b)); t < 4 ==> b.length == [148, 92, 64][t - 1]
    ensures !RoundTrips(Constant(Hiding(d)), key, b, r, fill)
  {
    PlanFacts(b, r, fill);
    var hash := Constant(Hiding(d));
    var nonce := d[p.length - NONCE_LENGTH..p.length];
    var o := Obfuscated(hash, key, b, r, fill);
    assert o == Buffer(Masked(hash, key, nonce, d, p.part), p.length);
    HiddenHead(key, nonce, d, p.part);
    assert Deobfuscated(hash, key, o).0 == o;
    if b.length == p.length {
      assert Message(o)[1] == 0 != Message(b)[1];
    } else {
      assert |Message(o)| != |Message(b)|;
    }
  }

  /** A packet survives every obfuscated trip exactly when it is restorable. */
  lemma RoundTripExactly(key: seq<byte>, b: Buffer)
    requires ValidBuffer(b) && Fits(b.data, b.length, 0)
    ensures Restorable(b) <==>
            forall hash: Hash, r: nat, fill: Random :: Fits(b.data, b.length, r) ==> RoundTrips(hash, key, b, r, fill)
  {
    if Restorable(b) {
      forall hash: Hash, r: nat, fill: Random | Fits(b.data, b.length, r)
        ensures RoundTrips(hash, key, b, r, fill)
      {
        RoundTrip(hash, key, b, r, fill);
      }
    } else {
      var hash, r, fill := NotRestorable(key, b);
      assert !RoundTrips(hash, key, b, r, fill);
    }
  }

  /** A packet sent in the clear is left alone and unmarked: either it is too short to be looked at, or
      its reserved bytes are zero. */
  lemma PlainPasses(hash: Hash, key: seq<byte>, b: Buffer)
    requires ValidBuffer(b)
    ensures Deobfuscated(hash, key, b) == (b, false) <==>
            b.length < MIN_MESSAGE_SIZE || LooksPlain(b.data)
    ensures LooksPlain(b.data) <==>
            (b.data[0] == 1 || b.data[0] == 2 || b.data[0] == 3 || b.data[0] == 4)
            && b.data[1] == 0 && b.data[2] == 0 && b.data[3] == 0
  {
    if b.length >= MIN_MESSAGE_SIZE && !LooksPlain(b.data) {
      var nonce := b.data[b.length - NONCE_LENGTH..b.length];
      MaskNeverBlank(hash, key, nonce, b.data);
    }
  }

  /** The first block always changes one of the first two bytes. */
  lemma MaskNeverBlank(hash: Hash, key: seq<byte>, nonce: seq<byte>, d: seq<byte>)
    requires |d| >= 8
    ensures Masked(hash, key, nonce, d, XOR_KEY_LENGTH)[..2] != d[..2]
  {
    var w := hash(nonce + Repeat(key, 1));
    var m := BlockMask(hash, key, nonce, 0);
    FixedMaskNotBlank(w);
    var head := Masked(hash, key, nonce, d, XOR_KEY_LENGTH);
    assert head[0] == d[0] ^ m[0] && head[1] == d[1] ^ m[1];
    XorChanges(d[0], m[0]);
    XorChanges(d[1], m[1]);
    assert head[..2][0] != d[..2][0] || head[..2][1] != d[..2][1];
  }

  lemma XorChanges(x: byte, k: byte)
    ensures x ^ k == x <==> k == 0
  {
  }

  lemma FixedMaskNotBlank(m: Mask)
    ensures FixMask(m)[0] != 0 || FixMask(m)[1] != 0
  {
  }

  /** Decoding the first block, clearing, then decoding the rest is decoding everything, then clearing. */
  lemma MaskAfterClearing(hash: Hash, key: seq<byte>, nonce: seq<byte>, was: seq<byte>, sh: Shape, flagged: bool,
                          now: seq<byte>)
    requires |now| == |was| && 8 <= sh.part <= sh.zeroFrom
    requires var head := Masked(hash, key, nonce, was, XOR_KEY_LENGTH);
             var mid := Cleared(head, sh, flagged);
             forall k :: 0 <= k < |was| ==>
               now[k] == if 8 <= k < sh.part then mid[k] ^ KeyByte(hash, key, nonce, k) else mid[k]
    ensures now == Cleared(Masked(hash, key, nonce, was, sh.part), sh, flagged)
  {
  }

  /** The parts of `Deobfuscated`, put together. */
  lemma DeobfuscatedAs(hash: Hash, key: seq<byte>, b: Buffer, head: seq<byte>, flagged: bool, sh: Option<Shape>)
    requires ValidBuffer(b) && b.length >= MIN_MESSAGE_SIZE && !LooksPlain(b.data)
    requires head == Masked(hash, key, b.data[b.length - NONCE_LENGTH..b.length], b.data, XOR_KEY_LENGTH)
    requires flagged == (head[0] as int != MESSAGE_COOKIE_REPLY && head[1] == 1)
    requires sh == ShapeOf(head[0] as int, flagged, b.length)
    ensures Deobfuscated(hash, key, b) ==
            if sh.None? then (Buffer(head, b.length), false)
            else (Buffer(Cleared(Masked(hash, key, b.data[b.length - NONCE_LENGTH..b.length], b.data, sh.value.part),
                                 sh.value, flagged), sh.value.length), true)
  {
  }

  // ---------------------------------------------------------------- the obfuscator

  class WireGuardObfuscator {
    const enabled: bool
    const userKeyHash: seq<byte>
    const hash: Hash

    /** An empty user key disables obfuscation; `sha256` is foreign. */
    constructor (userKey: string, sha256: string -> seq<byte>, xxhash: Hash)
      ensures enabled == (userKey != "") && userKeyHash == sha256(userKey) && hash == xxhash
    {
      enabled := |userKey| != 0;
      userKeyHash := sha256(userKey);
      hash := xxhash;
    }

    method IsAllZero(data: array<byte>, lo: nat, hi: nat) returns (z: bool)
      requires lo <= hi <= data.Length
      ensures z == AllZero(data[lo..hi])
    {
      var i := lo;
      while i < hi
        invariant lo <= i <= hi
        invariant forall k :: lo <= k < i ==> data[k] == 0
      {
        if data[i] != 0 {
          assert data[lo..hi][i - lo] != 0;
          return false;
        }
        i := i + 1;
      }
      z := true;
    }

    method Fill(data: array<byte>, lo: nat, hi: nat, fill: Random)
      requires hi <= data.Length
      modifies data
      ensures forall k :: 0 <= k < data.Length ==> data[k] == if lo <= k < hi then fill(k) else old(data[k])
    {
      var i := lo;
      while i < hi
        invariant lo <= i && (i == lo || i <= hi)
        invariant forall k :: 0 <= k < data.Length ==> data[k] == if lo <= k < i then fill(k) else old(data[k])
      {
        data[i] := fill(i);
        i := i + 1;
      }
    }

    method ModifyHashMaskForWireGuardHeaderConflict(b: array<byte>)
      requires b.Length == XOR_KEY_LENGTH
      modifies b
      ensures b[..] == FixMask(old(b[..]))
    {
      if b[0] & 0xF8 == 0 && b[1] & 0xFE == 0 {
        b[0] := b[0] | 0xD7;
        b[1] := b[1] | 0x69;
      }
    }

    method Sum(digest: seq<byte>, xorKey: array<byte>)
      requires xorKey.Length == XOR_KEY_LENGTH
      modifies xorKey
      ensures xorKey[..] == hash(digest)
    {
      var m := hash(digest);
      var i := 0;
      while i < XOR_KEY_LENGTH
        invariant 0 <= i <= XOR_KEY_LENGTH
        invariant forall k :: 0 <= k < i ==> xorKey[k] == m[k]
      {
        xorKey[i] := m[i];
        i := i + 1;
      }
      assert xorKey[..] == m;
    }

    /** Xor one block, stopping at `part`. */
    method XorBlock(data: array<byte>, i: nat, part: nat, xorKey: array<byte>)
      requires xorKey.Length == XOR_KEY_LENGTH && xorKey != data && part <= data.Length && i <= part
      modifies data
      ensures forall k :: 0 <= k < data.Length ==>
        data[k] == if i <= k < i + XOR_KEY_LENGTH && k < part then Xor(old(data[k]), xorKey[k - i]) else old(data[k])
    {
      hide Xor;
      var j := i;
      while j < i + XOR_KEY_LENGTH && j < part
        invariant i <= j <= i + XOR_KEY_LENGTH && j <= part
        invariant forall k :: 0 <= k < data.Length ==>
          data[k] == if i <= k < j then Xor(old(data[k]), xorKey[k - i]) else old(data[k])
      {
        data[j] := Xor(data[j], xorKey[j - i]);
        j := j + 1;
      }
    }

    /** The masking loop, started at block boundary `start` with a digest that has absorbed the earlier blocks. */
    method XorFrom(data: array<byte>, start: nat, part: nat, nonce: seq<byte>, digest0: seq<byte>)
      requires start % 8 == 0 && part <= data.Length
      requires digest0 == nonce + Repeat(userKeyHash, start / 8)
      modifies data
      ensures forall k :: 0 <= k < data.Length ==>
        data[k] == if start <= k < part then old(data[k]) ^ KeyByte(hash, userKeyHash, nonce, k) else old(data[k])
    {
      var digest := digest0;
      var i := start;
      while i < part
        invariant start <= i && i % 8 == 0
        invariant digest == nonce + Repeat(userKeyHash, i / 8)
        invariant forall k :: 0 <= k < data.Length ==>
          data[k] == if start <= k < i && k < part then old(data[k]) ^ KeyByte(hash, userKeyHash, nonce, k)
            else old(data[k])
      {
        ghost var before := data[..];
        digest := digest + userKeyHash;
        assert digest == nonce + Repeat(userKeyHash, i / 8 + 1);
        var xorKey := new byte[XOR_KEY_LENGTH];
        Sum(digest, xorKey);
        if i == 0 {
          ModifyHashMaskForWireGuardHeaderConflict(xorKey);
        }
        assert xorKey[..] == BlockMask(hash, userKeyHash, nonce, i / 8);
        XorBlock(data, i, part, xorKey);
        forall k | i <= k < i + 8 && k < part
          ensures data[k] == before[k] ^ KeyByte(hash, userKeyHash, nonce, k)
        {
          assert k / 8 == i / 8 && k % 8 == k - i;
          assert xorKey[..][k - i] == xorKey[k - i];
        }
        i := i + XOR_KEY_LENGTH;
      }
    }

    /** The whole masking loop, as a transformation of the buffer. */
    method MaskInPlace(data: array<byte>, part: nat, nonce: seq<byte>)
      requires part <= data.Length
      modifies data
      ensures data[..] == Masked(hash, userKeyHash, nonce, old(data[..]), part)
    {
      hide KeyByte;
      assert nonce + Repeat(userKeyHash, 0) == nonce;
      XorFrom(data, 0, part, nonce, nonce);
    }

    /** In place: the packet becomes its obfuscation when obfuscation is on and asked for, else nothing changes. */
    method Obfuscate(packet: Packet, r: nat, fill: Random)
      requires packet.Valid()
      requires enabled && ObfuscateBeforeSend in packet.flags ==> Fits(packet.data[..], packet.length, r)
      modifies packet`length, packet.data
      ensures packet.Valid()
      ensures Buffer(packet.data[..], packet.length) ==
        if enabled && ObfuscateBeforeSend in packet.flags
        then Obfuscated(hash, userKeyHash, old(Buffer(packet.data[..], packet.length)), r, fill)
        else old(Buffer(packet.data[..], packet.length))
    {
      if !enabled || ObfuscateBeforeSend !in packet.flags {
        return;
      }
      hide PlanOf, Prepared, Masked, Obfuscated;
      ghost var b := Buffer(packet.data[..], packet.length);
      var p := Prepare(packet, r, fill);
      if p.None? {
        return;
      }
      var part := p.value.part;
      ghost var prepared := packet.data[..];
      var nonce := packet.data[packet.length - NONCE_LENGTH..packet.length];
      assert nonce == prepared[packet.length - NONCE_LENGTH..packet.length];
      ObfuscatedAs(hash, userKeyHash, b, r, fill, p.value, prepared);
      MaskInPlace(packet.data, part, nonce);
    }

    /** The message-type switch of `Obfuscate`: new length, flag byte and random bytes. */
    method Prepare(packet: Packet, r: nat, fill: Random) returns (p: Option<Plan>)
      requires packet.Valid() && Fits(packet.data[..], packet.length, r)
      modifies packet`length, packet.data
      ensures packet.Valid()
      ensures p == PlanOf(old(packet.data[..]), old(packet.length), r)
      ensures p.None? ==> packet.length == old(packet.length) && packet.data[..] == old(packet.data[..])
      ensures p.Some? ==>
              packet.length == p.value.length && packet.data[..] == Prepared(old(packet.data[..]), p.value, fill)
    {
      var data := packet.data;
      ghost var was := data[..];
      assert packet.Slice() == was[..packet.length];
      var t := packet.MessageType();
      var elide := false;
      var part;
      var from;
      if t == MESSAGE_INITIATION {
        packet.length := INITIATION_SIZE + NONCE_LENGTH + r % RANDOM_SUFFIX_MAX;
        part := INITIATION_SIZE;
        elide := IsAllZero(data, INITIATION_MAC2_OFFSET, INITIATION_SIZE);
        assert data[INITIATION_MAC2_OFFSET..INITIATION_SIZE] == was[INITIATION_MAC2_OFFSET..INITIATION_SIZE];
        if elide {
          data[1] := 1;
          part := INITIATION_MAC2_OFFSET;
        }
        from := part;
      } else if t == MESSAGE_RESPONSE {
        packet.length := RESPONSE_SIZE + NONCE_LENGTH + r % RANDOM_SUFFIX_MAX;
        part := RESPONSE_SIZE;
        elide := IsAllZero(data, RESPONSE_MAC2_OFFSET, RESPONSE_SIZE);
        assert data[RESPONSE_MAC2_OFFSET..RESPONSE_SIZE] == was[RESPONSE_MAC2_OFFSET..RESPONSE_SIZE];
        if elide {
          data[1] := 1;
          part := RESPONSE_MAC2_OFFSET;
        }
        from := part;
      } else if t == MESSAGE_COOKIE_REPLY {
        packet.length := COOKIE_REPLY_SIZE + NONCE_LENGTH + r % RANDOM_SUFFIX_MAX;
        part := COOKIE_REPLY_SIZE;
        from := part;
      } else if t == MESSAGE_TRANSPORT {
        part := TRANSPORT_HEADER_SIZE;
        from := packet.length;
        if packet.length < SUFFIX_AS_NONCE_MIN {
          data[1] := 1;
          elide := true;
          packet.length := packet.length + NONCE_LENGTH;
        }
      } else {
        return None;
      }
      Fill(data, from, packet.length, fill);
      p := Some(Plan(packet.length, part, elide, from));
      assert data[..] == Prepared(was, p.value, fill);
    }

    /** In place: decode, shorten, clear, and mark the packet if it was an obfuscated one. */
    method Deobfuscate(packet: Packet)
      requires packet.Valid()
      requires enabled && packet.length >= MIN_MESSAGE_SIZE && !LooksPlain(packet.data[..]) ==>
               packet.data.Length >= BUFFER_MIN
      modifies packet`length, packet`flags, packet.data
      ensures packet.Valid()
      ensures
        if !enabled || old(packet.length) < MIN_MESSAGE_SIZE || LooksPlain(old(packet.data[..])) then
          Buffer(packet.data[..], packet.length) == old(Buffer(packet.data[..], packet.length))
          && packet.flags == old(packet.flags)
        else
          var (b, marked) := Deobfuscated(hash, userKeyHash, old(Buffer(packet.data[..], packet.length)));
          && Buffer(packet.data[..], packet.length) == b
          && packet.flags == old(packet.flags) + (if marked then {DeobfuscatedAfterReceived} else {})
    {
      if !enabled || packet.length < MIN_MESSAGE_SIZE {
        return;
      }
      var data := packet.data;
      if data[0] >= 1 && data[0] <= 4 && data[1] == 0 && data[2] == 0 && data[3] == 0 {
        return;
      }
      DeobfuscatePacket(packet);
    }

    /** Lines 166-230, for a packet that does not look plain. */
    method DeobfuscatePacket(packet: Packet)
      requires packet.Valid() && packet.data.Length >= BUFFER_MIN
      requires packet.length >= MIN_MESSAGE_SIZE && !LooksPlain(packet.data[..])
      modifies packet`length, packet`flags, packet.data
      ensures packet.Valid()
      ensures var (b, marked) := Deobfuscated(hash, userKeyHash, old(Buffer(packet.data[..], packet.length)));
              && Buffer(packet.data[..], packet.length) == b
              && packet.flags == old(packet.flags) + (if marked then {DeobfuscatedAfterReceived} else {})
    {
      var data := packet.data;
      ghost var was := data[..];
      hide KeyByte, Cleared, Masked, ShapeOf, Deobfuscated, LooksPlain;
      ghost var b := Buffer(was, packet.length);
      var nonce := data[packet.length - NONCE_LENGTH..packet.length];
      assert nonce == was[packet.length - NONCE_LENGTH..packet.length];
      var digest := DecodeFirstBlock(data, nonce);
      ghost var head := data[..];
      var sh, flagged := Unpack(packet);
      DeobfuscatedAs(hash, userKeyHash, b, head, flagged, sh);
      if sh.None? {
        return;
      }
      DecodeRest(data, nonce, digest, was, sh.value, flagged);
      packet.flags := packet.flags + {DeobfuscatedAfterReceived};
    }

    method DecodeRest(data: array<byte>, nonce: seq<byte>, digest: seq<byte>, ghost was: seq<byte>, sh: Shape,
                      flagged: bool)
      requires |was| == data.Length && 8 <= sh.part <= sh.zeroFrom && sh.part <= data.Length
      requires data[..] == Cleared(Masked(hash, userKeyHash, nonce, was, XOR_KEY_LENGTH), sh, flagged)
      requires digest == nonce + Repeat(userKeyHash, 1)
      modifies data
      ensures data[..] == Cleared(Masked(hash, userKeyHash, nonce, was, sh.part), sh, flagged)
    {
      hide KeyByte, Cleared, Masked;
      XorFrom(data, XOR_KEY_LENGTH, sh.part, nonce, digest);
      MaskAfterClearing(hash, userKeyHash, nonce, was, sh, flagged, data[..]);
    }

    /** Decode the first 8 bytes; the digest returned carries on with the second block. */
    method DecodeFirstBlock(data: array<byte>, nonce: seq<byte>) returns (digest: seq<byte>)
      requires data.Length >= XOR_KEY_LENGTH
      modifies data
      ensures data[..] == Masked(hash, userKeyHash, nonce, old(data[..]), XOR_KEY_LENGTH)
      ensures digest == nonce + Repeat(userKeyHash, 1)
    {
      ghost var was := data[..];
      digest := nonce + userKeyHash;
      var xorKey := new byte[XOR_KEY_LENGTH];
      Sum(digest, xorKey);
      ModifyHashMaskForWireGuardHeaderConflict(xorKey);
      assert Repeat(userKeyHash, 1) == userKeyHash;
      assert xorKey[..] == BlockMask(hash, userKeyHash, nonce, 0);
      XorBlock(data, 0, XOR_KEY_LENGTH, xorKey);
      forall k | 0 <= k < 8
        ensures data[k] == was[k] ^ KeyByte(hash, userKeyHash, nonce, k)
      {
        assert xorKey[..][k] == xorKey[k];
      }
      assert data[..] == Masked(hash, userKeyHash, nonce, was, XOR_KEY_LENGTH);
    }

    /** The message-type switch of `Deobfuscate`, on a buffer whose first block is decoded. */
    method Unpack(packet: Packet) returns (sh: Option<Shape>, flagged: bool)
      requires packet.Valid() && packet.length >= MIN_MESSAGE_SIZE
               && Writable(packet.data[0] as int, packet.data.Length)
      modifies packet`length, packet.data
      ensures packet.Valid()
      ensures flagged == (old(packet.data[0]) as int != MESSAGE_COOKIE_REPLY && old(packet.data[1]) == 1)
      ensures sh == ShapeOf(old(packet.data[0]) as int, flagged, old(packet.length))
      ensures sh.None? ==> packet.length == old(packet.length) && packet.data[..] == old(packet.data[..])
      ensures sh.Some? ==>
              packet.length == sh.value.length && packet.data[..] == Cleared(old(packet.data[..]), sh.value, flagged)
    {
      var data := packet.data;
      ghost var was := data[..];
      var t := packet.MessageType();
      flagged := t != MESSAGE_COOKIE_REPLY && data[1] == 1;
      var part;
      if t == MESSAGE_INITIATION {
        packet.length := INITIATION_SIZE;
        part := INITIATION_SIZE;
        if data[1] == 1 {
          data[1] := 0;
          part := INITIATION_MAC2_OFFSET;
          Fill(data, INITIATION_MAC2_OFFSET, INITIATION_SIZE, _ => 0);
        }
      } else if t == MESSAGE_RESPONSE {
        packet.length := RESPONSE_SIZE;
        part := RESPONSE_SIZE;
        if data[1] == 1 {
          data[1] := 0;
          part := RESPONSE_MAC2_OFFSET;
          Fill(data, RESPONSE_MAC2_OFFSET, RESPONSE_SIZE, _ => 0);
        }
      } else if t == MESSAGE_COOKIE_REPLY {
        packet.length := COOKIE_REPLY_SIZE;
        part := COOKIE_REPLY_SIZE;
      } else if t == MESSAGE_TRANSPORT {
        part := TRANSPORT_HEADER_SIZE;
        if data[1] == 1 {
          data[1] := 0;
          packet.length := packet.length - NONCE_LENGTH;
        }
      } else {
        return None, flagged;
      }
      sh := Some(Shape(packet.length, part, if t == MESSAGE_TRANSPORT then packet.length else part));
      assert data[..] == Cleared(was, sh.value, flagged);
    }
  }
}
