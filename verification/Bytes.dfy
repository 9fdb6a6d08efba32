/** Bytes, 32-bit session indices and their little-endian wire form. */
module Bytes {

  datatype Option<+T> = None | Some(value: T)

  datatype Result<+T, +E> = Ok(value: T) | Err(error: E)

  type byte = bv8

  /** A WireGuard session index: an unsigned 32-bit number. */
  type Index = i: int | 0 <= i < 0x1_0000_0000

  type PublicKey = k: seq<byte> | |k| == 32 witness seq(32, _ => 0)

  /** A UDP address, with equality of IPs abstracted to equality of values. */
  datatype Addr = Addr(ip: int, port: int)

  type Time = int

  function PutLE(v: Index): (s: seq<byte>)
    ensures |s| == 4
  {
    [(v % 256) as byte, (v / 256 % 256) as byte, (v / 65536 % 256) as byte, (v / 16777216) as byte]
  }

  function GetLE(s: seq<byte>): (v: Index)
    requires |s| == 4
  {
    s[0] as int + 256 * (s[1] as int) + 65536 * (s[2] as int) + 16777216 * (s[3] as int)
  }

  lemma ByteSuccessor(b: byte)
    requires b < 255
    ensures (b + 1) as int == b as int + 1
  {
  }

  /** Every number below 256 is the value of a byte. */
  lemma {:induction false} SomeByte(x: int) returns (b: byte)
    requires 0 <= x < 256
    ensures b as int == x
  {
    if x == 0 {
      b := 0;
    } else {
      b := SomeByte(x - 1);
      ByteSuccessor(b);
      b := b + 1;
    }
  }

  lemma ByteOfInt(x: int)
    requires 0 <= x < 256
    ensures (x as byte) as int == x
  {
    var b := SomeByte(x);
    IntOfByte(b);
  }

  lemma IntOfByte(b: byte)
    ensures (b as int) as byte == b
  {
  }

  /** The four base-256 digits of `v`, low first, add up to `v`. */
  lemma Digits(v: Index)
    ensures v % 256 + 256 * (v / 256 % 256) + 65536 * (v / 65536 % 256) + 16777216 * (v / 16777216) == v
    ensures 0 <= v / 16777216 < 256
  {
    assert v / 65536 == v / 256 / 256 && v / 16777216 == v / 65536 / 256;
  }

  /** Reading back a written index yields it. */
  lemma GetPut(v: Index)
    ensures GetLE(PutLE(v)) == v
  {
    Digits(v);
    ByteOfInt(v % 256);
    ByteOfInt(v / 256 % 256);
    ByteOfInt(v / 65536 % 256);
    ByteOfInt(v / 16777216);
  }

  /** Base-256 digits are unique. */
  lemma DigitsUnique(a: int, b: int, c: int, d: int, a': int, b': int, c': int, d': int)
    requires 0 <= a < 256 && 0 <= b < 256 && 0 <= c < 256 && 0 <= d < 256
    requires 0 <= a' < 256 && 0 <= b' < 256 && 0 <= c' < 256 && 0 <= d' < 256
    requires a + 256 * b + 65536 * c + 16777216 * d == a' + 256 * b' + 65536 * c' + 16777216 * d'
    ensures a == a' && b == b' && c == c' && d == d'
  {
  }

  lemma ByteInjective(a: byte, b: byte)
    requires a as int == b as int
    ensures a == b
  {
    IntOfByte(a);
    IntOfByte(b);
  }

  function Digit(b: byte): (v: int)
    ensures 0 <= v < 256
  {
    b as int
  }

  /** The four digits of a number read from bytes. */
  lemma GetDigits(s: seq<byte>)
    requires |s| == 4
    ensures GetLE(s) == Digit(s[0]) + 256 * Digit(s[1]) + 65536 * Digit(s[2]) + 16777216 * Digit(s[3])
  {
  }

  lemma GetInjective(s: seq<byte>, t: seq<byte>)
    requires |s| == |t| == 4 && GetLE(s) == GetLE(t)
    ensures s == t
  {
    hide GetLE, Digit;
    GetDigits(s);
    GetDigits(t);
    DigitsUnique(Digit(s[0]), Digit(s[1]), Digit(s[2]), Digit(s[3]), Digit(t[0]), Digit(t[1]), Digit(t[2]),
                 Digit(t[3]));
    SameBytes(s, t);
  }

  lemma SameBytes(s: seq<byte>, t: seq<byte>)
    requires |s| == |t| == 4 && forall i :: 0 <= i < 4 ==> Digit(s[i]) == Digit(t[i])
    ensures s == t
  {
    forall i | 0 <= i < 4
      ensures s[i] == t[i]
    {
      ByteInjective(s[i], t[i]);
    }
  }

  /** Writing back a read index changes nothing. */
  lemma PutGet(s: seq<byte>)
    requires |s| == 4
    ensures PutLE(GetLE(s)) == s
  {
    var v := GetLE(s);
    GetPut(v);
    GetInjective(PutLE(v), s);
  }

  /** The number that bytes stand for, low byte first. */
  function LittleEndian(s: seq<byte>): nat {
    if s == [] then 0 else s[0] as int + 256 * LittleEndian(s[1..])
  }

  lemma GetIsLittleEndian(s: seq<byte>)
    requires |s| == 4
    ensures GetLE(s) == LittleEndian(s)
  {
    assert s[1..][1..] == s[2..] && s[2..][1..] == s[3..] && s[3..][1..] == [];
    assert LittleEndian(s[3..]) == s[3] as int;
    assert LittleEndian(s[2..]) == s[2] as int + 256 * (s[3] as int);
    assert LittleEndian(s[1..]) == s[1] as int + 256 * LittleEndian(s[2..]);
  }

  /** `s` with the four bytes at `off` replaced by `f`. */
  function Splice(s: seq<byte>, off: nat, f: seq<byte>): (r: seq<byte>)
    requires |f| == 4 && off + 4 <= |s|
    ensures |r| == |s| && r[off..off + 4] == f
    ensures forall i :: 0 <= i < |s| && !(off <= i < off + 4) ==> r[i] == s[i]
  {
    s[..off] + f + s[off + 4..]
  }

  lemma XorCancels(x: byte, k: byte)
    ensures (x ^ k) ^ k == x
  {
  }
}
