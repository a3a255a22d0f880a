/** device/endian.h: integers of any width in a byte buffer, in either byte order. */
module Endian {
  import opened Digits

  type Byte = b: nat | b < 256

  function Reversed(s: seq<nat>): (r: seq<nat>)
    ensures |r| == |s| && forall i :: 0 <= i < |s| ==> r[i] == s[|s| - 1 - i]
  {
    seq(|s|, i requires 0 <= i < |s| => s[|s| - 1 - i])
  }

  function LittleBytes(v: int, n: nat): seq<nat> {
    ToDigits(v, 256, n)
  }

  function BigBytes(v: int, n: nat): seq<nat> {
    Reversed(LittleBytes(v, n))
  }

  function LittleValue(bytes: seq<nat>): nat {
    Value(bytes, 256)
  }

  function BigValue(bytes: seq<nat>): nat {
    LittleValue(Reversed(bytes))
  }

  /** What an unsigned result of n bytes is as a signed one. */
  function AsSigned(u: nat, n: nat): int {
    if 2 * u >= Pow(256, n) then u - Pow(256, n) else u
  }

  lemma ReversedTwice(s: seq<nat>)
    ensures Reversed(Reversed(s)) == s
  {
  }

  /** For every width: reading in the order of writing gives the value modulo 256 to the width, and
      the signed reading gives back every value that a signed integer of that width can hold. */
  lemma RoundTrip(v: int, n: nat)
    ensures LittleValue(LittleBytes(v, n)) == v % Pow(256, n)
    ensures BigValue(BigBytes(v, n)) == v % Pow(256, n)
    ensures 0 <= 2 * v + Pow(256, n) && 2 * v < Pow(256, n) ==>
              AsSigned(LittleValue(LittleBytes(v, n)), n) == AsSigned(BigValue(BigBytes(v, n)), n) == v
  {
    ValueOfDigits(v, 256, n);
    ReversedTwice(LittleBytes(v, n));
    var p := Pow(256, n);
    if 0 <= 2 * v < p {
      ModUnique(v, p, 0, v);
    } else if 0 <= 2 * v + p && v < 0 {
      ModUnique(v, p, -1, v + p);
    }
  }

  /** Writing what was read restores every byte. */
  lemma RoundTripBytes(bytes: seq<nat>)
    requires InBase(bytes, 256)
    ensures LittleBytes(LittleValue(bytes), |bytes|) == bytes
    ensures BigBytes(BigValue(bytes), |bytes|) == bytes
  {
    DigitsOfValue(bytes, 256);
    DigitsOfValue(Reversed(bytes), 256);
    ReversedTwice(bytes);
  }

  /** The byte of v that has weight 256 to the k. */
  function ByteOf(v: int, k: nat): (b: nat)
    ensures b < 256
  {
    (v / Pow(256, k)) % 256
  }

  /** Little endian puts the byte of the least weight first, big endian last. */
  lemma ByteOrder(v: int, n: nat, k: nat)
    requires k < n
    ensures LittleBytes(v, n)[k] == BigBytes(v, n)[n - 1 - k] == ByteOf(v, k)
  {
    DigitAt(v, 256, n, k);
  }

  lemma DigitsAreBytes(v: int, n: nat)
    ensures forall k :: 0 <= k < n ==> LittleBytes(v, n)[k] == ByteOf(v, k)
  {
    forall k | 0 <= k < n ensures LittleBytes(v, n)[k] == ByteOf(v, k) {
      ByteOrder(v, n, k);
    }
  }

  /** Of what is read the byte of each weight stands where the byte order says. */
  lemma ByteOrderRead(bytes: seq<nat>, k: nat)
    requires InBase(bytes, 256) && k < |bytes|
    ensures ByteOf(LittleValue(bytes), k) == bytes[k]
    ensures ByteOf(BigValue(bytes), k) == bytes[|bytes| - 1 - k]
  {
    RoundTripBytes(bytes);
    ByteOrder(LittleValue(bytes), |bytes|, k);
    ByteOrder(BigValue(bytes), |bytes|, k);
  }

  // ----- the loops

  method WriteLittleEndian(buf: array<Byte>, at: nat, n: nat, val: int)
    requires at + n <= buf.Length
    modifies buf
    ensures buf[..] == old(buf[..at]) + LittleBytes(val, n) + old(buf[at + n..])
    ensures forall k :: 0 <= k < n ==> buf[at + k] == ByteOf(val, k)
  {
    var v := val;
    for i := 0 to n
      invariant buf[at..at + i] + ToDigits(v, 256, n - i) == LittleBytes(val, n)
      invariant buf[..at] == old(buf[..at]) && buf[at + i..] == old(buf[at + i..])
    {
      assert ToDigits(v, 256, n - i) == [Low(v, 256)] + ToDigits(High(v, 256), 256, n - i - 1);
      buf[at + i] := Low(v, 256);
      v := High(v, 256);
      assert buf[at..at + i + 1] == buf[at..at + i] + [buf[at + i]];
    }
    assert buf[..] == buf[..at] + buf[at..at + n] + buf[at + n..];
    assert buf[at..at + n] == LittleBytes(val, n);
    DigitsAreBytes(val, n);
    forall k | 0 <= k < n ensures buf[at + k] == ByteOf(val, k) {
      assert buf[at..at + n][k] == LittleBytes(val, n)[k];
    }
  }

  method WriteBigEndian(buf: array<Byte>, at: nat, n: nat, val: int)
    requires at + n <= buf.Length
    modifies buf
    ensures buf[..] == old(buf[..at]) + BigBytes(val, n) + old(buf[at + n..])
    ensures forall k :: 0 <= k < n ==> buf[at + n - 1 - k] == ByteOf(val, k)
  {
    var v := val;
    ghost var digits := LittleBytes(val, n);
    for i := 0 to n
      invariant ToDigits(v, 256, n - i) == digits[i..]
      invariant forall k :: 0 <= k < i ==> buf[at + n - 1 - k] == digits[k]
      invariant buf[..at + n - i] == old(buf[..at + n - i]) && buf[at + n..] == old(buf[at + n..])
    {
      assert digits[i] == Low(v, 256);
      buf[at + n - i - 1] := Low(v, 256);
      v := High(v, 256);
    }
    assert buf[at..at + n] == BigBytes(val, n);
    assert buf[..] == buf[..at] + buf[at..at + n] + buf[at + n..];
    DigitsAreBytes(val, n);
  }

  /** A char is signed: assigning it to a wider integer extends its sign. */
  function SignExtended(b: Byte, n: nat): nat {
    (if b < 128 then b else b - 256) % Pow(256, n)
  }

  /** Shifting left by a byte and putting b in the place that became free, in n bytes. */
  function ShiftedIn(out: nat, b: Byte, n: nat): nat {
    (out * 256) % Pow(256, n) + b
  }

  /** One turn of the reading loops: the bits beyond those read so far may be anything. */
  lemma ShiftIn(out: nat, b: Byte, n: nat, i: nat)
    requires 0 < i < n
    ensures ShiftedIn(out, b, n) % Pow(256, i + 1) == b + 256 * (out % Pow(256, i))
  {
    var p := Pow(256, i + 1);
    PowSplit(256, i + 1, n - i - 1);
    var q := Pow(256, n - i - 1);
    var x := out * 256;
    var k := x / (p * q);
    assert x == p * q * k + x % (p * q);
    assert p * q * k == p * (q * k);
    assert x + b == ShiftedIn(out, b, n) + p * (q * k);
    AddMultiple(ShiftedIn(out, b, n), p, q * k);
    ModSplit(x + b, 256, Pow(256, i));
    ModUnique(x + b, 256, out, b);
  }

  lemma {:induction false} PowSplit(base: nat, n: nat, m: nat)
    requires base > 0
    ensures Pow(base, n + m) == Pow(base, n) * Pow(base, m)
  {
    if n == 0 {
    } else {
      PowSplit(base, n - 1, m);
      assert base * (Pow(base, n - 1) * Pow(base, m)) == base * Pow(base, n - 1) * Pow(base, m);
    }
  }

  /** The first byte alone is right modulo 256, whatever its sign. */
  lemma FirstByte(b: Byte, n: nat)
    requires n > 0
    ensures SignExtended(b, n) % Pow(256, 1) == b
  {
    var x: int := if b < 128 then b else b - 256;
    PowSplit(256, 1, n - 1);
    var q := Pow(256, n - 1);
    assert Pow(256, 1) == 256;
    var k := x / (256 * q);
    assert x == 256 * q * k + x % (256 * q);
    assert 256 * q * k == 256 * (q * k);
    AddMultiple(x % (256 * q), 256, q * k);
    ModUnique(x, 256, if b < 128 then 0 else -1, b);
  }

  method ReadLittleEndian(buf: array<Byte>, at: nat, n: nat) returns (out: nat)
    requires n > 0 && at + n <= buf.Length
    ensures out == LittleValue(buf[at..at + n])
    ensures out < Pow(256, n) && forall k :: 0 <= k < n ==> ByteOf(out, k) == buf[at + k]
  {
    out := SignExtended(buf[at + n - 1], n);
    FirstByte(buf[at + n - 1], n);
    assert buf[at + n - 1..at + n] == [buf[at + n - 1]] + [];
    ValueOf(buf[at + n - 1], [], 256);
    for i := 1 to n
      invariant out < Pow(256, n)
      invariant out % Pow(256, i) == LittleValue(buf[at + n - i..at + n])
    {
      ShiftIn(out, buf[at + n - i - 1], n, i);
      Fits(out, buf[at + n - i - 1], n);
      out := ShiftedIn(out, buf[at + n - i - 1], n);
      assert buf[at + n - i - 1..at + n] == [buf[at + n - i - 1]] + buf[at + n - i..at + n];
      ValueOf(buf[at + n - i - 1], buf[at + n - i..at + n], 256);
    }
    ModUnique(out, Pow(256, n), 0, out);
    forall k | 0 <= k < n ensures ByteOf(out, k) == buf[at + k] {
      ByteOrderRead(buf[at..at + n], k);
    }
  }

  method ReadBigEndian(buf: array<Byte>, at: nat, n: nat) returns (out: nat)
    requires n > 0 && at + n <= buf.Length
    ensures out == BigValue(buf[at..at + n])
    ensures out < Pow(256, n) && forall k :: 0 <= k < n ==> ByteOf(out, k) == buf[at + n - 1 - k]
  {
    out := SignExtended(buf[at], n);
    FirstByte(buf[at], n);
    assert Reversed(buf[at..at + 1]) == [buf[at]] + [];
    ValueOf(buf[at], [], 256);
    for i := 1 to n
      invariant out < Pow(256, n)
      invariant out % Pow(256, i) == BigValue(buf[at..at + i])
    {
      ShiftIn(out, buf[at + i], n, i);
      Fits(out, buf[at + i], n);
      out := ShiftedIn(out, buf[at + i], n);
      assert Reversed(buf[at..at + i + 1]) == [buf[at + i]] + Reversed(buf[at..at + i]);
      ValueOf(buf[at + i], Reversed(buf[at..at + i]), 256);
    }
    ModUnique(out, Pow(256, n), 0, out);
    forall k | 0 <= k < n ensures ByteOf(out, k) == buf[at + n - 1 - k] {
      ByteOrderRead(buf[at..at + n], k);
    }
  }

  /** The byte put in never overflows: the place it takes was shifted free. */
  lemma Fits(out: nat, b: Byte, n: nat)
    requires n > 0
    ensures ShiftedIn(out, b, n) < Pow(256, n)
  {
    ModSplit(out * 256, 256, Pow(256, n - 1));
    ModUnique(out * 256, 256, out, 0);
    var r := out % Pow(256, n - 1);
    MulLess(r, Pow(256, n - 1), 256);
  }
}
