/** device/uint32_sub_bind.cc: a field of bits inside a 32-bit word of a device's memory. */
module Bits {
  import opened Digits

  predicate Bit(a: nat, k: nat) {
    if k == 0 then a % 2 == 1 else Bit(a / 2, k - 1)
  }

  /** The number whose bit k is f(i + k), for k below n. */
  function FromBits(f: nat -> bool, i: nat, n: nat): (a: nat)
    ensures a < Pow(2, n)
    decreases n
  {
    if n == 0 then 0 else (if f(i) then 1 else 0) + 2 * FromBits(f, i + 1, n - 1)
  }

  lemma {:induction false} FromBitsAt(f: nat -> bool, i: nat, n: nat, k: nat)
    ensures Bit(FromBits(f, i, n), k) <==> k < n && f(i + k)
    decreases n
  {
    if n == 0 {
      ZeroBits(k);
    } else if k > 0 {
      FromBitsAt(f, i + 1, n - 1, k - 1);
      assert FromBits(f, i, n) / 2 == FromBits(f, i + 1, n - 1);
    }
  }

  lemma {:induction false} ZeroBits(k: nat)
    ensures !Bit(0, k)
  {
    if k == 0 {
    } else {
      ZeroBits(k - 1);
    }
  }

  /** Numbers below 2 to the n are equal when their lowest n bits are. */
  lemma {:induction false} SameBits(a: nat, b: nat, n: nat)
    requires a < Pow(2, n) && b < Pow(2, n)
    requires forall k :: 0 <= k < n ==> Bit(a, k) == Bit(b, k)
    ensures a == b
  {
    if n == 0 {
    } else {
      assert Bit(a, 0) == Bit(b, 0);
      forall k | 0 <= k < n - 1 ensures Bit(a / 2, k) == Bit(b / 2, k) {
        assert Bit(a, k + 1) == Bit(b, k + 1);
      }
      SameBits(a / 2, b / 2, n - 1);
    }
  }

  /** A number below 2 to the n has no bit from n on. */
  lemma {:induction false} HighBits(a: nat, n: nat, k: nat)
    requires a < Pow(2, n) && n <= k
    ensures !Bit(a, k)
  {
    if n == 0 {
      ZeroBits(k);
    } else {
      HighBits(a / 2, n - 1, k - 1);
    }
  }

  // ----- the operators on unsigned integers of w bits

  function And(a: nat, b: nat, w: nat): nat {
    FromBits((k: nat) => Bit(a, k) && Bit(b, k), 0, w)
  }

  function Or(a: nat, b: nat, w: nat): nat {
    FromBits((k: nat) => Bit(a, k) || Bit(b, k), 0, w)
  }

  function Not(a: nat, w: nat): nat {
    FromBits((k: nat) => !Bit(a, k), 0, w)
  }

  function Wrapped(a: int, w: nat): nat {
    a % Pow(2, w)
  }

  function Shr(a: nat, s: nat): nat {
    if s == 0 then a else Shr(a / 2, s - 1)
  }

  function Shl(a: nat, s: nat, w: nat): nat
    decreases s
  {
    if s == 0 then a else Shl(Wrapped(2 * a, w), s - 1, w)
  }

  lemma OperatorBits(a: nat, b: nat, k: nat, w: nat)
    ensures Bit(And(a, b, w), k) <==> k < w && Bit(a, k) && Bit(b, k)
    ensures Bit(Or(a, b, w), k) <==> k < w && (Bit(a, k) || Bit(b, k))
    ensures Bit(Not(a, w), k) <==> k < w && !Bit(a, k)
  {
    FromBitsAt((j: nat) => Bit(a, j) && Bit(b, j), 0, w, k);
    FromBitsAt((j: nat) => Bit(a, j) || Bit(b, j), 0, w, k);
    FromBitsAt((j: nat) => !Bit(a, j), 0, w, k);
  }

  lemma {:induction false} ShrBits(a: nat, s: nat, k: nat)
    ensures Bit(Shr(a, s), k) <==> Bit(a, k + s)
    decreases s
  {
    if s == 0 {
    } else {
      ShrBits(a / 2, s - 1, k);
    }
  }

  lemma {:induction false} ModBits(a: nat, n: nat, k: nat)
    requires k < n
    ensures Bit(a % Pow(2, n), k) <==> Bit(a, k)
    decreases n
  {
    var p := Pow(2, n - 1);
    ModSplit(a, 2, p);
    ModUnique(a % Pow(2, n), 2, (a / 2) % p, a % 2);
    if k == 0 {
    } else {
      ModBits(a / 2, n - 1, k - 1);
    }
  }

  lemma {:induction false} ShlBits(a: nat, s: nat, k: nat, w: nat)
    requires k < w
    ensures Bit(Shl(a, s, w), k) <==> k >= s && Bit(a, k - s)
    decreases s
  {
    if s == 0 {
    } else {
      ShlBits(Wrapped(2 * a, w), s - 1, k, w);
      if k >= s - 1 {
        ModBits(2 * a, w, k - (s - 1));
      }
    }
  }

  lemma {:induction false} ShlValue(a: nat, s: nat, w: nat)
    requires a * Pow(2, s) < Pow(2, w)
    ensures Shl(a, s, w) == a * Pow(2, s)
    decreases s
  {
    if s == 0 {
    } else {
      assert a * (2 * Pow(2, s - 1)) == 2 * a * Pow(2, s - 1);
      assert 2 * a <= 2 * a * Pow(2, s - 1) by {
        MulNonNegative(2 * a, Pow(2, s - 1) - 1);
        assert 2 * a * (Pow(2, s - 1) - 1) == 2 * a * Pow(2, s - 1) - 2 * a;
      }
      ModUnique(2 * a, Pow(2, w), 0, 2 * a);
      ShlValue(2 * a, s - 1, w);
    }
  }

  lemma {:induction false} Ones(n: nat, k: nat)
    ensures Bit(Pow(2, n) - 1, k) <==> k < n
    decreases n
  {
    if n == 0 {
      ZeroBits(k);
    } else if k > 0 {
      assert (Pow(2, n) - 1) / 2 == Pow(2, n - 1) - 1;
      Ones(n - 1, k - 1);
    }
  }

  lemma {:induction false} PowGrows(n: nat, m: nat)
    requires n <= m
    ensures Pow(2, n) <= Pow(2, m)
  {
    if n == m {
    } else {
      PowGrows(n, m - 1);
    }
  }

  /** A number without bits from n on is below 2 to the n. */
  lemma NoHighBits(a: nat, n: nat, w: nat)
    requires n <= w && a < Pow(2, w) && forall k :: n <= k < w ==> !Bit(a, k)
    ensures a < Pow(2, n)
  {
    var b := a % Pow(2, n);
    PowGrows(n, w);
    forall k | 0 <= k < w ensures Bit(b, k) == Bit(a, k) {
      if k < n {
        ModBits(a, n, k);
      } else {
        HighBits(b, n, k);
      }
    }
    SameBits(b, a, w);
  }

  // ----- fields

  /** value_mark for the field from bit s to bit e. */
  function Mark(s: nat, e: nat, w: nat): nat
    requires s <= e < w
  {
    Wrapped(1 + Wrapped(Wrapped(Shl(1, e - s, w) - 1, w) * 2, w), w)
  }

  function MaxValue(s: nat, e: nat, w: nat): nat
    requires s <= e < w
  {
    Wrapped(Shl(Wrapped(2, w), e - s, w) - 1, w)
  }

  function Get(x: nat, s: nat, e: nat, w: nat): nat
    requires s <= e < w
  {
    And(Shr(x, s), Mark(s, e, w), w)
  }

  function Set(x: nat, s: nat, e: nat, v: nat, w: nat): (r: nat)
    requires s <= e < w
    ensures r < Pow(2, w)
  {
    Or(And(x, Not(Shl(Mark(s, e, w), s, w), w), w), Shl(And(v, Mark(s, e, w), w), s, w), w)
  }

  lemma WrappedSame(v: nat, w: nat)
    requires v < Pow(2, w)
    ensures Wrapped(v, w) == v
  {
    ModUnique(v, Pow(2, w), 0, v);
  }

  lemma DoubledMark(p: nat, w: nat)
    requires 1 <= p && 2 * p <= Pow(2, w)
    ensures Wrapped(1 + Wrapped(Wrapped(p - 1, w) * 2, w), w) == 2 * p - 1
  {
    WrappedSame(p - 1, w);
    WrappedSame((p - 1) * 2, w);
    WrappedSame(2 * p - 1, w);
  }

  lemma OneShifted(n: nat, w: nat)
    requires n < w
    ensures Shl(1, n, w) == Pow(2, n) && 1 <= Pow(2, n) && Pow(2, n + 1) == 2 * Pow(2, n) <= Pow(2, w)
  {
    PowGrows(0, n);
    PowGrows(n + 1, w);
    ShlValue(1, n, w);
  }

  /** The mark is all ones over the length of the field, and it is the largest value, also for a
      field of all w bits, where the shift of MaxValue overflows. */
  lemma MarkValue(s: nat, e: nat, w: nat)
    requires s <= e < w
    ensures Mark(s, e, w) == MaxValue(s, e, w) == Pow(2, e - s + 1) - 1
  {
    OneShifted(e - s, w);
    DoubledMark(Pow(2, e - s), w);
    TwoShifted(e - s, w);
  }

  lemma TwoShifted(n: nat, w: nat)
    requires n < w
    ensures Wrapped(Shl(Wrapped(2, w), n, w) - 1, w) == Pow(2, n + 1) - 1
  {
    var m, two := Pow(2, w), Wrapped(2, w);
    PowGrows(n + 1, w);
    if n + 1 < w {
      PowGrows(n + 2, w);
      ModUnique(2, m, 0, 2);
      ShlValue(2, n, w);
      ModUnique(Pow(2, n + 1) - 1, m, 0, Pow(2, n + 1) - 1);
    } else {
      ModBits(2, w, 0);
      forall k | 0 <= k < w ensures Bit(Shl(two, n, w), k) == Bit(0, k) {
        ShlBits(two, n, k, w);
        ZeroBits(k);
      }
      ShlBound(two, n, w);
      SameBits(Shl(two, n, w), 0, w);
      ModUnique(-1, m, -1, m - 1);
    }
  }

  lemma {:induction false} ShlBound(a: nat, s: nat, w: nat)
    requires a < Pow(2, w)
    ensures Shl(a, s, w) < Pow(2, w)
    decreases s
  {
    if s == 0 {
    } else {
      ShlBound(Wrapped(2 * a, w), s - 1, w);
    }
  }

  lemma MarkBits(s: nat, e: nat, k: nat, w: nat)
    requires s <= e < w
    ensures Bit(Mark(s, e, w), k) <==> k <= e - s
  {
    MarkValue(s, e, w);
    Ones(e - s + 1, k);
  }

  /** Reading takes out exactly the field's bits. */
  lemma GetBits(x: nat, s: nat, e: nat, k: nat, w: nat)
    requires s <= e < w
    ensures Bit(Get(x, s, e, w), k) <==> k <= e - s && Bit(x, k + s)
  {
    OperatorBits(Shr(x, s), Mark(s, e, w), k, w);
    ShrBits(x, s, k);
    MarkBits(s, e, k, w);
  }

  /** Writing changes exactly the field's bits. */
  lemma SetBits(x: nat, s: nat, e: nat, v: nat, k: nat, w: nat)
    requires s <= e < w && k < w
    ensures Bit(Set(x, s, e, v, w), k) <==> if s <= k <= e then Bit(v, k - s) else Bit(x, k)
  {
    var mark := Mark(s, e, w);
    OperatorBits(And(x, Not(Shl(mark, s, w), w), w), Shl(And(v, mark, w), s, w), k, w);
    OperatorBits(x, Not(Shl(mark, s, w), w), k, w);
    OperatorBits(Shl(mark, s, w), 0, k, w);
    ShlBits(mark, s, k, w);
    ShlBits(And(v, mark, w), s, k, w);
    if k >= s {
      MarkBits(s, e, k - s, w);
      OperatorBits(v, mark, k - s, w);
    }
  }

  lemma GetBound(x: nat, s: nat, e: nat, w: nat)
    requires s <= e < w
    ensures Get(x, s, e, w) <= MaxValue(s, e, w) && Get(x, s, e, w) < Pow(2, w)
  {
    MarkValue(s, e, w);
    forall k | e - s + 1 <= k < w ensures !Bit(Get(x, s, e, w), k) {
      GetBits(x, s, e, k, w);
    }
    NoHighBits(Get(x, s, e, w), e - s + 1, w);
  }

  /** What is written is read back. */
  lemma GetAfterSet(x: nat, s: nat, e: nat, v: nat, w: nat)
    requires s <= e < w && v <= MaxValue(s, e, w)
    ensures Get(Set(x, s, e, v, w), s, e, w) == v
  {
    var n := e - s + 1;
    MarkValue(s, e, w);
    PowGrows(n, w);
    GetBound(Set(x, s, e, v, w), s, e, w);
    forall k | 0 <= k < w ensures Bit(Get(Set(x, s, e, v, w), s, e, w), k) == Bit(v, k) {
      GetBits(Set(x, s, e, v, w), s, e, k, w);
      if k < n {
        SetBits(x, s, e, v, k + s, w);
      } else {
        HighBits(v, n, k);
      }
    }
    SameBits(Get(Set(x, s, e, v, w), s, e, w), v, w);
  }

  /** A write to one field does not change what a field beside it reads. */
  lemma GetOther(x: nat, s: nat, e: nat, v: nat, s': nat, e': nat, w: nat)
    requires s <= e < w && s' <= e' < w && (e < s' || e' < s)
    ensures Get(Set(x, s, e, v, w), s', e', w) == Get(x, s', e', w)
  {
    GetBound(Set(x, s, e, v, w), s', e', w);
    GetBound(x, s', e', w);
    forall k | 0 <= k < w
      ensures Bit(Get(Set(x, s, e, v, w), s', e', w), k) == Bit(Get(x, s', e', w), k)
    {
      GetBits(Set(x, s, e, v, w), s', e', k, w);
      GetBits(x, s', e', k, w);
      if k <= e' - s' {
        SetBits(x, s, e, v, k + s', w);
      }
    }
    SameBits(Get(Set(x, s, e, v, w), s', e', w), Get(x, s', e', w), w);
  }

  /** Writes to fields beside each other may be swapped. */
  lemma SetsCommute(x: nat, s: nat, e: nat, v: nat, s': nat, e': nat, v': nat, w: nat)
    requires s <= e < w && s' <= e' < w && (e < s' || e' < s)
    ensures Set(Set(x, s, e, v, w), s', e', v', w) == Set(Set(x, s', e', v', w), s, e, v, w)
  {
    var y, z := Set(Set(x, s, e, v, w), s', e', v', w), Set(Set(x, s', e', v', w), s, e, v, w);
    forall k | 0 <= k < w ensures Bit(y, k) == Bit(z, k) {
      SetBits(Set(x, s, e, v, w), s', e', v', k, w);
      SetBits(x, s, e, v, k, w);
      SetBits(Set(x, s', e', v', w), s, e, v, k, w);
      SetBits(x, s', e', v', k, w);
    }
    SameBits(y, z, w);
  }

  /** Writing back what was read changes nothing. */
  lemma SetOfGet(x: nat, s: nat, e: nat, w: nat)
    requires s <= e < w && x < Pow(2, w)
    ensures Set(x, s, e, Get(x, s, e, w), w) == x
  {
    forall k | 0 <= k < w ensures Bit(Set(x, s, e, Get(x, s, e, w), w), k) == Bit(x, k) {
      SetBits(x, s, e, Get(x, s, e, w), k, w);
      if s <= k <= e {
        GetBits(x, s, e, k - s, w);
      }
    }
    SameBits(Set(x, s, e, Get(x, s, e, w), w), x, w);
  }
}

/** The bind objects over four bytes of memory. */
module Uint32SubBinds {
  import opened Digits
  import opened Endian
  import opened Bits

  const WIDTH: nat := 32

  lemma FourBytes()
    ensures Pow(256, 4) == Pow(2, WIDTH)
  {
    assert Pow(2, 8) == 256;
    PowSplit(2, 8, 8);
    PowSplit(2, 16, 8);
    PowSplit(2, 24, 8);
    assert Pow(256, 4) == 256 * Pow(256, 3);
    assert Pow(256, 3) == 256 * Pow(256, 2);
    assert Pow(256, 2) == 256 * Pow(256, 1);
  }

  lemma WordInOrder(bytes: seq<nat>)
    requires InBase(bytes, 256) && |bytes| == 4
    ensures forall k :: 0 <= k < 4 ==> ByteOf(LittleValue(bytes), k) == bytes[k]
    ensures forall k :: 0 <= k < 4 ==> ByteOf(BigValue(bytes), k) == bytes[3 - k]
  {
    forall k | 0 <= k < 4
      ensures ByteOf(LittleValue(bytes), k) == bytes[k] && ByteOf(BigValue(bytes), k) == bytes[3 - k]
    {
      ByteOrderRead(bytes, k);
    }
  }

  class Uint32SubBind {
    const memory: array<Byte>
    const at: nat
    const bigEndian: bool
    const start: nat
    const end: nat

    predicate Valid() {
      start <= end < WIDTH && at + 4 <= memory.Length
    }

    /** The place in memory of the byte of weight 256 to the k. */
    function PlaceOf(k: nat): nat
      requires k < 4
    {
      at + if bigEndian then 3 - k else k
    }

    /** The word in memory, in the bind's byte order. */
    function Word(): (word: nat)
      requires Valid()
      reads memory
      ensures forall k :: 0 <= k < 4 ==> ByteOf(word, k) == memory[PlaceOf(k)]
    {
      WordInOrder(memory[at..at + 4]);
      if bigEndian then BigValue(memory[at..at + 4]) else LittleValue(memory[at..at + 4])
    }

    /** The indices may come in either order. */
    constructor (memory: array<Byte>, at: nat, bigEndian: bool, startIndex: nat, endIndex: nat)
      requires startIndex < WIDTH && endIndex < WIDTH && at + 4 <= memory.Length
      ensures Valid() && this.memory == memory && this.at == at && this.bigEndian == bigEndian
      ensures {start, end} == {startIndex, endIndex}
    {
      this.memory, this.at, this.bigEndian := memory, at, bigEndian;
      if startIndex > endIndex {
        start, end := endIndex, startIndex;
      } else {
        start, end := startIndex, endIndex;
      }
    }

    method BoundValue() returns (word: nat)
      requires Valid()
      ensures word == Word()
    {
      if bigEndian {
        word := ReadBigEndian(memory, at, 4);
      } else {
        word := ReadLittleEndian(memory, at, 4);
      }
    }

    method GetValue() returns (value: nat)
      requires Valid()
      ensures value == Get(Word(), start, end, WIDTH) <= MaxValue(start, end, WIDTH)
    {
      GetBound(Word(), start, end, WIDTH);
      var word := BoundValue();
      value := And(Shr(word, start), Mark(start, end, WIDTH), WIDTH);
    }

    method SetBoundValue(word: nat)
      requires Valid() && word < Pow(2, WIDTH)
      modifies memory
      ensures Word() == word
      ensures memory[..at] == old(memory[..at]) && memory[at + 4..] == old(memory[at + 4..])
    {
      FourBytes();
      RoundTrip(word, 4);
      ModUnique(word, Pow(256, 4), 0, word);
      if bigEndian {
        WriteBigEndian(memory, at, 4, word);
        assert memory[at..at + 4] == BigBytes(word, 4);
      } else {
        WriteLittleEndian(memory, at, 4, word);
        assert memory[at..at + 4] == LittleBytes(word, 4);
      }
    }

    /** Changes the field's bits of this word and nothing else in memory. */
    method SetValue(value: nat)
      requires Valid() && value <= MaxValue(start, end, WIDTH)
      modifies memory
      ensures Word() == Set(old(Word()), start, end, value, WIDTH)
      ensures Get(Word(), start, end, WIDTH) == value
      ensures memory[..at] == old(memory[..at]) && memory[at + 4..] == old(memory[at + 4..])
    {
      GetAfterSet(Word(), start, end, value, WIDTH);
      var temp := BoundValue();
      SetBoundValue(Set(temp, start, end, value, WIDTH));
    }
  }
}
