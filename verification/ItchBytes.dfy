/** Big-endian fields: how they are loaded (a little-endian load, then a byte swap), how they are written, and how
    a register of fixed width collects them one byte at a time. */
module ItchBytes {

  type Byte = x: int | 0 <= x < 256

  /** 256 to the `n`. */
  function Radix(n: nat): (r: nat)
    ensures r > 0
  {
    if n == 0 then 1 else 256 * Radix(n - 1)
  }

  /** The value of bytes most significant first. */
  function FromBig(b: seq<Byte>): (v: nat)
    ensures v < Radix(|b|)
  {
    if b == [] then 0 else 256 * FromBig(b[..|b| - 1]) + b[|b| - 1]
  }

  /** The value of bytes least significant first, as a load on a little-endian machine sees them. */
  function FromLittle(b: seq<Byte>): (v: nat)
    ensures v < Radix(|b|)
  {
    if b == [] then 0 else b[0] + 256 * FromLittle(b[1..])
  }

  function ToLittle(v: nat, n: nat): (b: seq<Byte>)
    ensures |b| == n
  {
    if n == 0 then [] else [v % 256] + ToLittle(v / 256, n - 1)
  }

  function Reverse(b: seq<Byte>): (r: seq<Byte>)
    ensures |r| == |b|
  {
    if b == [] then [] else Reverse(b[1..]) + [b[0]]
  }

  /** The byte-swap instruction on an `n`-byte word. */
  function Swap(v: nat, n: nat): nat {
    FromLittle(Reverse(ToLittle(v, n)))
  }

  function Read(p: seq<Byte>, off: nat, n: nat): nat
    requires off + n <= |p|
  {
    Swap(FromLittle(p[off..off + n]), n)
  }

  /** Six bytes copied behind two zero ones, then swapped as eight. */
  function Read48(p: seq<Byte>, off: nat): nat
    requires off + 6 <= |p|
  {
    Swap(FromLittle([0, 0] + p[off..off + 6]), 8)
  }

  lemma {:induction false} LittleRoundTrip(b: seq<Byte>)
    ensures ToLittle(FromLittle(b), |b|) == b
  {
    if b != [] {
      LittleRoundTrip(b[1..]);
      assert FromLittle(b) % 256 == b[0] && FromLittle(b) / 256 == FromLittle(b[1..]);
      assert b == [b[0]] + b[1..];
    }
  }

  lemma {:induction false} LittleAppend(b: seq<Byte>, x: Byte)
    ensures FromLittle(b + [x]) == FromLittle(b) + Radix(|b|) * x
  {
    if b == [] {
      assert [x][1..] == [];
    } else {
      assert (b + [x])[1..] == b[1..] + [x];
      LittleAppend(b[1..], x);
      assert 256 * (Radix(|b| - 1) * x) == Radix(|b|) * x;
    }
  }

  lemma {:induction false} BigPrepend(x: Byte, b: seq<Byte>)
    ensures FromBig([x] + b) == Radix(|b|) * x + FromBig(b)
  {
    if b == [] {
      assert [x] + b == [x];
      assert [x][..0] == [];
    } else {
      var some, last := b[..|b| - 1], b[|b| - 1];
      assert ([x] + b)[..|b|] == [x] + some;
      BigPrepend(x, some);
      assert 256 * (Radix(|some|) * x) == Radix(|b|) * x;
    }
  }

  lemma {:induction false} ReversedValue(b: seq<Byte>)
    ensures FromLittle(Reverse(b)) == FromBig(b)
  {
    if b != [] {
      ReversedValue(b[1..]);
      LittleAppend(Reverse(b[1..]), b[0]);
      BigPrepend(b[0], b[1..]);
      assert [b[0]] + b[1..] == b;
    }
  }

  /** A load and a byte swap read a big-endian value. */
  lemma SwapReadsBig(b: seq<Byte>)
    ensures Swap(FromLittle(b), |b|) == FromBig(b)
  {
    LittleRoundTrip(b);
    ReversedValue(b);
  }

  lemma ReadIsBig(p: seq<Byte>, off: nat, n: nat)
    requires off + n <= |p|
    ensures Read(p, off, n) == FromBig(p[off..off + n])
  {
    SwapReadsBig(p[off..off + n]);
  }

  lemma Read48IsBig(p: seq<Byte>, off: nat)
    requires off + 6 <= |p|
    ensures Read48(p, off) == FromBig(p[off..off + 6])
  {
    var b := p[off..off + 6];
    SwapReadsBig([0, 0] + b);
    assert [0] + ([0] + b) == [0, 0] + b;
    BigPrepend(0, [0] + b);
    BigPrepend(0, b);
  }

  // ---- writing ----

  /** The `n` bytes of a value, most significant first. */
  function ToBig(v: nat, n: nat): (b: seq<Byte>)
    ensures |b| == n
  {
    if n == 0 then [] else ToBig(v / 256, n - 1) + [v % 256]
  }

  lemma {:induction false} BigRoundTrip(v: nat, n: nat)
    requires v < Radix(n)
    ensures FromBig(ToBig(v, n)) == v
  {
    if n > 0 {
      BigRoundTrip(v / 256, n - 1);
      assert ToBig(v, n)[..n - 1] == ToBig(v / 256, n - 1);
    }
  }

  /** A register of fixed width shifting in a byte: the oldest leaves. */
  function Shift(acc: seq<Byte>, x: Byte): (r: seq<Byte>)
    requires acc != []
    ensures |r| == |acc|
  {
    acc[1..] + [x]
  }

  /** As a value: eight bits to the left, with the new byte below and the top byte gone from above the width. */
  lemma ShiftIsConcatenation(acc: seq<Byte>, x: Byte)
    requires acc != []
    ensures 256 * FromBig(acc) + x == Radix(|acc|) * acc[0] + FromBig(Shift(acc, x))
  {
    hide FromBig, Radix, Shift;
    ShiftValue(acc, x);
    TopValue(acc);
    Carry(Radix(|acc| - 1), acc[0], FromBig(acc[1..]), x);
  }

  lemma ShiftValue(acc: seq<Byte>, x: Byte)
    requires acc != []
    ensures FromBig(Shift(acc, x)) == 256 * FromBig(acc[1..]) + x
  {
    assert Shift(acc, x)[..|acc| - 1] == acc[1..];
  }

  lemma TopValue(acc: seq<Byte>)
    requires acc != []
    ensures FromBig(acc) == Radix(|acc| - 1) * acc[0] + FromBig(acc[1..]) && Radix(|acc|) == 256 * Radix(|acc| - 1)
  {
    BigPrepend(acc[0], acc[1..]);
    assert [acc[0]] + acc[1..] == acc;
  }

  lemma Carry(r: nat, a: nat, f: nat, x: nat)
    ensures 256 * (r * a + f) + x == (256 * r) * a + (256 * f + x)
  {
    var p := r * a;
    assert (256 * r) * a == 256 * p;
  }
}
