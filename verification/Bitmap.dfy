/** The occupancy bitmap of the price grids: 64-bit words, one bit per tick, searched word by word. */
module Bitmap {

  /** A 64-bit word as its bits, least significant first. */
  type Word = w: seq<bool> | |w| == 64 witness Fill(false)

  const ZERO: Word := Fill(false)
  const ONES: Word := Fill(true)

  function Fill(b: bool): seq<bool> { seq(64, _ => b) }

  function Or(a: Word, b: Word): Word { seq(64, i requires 0 <= i < 64 => a[i] || b[i]) }

  function And(a: Word, b: Word): Word { seq(64, i requires 0 <= i < 64 => a[i] && b[i]) }

  function Not(a: Word): Word { seq(64, i requires 0 <= i < 64 => !a[i]) }

  function ShiftLeft(a: Word, n: nat): Word { seq(64, i requires 0 <= i < 64 => i >= n && a[i - n]) }

  function ShiftRight(a: Word, n: nat): Word { seq(64, i requires 0 <= i < 64 => i + n < 64 && a[i + n]) }

  /** The word `1 << k`. */
  function OneBit(k: nat): Word { ShiftLeft(ZERO[0 := true], k) }

  /** Number of zero bits above the highest set bit. */
  function LeadingZeros(w: Word): (n: nat)
    ensures n <= 64 && (n == 64 <==> w == ZERO)
    ensures n < 64 ==> w[63 - n]
    ensures forall i :: 64 - n <= i < 64 ==> !w[i]
  {
    LeadingZerosFrom(w, 0)
  }

  function LeadingZerosFrom(w: Word, k: nat): (n: nat)
    requires k <= 64 && forall i :: 64 - k <= i < 64 ==> !w[i]
    ensures n <= 64 && (n == 64 <==> w == ZERO)
    ensures n < 64 ==> w[63 - n]
    ensures forall i :: 64 - n <= i < 64 ==> !w[i]
    decreases 64 - k
  {
    if k == 64 then assert w == ZERO; 64
    else if w[63 - k] then k
    else LeadingZerosFrom(w, k + 1)
  }

  /** Number of zero bits below the lowest set bit. */
  function TrailingZeros(w: Word): (n: nat)
    ensures n <= 64 && (n == 64 <==> w == ZERO)
    ensures n < 64 ==> w[n]
    ensures forall i :: 0 <= i < n ==> !w[i]
  {
    TrailingZerosFrom(w, 0)
  }

  function TrailingZerosFrom(w: Word, k: nat): (n: nat)
    requires k <= 64 && forall i :: 0 <= i < k ==> !w[i]
    ensures n <= 64 && (n == 64 <==> w == ZERO)
    ensures n < 64 ==> w[n]
    ensures forall i :: 0 <= i < n ==> !w[i]
    decreases 64 - k
  {
    if k == 64 then assert w == ZERO; 64
    else if w[k] then k
    else TrailingZerosFrom(w, k + 1)
  }

  predicate Test(bits: seq<Word>, t: nat)
    requires t / 64 < |bits|
  {
    bits[t / 64][t % 64]
  }

  function SetBit(bits: seq<Word>, t: nat): (r: seq<Word>)
    requires t / 64 < |bits|
    ensures |r| == |bits|
    ensures forall u: nat :: u / 64 < |bits| ==> (Test(r, u) <==> Test(bits, u) || u == t)
  {
    bits[t / 64 := Or(bits[t / 64], OneBit(t % 64))]
  }

  function ClearBit(bits: seq<Word>, t: nat): (r: seq<Word>)
    requires t / 64 < |bits|
    ensures |r| == |bits|
    ensures forall u: nat :: u / 64 < |bits| ==> (Test(r, u) <==> Test(bits, u) && u != t)
  {
    bits[t / 64 := And(bits[t / 64], Not(OneBit(t % 64)))]
  }

  /** Searching downwards from `from`, `r` is the first set tick met, or -1 for a search in vain. */
  ghost predicate IsBelow(bits: seq<Word>, from: int, r: int) {
    && -1 <= r <= from
    && (r >= 0 ==> r / 64 < |bits| && Test(bits, r))
    && (forall u :: r < u <= from && 0 <= u / 64 < |bits| ==> !Test(bits, u))
  }

  /** The same for a search upwards. */
  ghost predicate IsAbove(bits: seq<Word>, from: int, r: int) {
    && r >= -1
    && (r >= 0 ==> from <= r && r / 64 < |bits| && Test(bits, r))
    && (forall u :: 0 <= u && from <= u && (r < 0 || u < r) && u / 64 < |bits| ==> !Test(bits, u))
  }

  /** No tick from word `w` on, up to `from`, is set. */
  ghost predicate ClearAbove(bits: seq<Word>, w: nat, from: int)
    requires from / 64 < |bits|
  {
    forall u :: 64 * w <= u <= from ==> !Test(bits, u)
  }

  /** The masked word's highest bit is the tick sought. */
  lemma HighestOfWord(bits: seq<Word>, from: int, w: nat, word: Word, r: int)
    requires 0 <= from / 64 < |bits| && w <= from / 64 && ClearAbove(bits, w + 1, from)
    requires forall i :: 0 <= i < 64 ==> (word[i] <==> bits[w][i] && 64 * w + i <= from)
    requires LeadingZeros(word) < 64 && r == 64 * w + (63 - LeadingZeros(word))
    ensures IsBelow(bits, from, r)
  {
    forall u | r < u <= from && 0 <= u / 64 < |bits| ensures !Test(bits, u) {
      if u < 64 * (w + 1) {
        assert !word[u % 64];
      }
    }
    assert r / 64 == w && r % 64 == 63 - LeadingZeros(word);
  }

  method ScanDown(bits: seq<Word>, from: int) returns (r: int)
    requires -1 <= from && from / 64 < |bits|
    ensures IsBelow(bits, from, r)
  {
    if from < 0 {
      return -1;
    }
    var w := from / 64;
    var word := And(bits[w], ShiftRight(ONES, 63 - from % 64));
    while true
      invariant 0 <= w < |bits| && w <= from / 64
      invariant forall i :: 0 <= i < 64 ==> (word[i] <==> bits[w][i] && 64 * w + i <= from)
      invariant ClearAbove(bits, w + 1, from)
      decreases w
    {
      if word != ZERO {
        r := 64 * w + (63 - LeadingZeros(word));
        HighestOfWord(bits, from, w, word, r);
        return;
      }
      if w == 0 {
        return -1;
      }
      w := w - 1;
      word := bits[w];
    }
  }

  method ScanUp(bits: seq<Word>, from: int, ticks: nat) returns (r: int)
    requires |bits| == (ticks + 63) / 64
    requires forall u: nat :: ticks <= u && u / 64 < |bits| ==> !Test(bits, u)
    ensures IsAbove(bits, from, r)
  {
    var at := if from < 0 then 0 else from;
    if at >= ticks {
      return -1;
    }
    var w := at / 64;
    var word := And(bits[w], ShiftLeft(ONES, at % 64));
    while true
      invariant at / 64 <= w < |bits|
      invariant forall i :: 0 <= i < 64 ==> (word[i] <==> bits[w][i] && at <= 64 * w + i)
      invariant forall u :: at <= u < 64 * w ==> !Test(bits, u)
      decreases |bits| - w
    {
      if word != ZERO {
        return 64 * w + TrailingZeros(word);
      }
      if w + 1 >= |bits| {
        return -1;
      }
      w := w + 1;
      word := bits[w];
    }
  }
}
