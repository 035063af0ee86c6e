/** The length-prefixed reader. */
module ItchReader {

  // Framing, the bodies the reader skips, and the statistics it keeps.

  import opened ItchBytes
  import opened ItchMessages

  // ---- framing ----

  /** A body behind its two-byte length. */
  function Frame(b: seq<Byte>): seq<Byte> {
    ToBig(|b|, 2) + b
  }

  function Framed(bs: seq<seq<Byte>>): seq<Byte> {
    if bs == [] then [] else Frame(bs[0]) + Framed(bs[1..])
  }

  /** The length prefix at the front of what is left. */
  function Prefix(rest: seq<Byte>): nat
    requires |rest| >= 2
  {
    Read(rest, 0, 2)
  }

  /** No further message can be taken: under two bytes, a zero length, or a length past the end. */
  predicate Stuck(rest: seq<Byte>) {
    |rest| < 2 || Prefix(rest) == 0 || |rest| < 2 + Prefix(rest)
  }

  /** The bodies a byte stream frames. */
  function Split(rest: seq<Byte>): seq<seq<Byte>> {
    if Stuck(rest) then [] else [rest[2..2 + Prefix(rest)]] + Split(rest[2 + Prefix(rest)..])
  }

  predicate Sized(b: seq<Byte>) {
    0 < |b| < 65536
  }

  lemma PrefixOfFrame(b: seq<Byte>, tail: seq<Byte>)
    requires |b| < 65536
    ensures |Frame(b)| == 2 + |b| && Prefix(Frame(b) + tail) == |b|
  {
    var all := Frame(b) + tail;
    ReadIsBig(all, 0, 2);
    assert all[0..2] == ToBig(|b|, 2);
    BigRoundTrip(|b|, 2);
    assert Radix(2) == 65536;
  }

  lemma PrefixBound(rest: seq<Byte>)
    requires |rest| >= 2
    ensures Prefix(rest) < 65536 && ToBig(Prefix(rest), 2) == rest[..2]
  {
    ReadIsBig(rest, 0, 2);
    var b := rest[0..2];
    assert b[..1] == [b[0]] && b[..1][..0] == [];
    assert FromBig(b) == 256 * FromBig(b[..1]) + b[1] && FromBig(b[..1]) == b[0];
    var hi: nat, lo: nat := b[0], b[1];
    var v := 256 * hi + lo;
    assert v / 256 == b[0] && v % 256 == b[1];
    assert ToBig(v, 2) == ToBig(b[0], 1) + [b[1]];
    assert ToBig(b[0], 1) == ToBig(b[0] / 256, 0) + [b[0]];
  }

  /** The first body of a stream, and the rest of it. */
  function First(data: seq<Byte>): seq<Byte>
    requires !Stuck(data)
  {
    data[2..2 + Prefix(data)]
  }

  function Rest(data: seq<Byte>): seq<Byte>
    requires !Stuck(data)
  {
    data[2 + Prefix(data)..]
  }

  lemma FrameFirst(data: seq<Byte>)
    requires !Stuck(data)
    ensures data == Frame(First(data)) + Rest(data) && Sized(First(data)) && |Rest(data)| < |data|
    ensures Split(data) == [First(data)] + Split(Rest(data))
  {
    hide Prefix, ToBig;
    PrefixBound(data);
  }

  lemma FirstOfFrame(b: seq<Byte>, more: seq<Byte>)
    requires Sized(b)
    ensures !Stuck(Frame(b) + more) && First(Frame(b) + more) == b && Rest(Frame(b) + more) == more
  {
    hide Prefix, ToBig;
    PrefixOfFrame(b, more);
  }

  /** Splitting undoes framing, for any bodies a prefix can hold and whatever follows them. */
  lemma {:induction false} SplitFramed(bs: seq<seq<Byte>>, tail: seq<Byte>)
    requires forall k :: 0 <= k < |bs| ==> Sized(bs[k])
    ensures Split(Framed(bs) + tail) == bs + Split(tail)
  {
    hide Split, Frame, First, Rest, Stuck;
    if bs == [] {
      assert Framed(bs) + tail == tail;
    } else {
      var b, more := bs[0], Framed(bs[1..]) + tail;
      SplitFramed(bs[1..], tail);
      assert Framed(bs) + tail == Frame(b) + more;
      FirstOfFrame(b, more);
      FrameFirst(Frame(b) + more);
      assert [b] + (bs[1..] + Split(tail)) == bs + Split(tail);
    }
  }

  lemma FramedCons(b: seq<Byte>, bs: seq<seq<Byte>>)
    ensures Framed([b] + bs) == Frame(b) + Framed(bs)
  {
    assert ([b] + bs)[1..] == bs;
  }

  lemma {:induction false} SplitSized(data: seq<Byte>)
    ensures forall k :: 0 <= k < |Split(data)| ==> Sized(Split(data)[k])
    decreases |data|
  {
    if !Stuck(data) {
      hide Split, Frame, First, Rest, Stuck, Sized;
      FrameFirst(data);
      SplitSized(Rest(data));
    }
  }

  /** Framing undoes splitting: the bodies, framed again, are the bytes they came from, and no body is left. */
  lemma {:induction false} FramedSplit(data: seq<Byte>)
    ensures Framed(Split(data)) <= data && Stuck(data[|Framed(Split(data))|..])
    decreases |data|
  {
    if Stuck(data) {
      assert data[0..] == data;
    } else {
      hide Framed, Split, Frame, First, Rest, Stuck, Sized;
      var b, more := First(data), Rest(data);
      FrameFirst(data);
      FramedSplit(more);
      FramedCons(b, Split(more));
      Behind(data, Frame(b), more, Framed(Split(more)));
    }
  }

  lemma Behind(data: seq<Byte>, a: seq<Byte>, more: seq<Byte>, b: seq<Byte>)
    requires data == a + more && b <= more
    ensures a + b <= data && data[|a + b|..] == more[|b|..]
  {
  }

  lemma {:induction false} FramedAppend(bs: seq<seq<Byte>>, b: seq<Byte>)
    ensures Framed(bs + [b]) == Framed(bs) + Frame(b)
  {
    if bs == [] {
      assert bs + [b] == [b];
      assert Framed([b][1..]) == [];
    } else {
      FramedAppend(bs[1..], b);
      assert (bs + [b])[1..] == bs[1..] + [b];
    }
  }

  // ---- statistics ----

  /** What a body can be counted as. */
  datatype Mark = Short | Unknown | Mismatched | Typed(t: Byte) | Handed

  predicate Has(b: seq<Byte>, mark: Mark) {
    b != [] &&
    match mark
    case Short => !LongEnough(b)
    case Handed => LongEnough(b)
    case Unknown => |b| >= HEADER_LENGTH && SpecLength(b[0]) == 0
    case Mismatched => |b| >= HEADER_LENGTH && SpecLength(b[0]) != 0 && SpecLength(b[0]) != |b|
    case Typed(t) => b[0] == t
  }

  function Count(bs: seq<seq<Byte>>, mark: Mark): nat {
    if bs == [] then 0 else Count(bs[..|bs| - 1], mark) + if Has(bs[|bs| - 1], mark) then 1 else 0
  }

  lemma CountAppend(bs: seq<seq<Byte>>, b: seq<Byte>, mark: Mark)
    ensures Count(bs + [b], mark) == Count(bs, mark) + if Has(b, mark) then 1 else 0
  {
    assert (bs + [b])[..|bs|] == bs;
  }

  datatype Stats = Stats(
    messages: nat, bytes: nat, unknownType: nat, lengthMismatch: nat, truncated: nat, zeroLength: nat,
    shortMessage: nat, perType: seq<nat>)

  /** The statistics of the bodies taken so far, before anything has gone wrong with the framing. */
  ghost predicate Tallied(s: Stats, seen: seq<seq<Byte>>) {
    && s.messages == |seen|
    && s.shortMessage == Count(seen, Short)
    && s.unknownType == Count(seen, Unknown)
    && s.lengthMismatch == Count(seen, Mismatched)
    && |s.perType| == 256
    && forall t: Byte :: s.perType[t] == Count(seen, Typed(t))
  }

  function SumOf(counts: seq<nat>): nat {
    if counts == [] then 0 else SumOf(counts[..|counts| - 1]) + counts[|counts| - 1]
  }

  lemma {:induction false} SumBump(counts: seq<nat>, k: nat)
    requires k < |counts|
    ensures SumOf(counts[k := counts[k] + 1]) == SumOf(counts) + 1
  {
    var n := |counts| - 1;
    if k < n {
      SumBump(counts[..n], k);
      assert counts[k := counts[k] + 1][..n] == counts[..n][k := counts[k] + 1];
    } else {
      assert counts[k := counts[k] + 1][..n] == counts[..n];
    }
  }

  lemma {:induction false} SumZero(counts: seq<nat>)
    requires forall k :: 0 <= k < |counts| ==> counts[k] == 0
    ensures SumOf(counts) == 0
  {
    if counts != [] {
      SumZero(counts[..|counts| - 1]);
    }
  }

  function TypeCounts(seen: seq<seq<Byte>>, n: nat): seq<nat>
    requires n <= 256
  {
    seq(n, t requires 0 <= t < n => Count(seen, Typed(t)))
  }

  lemma {:induction false} TypesAddUp(seen: seq<seq<Byte>>)
    requires forall k :: 0 <= k < |seen| ==> seen[k] != []
    ensures SumOf(TypeCounts(seen, 256)) == |seen|
  {
    if seen == [] {
      SumZero(TypeCounts(seen, 256));
    } else {
      var some, b := seen[..|seen| - 1], seen[|seen| - 1];
      TypesAddUp(some);
      SumBump(TypeCounts(some, 256), b[0]);
      assert TypeCounts(seen, 256) == TypeCounts(some, 256)[b[0] := TypeCounts(some, 256)[b[0]] + 1];
    }
  }

  lemma {:induction false} HandedOrShort(seen: seq<seq<Byte>>)
    requires forall k :: 0 <= k < |seen| ==> seen[k] != []
    ensures Count(seen, Handed) + Count(seen, Short) == |seen|
  {
    if seen != [] {
      HandedOrShort(seen[..|seen| - 1]);
    }
  }

  /** `messages` is what was handed out plus what was too short, and also the sum of the per-type counts. */
  lemma StatsAddUp(s: Stats, seen: seq<seq<Byte>>)
    requires Tallied(s, seen) && forall k :: 0 <= k < |seen| ==> seen[k] != []
    ensures s.messages == Count(seen, Handed) + s.shortMessage == SumOf(s.perType)
  {
    HandedOrShort(seen);
    TypesAddUp(seen);
    assert s.perType == TypeCounts(seen, 256);
  }

  /** The statistics after one more body. */
  function Recorded(s: Stats, b: seq<Byte>): Stats
    requires Sized(b) && |s.perType| == 256
  {
    s.(messages := s.messages + 1,
       perType := s.perType[b[0] := s.perType[b[0]] + 1],
       unknownType := s.unknownType + if Has(b, Unknown) then 1 else 0,
       lengthMismatch := s.lengthMismatch + if Has(b, Mismatched) then 1 else 0,
       shortMessage := s.shortMessage + if Has(b, Short) then 1 else 0)
  }

  lemma RecordedTally(s: Stats, seen: seq<seq<Byte>>, b: seq<Byte>)
    requires Tallied(s, seen) && Sized(b)
    ensures Tallied(Recorded(s, b), seen + [b])
  {
    CountAppend(seen, b, Short);
    CountAppend(seen, b, Unknown);
    CountAppend(seen, b, Mismatched);
    var s' := Recorded(s, b);
    forall t: Byte ensures s'.perType[t] == Count(seen + [b], Typed(t)) {
      CountAppend(seen, b, Typed(t));
    }
  }

  /** What each counter counts, told by lengths and the table of the hardware parser: bodies of a type it does not
      list, of a listed type with another length, too short for the header or their type, and of each type. */
  lemma CountersMean(s: Stats, seen: seq<seq<Byte>>)
    requires Tallied(s, seen) && forall k :: 0 <= k < |seen| ==> seen[k] != []
    ensures s.unknownType == |set k | 0 <= k < |seen| && |seen[k]| >= 11 && RtlSpecLength(seen[k][0]) == 0|
    ensures s.lengthMismatch ==
      |set k | 0 <= k < |seen| && |seen[k]| >= 11 && RtlSpecLength(seen[k][0]) !in {0, |seen[k]|}|
    ensures s.shortMessage == |set k | 0 <= k < |seen| && (|seen[k]| < 11 || |seen[k]| < RtlSpecLength(seen[k][0]))|
    ensures forall t: Byte :: s.perType[t] == |set k | 0 <= k < |seen| && seen[k][0] == t|
  {
    hide SpecLength, Count;
    forall k | 0 <= k < |seen| ensures SpecLength(seen[k][0]) == RtlSpecLength(seen[k][0]) {
      SpecTablesAgree(seen[k][0]);
    }
    CountIs(seen, Unknown);
    CountIs(seen, Mismatched);
    CountIs(seen, Short);
    assert Marked(seen, Unknown) ==
      set k | 0 <= k < |seen| && |seen[k]| >= 11 && RtlSpecLength(seen[k][0]) == 0;
    assert Marked(seen, Mismatched) ==
      set k | 0 <= k < |seen| && |seen[k]| >= 11 && RtlSpecLength(seen[k][0]) !in {0, |seen[k]|};
    assert Marked(seen, Short) ==
      set k | 0 <= k < |seen| && (|seen[k]| < 11 || |seen[k]| < RtlSpecLength(seen[k][0]));
    forall t: Byte ensures s.perType[t] == |set k | 0 <= k < |seen| && seen[k][0] == t| {
      CountIs(seen, Typed(t));
      assert Marked(seen, Typed(t)) == set k | 0 <= k < |seen| && seen[k][0] == t;
    }
  }

  function Marked(bs: seq<seq<Byte>>, mark: Mark): set<int> {
    set k | 0 <= k < |bs| && Has(bs[k], mark)
  }

  lemma MarkedLast(bs: seq<seq<Byte>>, mark: Mark)
    requires bs != []
    ensures var n, some := |bs| - 1, Marked(bs[..|bs| - 1], mark);
      n !in some && Marked(bs, mark) == if Has(bs[n], mark) then some + {n} else some
  {
    hide Has;
    var n, before := |bs| - 1, bs[..|bs| - 1];
    forall k ensures k in Marked(bs, mark) <==> k in Marked(before, mark) || (k == n && Has(bs[n], mark)) {
      assert 0 <= k < n ==> bs[k] == before[k];
    }
  }

  lemma {:induction false} CountIs(bs: seq<seq<Byte>>, mark: Mark)
    ensures Count(bs, mark) == |Marked(bs, mark)|
  {
    if bs == [] {
      assert Marked(bs, mark) == {};
    } else {
      hide Has, Marked;
      CountIs(bs[..|bs| - 1], mark);
      MarkedLast(bs, mark);
    }
  }

  // ---- the reader ----

  /** Where the reader stands: between messages, past a clean terminator, or past a truncated tail. */
  datatype Standing = Reading | Terminated | Cut

  /** Where that is, and what it has counted: `done` bytes are those of the bodies taken, `tail` is what follows. */
  ghost predicate At(st: Standing, cur: nat, s: Stats, done: nat, tail: seq<Byte>) {
    match st
    case Reading =>
      && cur == s.bytes == done && s.truncated == 0
      && (s.zeroLength > 0 ==> |tail| > 2 && Prefix(tail) == 0)
    case Terminated =>
      && cur == s.bytes == done + 2 && s.truncated == 0 && s.zeroLength == 0
      && |tail| == 2 && Prefix(tail) == 0
    case Cut =>
      && cur == done + |tail| && s.bytes == done && s.truncated == 1 && s.zeroLength == 0
      && |tail| >= 2 && Prefix(tail) > 0 && |tail| < 2 + Prefix(tail)
  }

  class Reader {
    const data: seq<Byte>
    var cur: nat
    var stats: Stats
    /** Every body taken from the stream so far, handed out or skipped. */
    ghost var seen: seq<seq<Byte>>

    ghost predicate Parsed()
      reads this
    {
      && Framed(seen) <= data
      && (forall k :: 0 <= k < |seen| ==> Sized(seen[k]))
      && Split(data) == seen + Split(data[|Framed(seen)|..])
    }

    /** What is left after the bodies taken. */
    ghost function Tail(): seq<Byte>
      requires Parsed()
      reads this
    {
      data[|Framed(seen)|..]
    }

    ghost predicate Stands(st: Standing)
      requires Parsed()
      reads this
    {
      At(st, cur, stats, |Framed(seen)|, Tail())
    }

    ghost predicate Valid()
      reads this
    {
      Parsed() && Tallied(stats, seen) && (Stands(Reading) || Stands(Terminated) || Stands(Cut))
    }

    constructor (data: seq<Byte>)
      ensures Valid() && this.data == data && seen == [] && Stands(Reading)
    {
      this.data := data;
      cur := 0;
      stats := Stats(0, 0, 0, 0, 0, 0, 0, Zeros(256));
      seen := [];
      new;
      assert data[0..] == data;
    }

    lemma SeenIsPrefix()
      requires Valid()
      ensures seen <= Split(data)
    {
    }

    lemma CursorInside()
      requires Valid()
      ensures cur <= |data|
    {
    }

    /** Bytes read and bytes left make up the file until its tail turns out to be cut; and `messages` adds up. */
    method BytesRemaining() returns (n: nat)
      requires Valid()
      ensures n == |data| - cur
      ensures stats.truncated == 0 ==> stats.bytes + n == |data|
      ensures stats.truncated > 0 ==> n == 0 && stats.bytes + |Tail()| == |data|
      ensures stats.messages == Count(seen, Handed) + stats.shortMessage == SumOf(stats.perType)
    {
      StatsAddUp(stats, seen);
      n := |data| - cur;
    }

    /** The next body long enough for every read of its view; those that are not are counted and skipped. Ends
        exactly where the stream can no longer be split. */
    method Next() returns (ok: bool, out: seq<Byte>)
      requires Valid()
      modifies this
      ensures Valid() && old(seen) <= seen
      ensures ok ==> cur > old(cur) && |old(seen)| < |seen| && out == seen[|seen| - 1] && LongEnough(out)
      ensures forall k :: |old(seen)| <= k < |seen| - (if ok then 1 else 0) ==> !LongEnough(seen[k])
      ensures !ok ==> seen == Split(data) && Stuck(Tail())
      ensures !ok && |Tail()| >= 2 && Prefix(Tail()) > 0 ==> Stands(Cut)
      ensures !ok && |Tail()| == 2 && Prefix(Tail()) == 0 ==> Stands(Terminated)
      ensures !ok && |Tail()| > 2 && Prefix(Tail()) == 0 ==> stats.zeroLength > 0
      decreases |data| - cur
    {
      hide Framed, Split, Tallied, Prefix, LongEnough, Has;
      if cur + 2 > |data| {
        assert Split(Tail()) == [] by { SplitStuck(Tail()); }
        return false, [];
      }
      ghost var rest := Tail();
      assert Stands(Reading) && rest == data[cur..];
      var len := Read(data, cur, 2);
      PrefixAt(data, cur);
      if len == 0 || cur + 2 + len > |data| {
        SplitStuck(rest);
      }
      if len == 0 {
        if cur + 2 == |data| {
          TallyFrame(stats, seen, stats.bytes + 2, stats.truncated, stats.zeroLength);
          cur, stats := |data|, stats.(bytes := stats.bytes + 2);
        } else {
          TallyFrame(stats, seen, stats.bytes, stats.truncated, stats.zeroLength + 1);
          stats := stats.(zeroLength := stats.zeroLength + 1);
        }
        return false, [];
      }
      if cur + 2 + len > |data| {
        TallyFrame(stats, seen, stats.bytes, stats.truncated + 1, stats.zeroLength);
        stats := stats.(truncated := stats.truncated + 1);
        cur := |data|;
        return false, [];
      }
      var body, short := TakeBody(len);
      if short {
        ok, out := Next();
      } else {
        ok, out := true, body;
      }
    }

    /** Steps over the next body and counts it. */
    method TakeBody(len: nat) returns (body: seq<Byte>, short: bool)
      requires Valid() && Stands(Reading) && !Stuck(Tail()) && Prefix(Tail()) == len
      modifies this
      ensures Valid() && seen == old(seen) + [body] && cur == old(cur) + 2 + len
      ensures short <==> !LongEnough(body)
    {
      hide Framed, Split, Tallied, Prefix, LongEnough, Has;
      ghost var rest := Tail();
      assert rest == data[cur..];
      body := data[cur + 2..cur + 2 + len];
      Take(data, seen);
      assert body == First(rest);
      TallyFrame(stats, seen, stats.bytes + 2 + len, stats.truncated, stats.zeroLength);
      stats := stats.(bytes := stats.bytes + 2 + len);
      RecordedTally(stats, seen, body);
      cur, seen := cur + 2 + len, seen + [body];
      short := Record(body);
    }

    /** Counts a body under everything it is, in the order the reader checks; says whether it is too short. */
    method Record(body: seq<Byte>) returns (short: bool)
      requires Sized(body) && |stats.perType| == 256
      modifies `stats
      ensures stats == Recorded(old(stats), body)
      ensures short <==> !LongEnough(body)
    {
      hide SpecLength;
      var t := body[0];
      short := false;
      if |body| < HEADER_LENGTH {
        stats := stats.(shortMessage := stats.shortMessage + 1);
        short := true;
      } else {
        var expected := SpecLength(t);
        if expected == 0 {
          stats := stats.(unknownType := stats.unknownType + 1);
        } else if expected != |body| {
          stats := stats.(lengthMismatch := stats.lengthMismatch + 1);
          if |body| < expected {
            stats := stats.(shortMessage := stats.shortMessage + 1);
            short := true;
          }
        }
      }
      stats := stats.(messages := stats.messages + 1);
      stats := stats.(perType := stats.perType[t := stats.perType[t] + 1]);
    }
  }

  lemma SplitStuck(rest: seq<Byte>)
    requires Stuck(rest)
    ensures Split(rest) == []
  {
  }

  lemma Take(data: seq<Byte>, seen: seq<seq<Byte>>)
    requires Framed(seen) <= data && Split(data) == seen + Split(data[|Framed(seen)|..])
    requires !Stuck(data[|Framed(seen)|..])
    ensures var b := First(data[|Framed(seen)|..]);
      && Framed(seen + [b]) <= data && Sized(b)
      && Split(data) == (seen + [b]) + Split(data[|Framed(seen + [b])|..])
      && |Framed(seen + [b])| == |Framed(seen)| + 2 + |b|
  {
    hide Framed, Split, Prefix, ToBig, Stuck, First, Rest;
    var done, rest := Framed(seen), data[|Framed(seen)|..];
    var b, more := First(rest), Rest(rest);
    FrameFirst(rest);
    FramedAppend(seen, b);
    Cut3(data, done, Frame(b), more);
    assert seen + ([b] + Split(more)) == (seen + [b]) + Split(more);
  }

  lemma Cut3(data: seq<Byte>, a: seq<Byte>, b: seq<Byte>, c: seq<Byte>)
    requires a <= data && data[|a|..] == b + c
    ensures a + b <= data && data[|a + b|..] == c
  {
    assert data == a + (b + c);
  }

  lemma PrefixAt(data: seq<Byte>, cur: nat)
    requires cur + 2 <= |data|
    ensures Read(data, cur, 2) == Prefix(data[cur..])
  {
    hide Swap, FromLittle;
    assert data[cur..cur + 2] == data[cur..][0..2];
  }

  /** Only the byte and end-of-stream counters differ. */
  lemma TallyFrame(s: Stats, seen: seq<seq<Byte>>, bytes: nat, truncated: nat, zeroLength: nat)
    requires Tallied(s, seen)
    ensures Tallied(s.(bytes := bytes, truncated := truncated, zeroLength := zeroLength), seen) && |s.perType| == 256
  {
  }

  // ---- a whole pass ----

  /** What a pass hands out, decoded. */
  function DecodeAll(bs: seq<seq<Byte>>): seq<Decoded> {
    if bs == [] then []
    else
      var b := bs[|bs| - 1];
      DecodeAll(bs[..|bs| - 1]) + if LongEnough(b) then [Decode(b)] else []
  }

  lemma {:induction false} DecodeSkips(bs: seq<seq<Byte>>, n: nat)
    requires n <= |bs| && forall k :: n <= k < |bs| ==> !LongEnough(bs[k])
    ensures DecodeAll(bs) == DecodeAll(bs[..n])
  {
    hide LongEnough, Decode;
    if n == |bs| {
      assert bs[..n] == bs;
    } else {
      DecodeSkips(bs[..|bs| - 1], n);
      assert bs[..|bs| - 1][..n] == bs[..n];
    }
  }

  /** The two bytes of a clean end-of-stream marker, if that is all that follows the first `n` bytes. */
  function Terminator(data: seq<Byte>, n: nat): seq<Byte> {
    if n + 2 == |data| && Prefix(data[n..]) == 0 then [0, 0] else []
  }

  lemma {:induction false} HandedDecoded(bs: seq<seq<Byte>>)
    requires forall k :: 0 <= k < |bs| ==> bs[k] != []
    ensures |DecodeAll(bs)| == Count(bs, Handed)
  {
    hide LongEnough, Decode;
    if bs != [] {
      HandedDecoded(bs[..|bs| - 1]);
    }
  }

  lemma ZeroPrefix(tail: seq<Byte>)
    requires |tail| == 2 && Prefix(tail) == 0
    ensures tail == [0, 0]
  {
    PrefixBound(tail);
    assert ToBig(0, 2) == ToBig(0, 1) + [0];
    assert ToBig(0, 1) == ToBig(0, 0) + [0];
    assert tail[..2] == tail;
  }

  /** What the counters say once the reader can go no further. */
  lemma PassEnds(data: seq<Byte>, framed: seq<Byte>, cur: nat, s: Stats)
    requires framed <= data
    requires At(Reading, cur, s, |framed|, data[|framed|..]) || At(Terminated, cur, s, |framed|, data[|framed|..])
      || At(Cut, cur, s, |framed|, data[|framed|..])
    requires var tail := data[|framed|..];
      && (|tail| >= 2 && Prefix(tail) > 0 ==> At(Cut, cur, s, |framed|, tail))
      && (|tail| == 2 && Prefix(tail) == 0 ==> At(Terminated, cur, s, |framed|, tail))
      && (|tail| > 2 && Prefix(tail) == 0 ==> s.zeroLength > 0)
    ensures s.bytes <= |data| && data[..s.bytes] == framed + Terminator(data, |framed|)
    ensures s.truncated > 0 || s.zeroLength > 0 || s.bytes + 1 >= |data|
    ensures framed == data ==> s.truncated == 0 && s.zeroLength == 0 && s.bytes == |data|
  {
    hide Prefix;
    var tail := data[|framed|..];
    assert data == framed + tail;
    if |tail| == 2 && Prefix(tail) == 0 {
      ZeroPrefix(tail);
    }
  }

  /** Takes everything a reader has left. */
  method Drain(r: Reader) returns (out: seq<Decoded>)
    requires r.Valid() && r.seen == []
    modifies r
    ensures r.Valid() && r.seen == Split(r.data) && out == DecodeAll(r.seen)
    ensures |r.Tail()| >= 2 && Prefix(r.Tail()) > 0 ==> r.Stands(Cut)
    ensures |r.Tail()| == 2 && Prefix(r.Tail()) == 0 ==> r.Stands(Terminated)
    ensures |r.Tail()| > 2 && Prefix(r.Tail()) == 0 ==> r.stats.zeroLength > 0
  {
    hide Decode, LongEnough, Prefix, Split, Stuck, Reader.Valid, Reader.Stands, Reader.Tail;
    out := [];
    while true
      invariant r.Valid() && out == DecodeAll(r.seen)
      decreases |r.data| - r.cur
    {
      ghost var before := r.seen;
      assert r.cur <= |r.data| by { r.CursorInside(); }
      var ok, body := r.Next();
      ghost var now := r.seen;
      ghost var skipped := |now| - if ok then 1 else 0;
      assert now[..skipped][..|before|] == before;
      DecodeSkips(now[..skipped], |before|);
      if !ok {
        assert now[..skipped] == now;
        return;
      }
      out := out + [Decode(body)];
      assert r.cur <= |r.data| by { r.CursorInside(); }
    }
  }

  /** A pass over arbitrary bytes ends, hands out the long-enough bodies of the stream in order, and counts every
      body; the bytes it counts are those of whole frames and of a clean terminator. */
  method Parse(data: seq<Byte>) returns (out: seq<Decoded>, stats: Stats)
    ensures out == DecodeAll(Split(data))
    ensures Tallied(stats, Split(data)) && stats.messages == |out| + stats.shortMessage == SumOf(stats.perType)
    ensures stats.bytes <= |data|
    ensures data[..stats.bytes] == Framed(Split(data)) + Terminator(data, |Framed(Split(data))|)
    ensures stats.truncated > 0 || stats.zeroLength > 0 || stats.bytes + 1 >= |data|
    ensures Framed(Split(data)) == data ==> stats.truncated == 0 && stats.zeroLength == 0 && stats.bytes == |data|
  {
    hide Tallied, DecodeAll, LongEnough, Framed, Prefix, At, Terminator, Split, Count, SumOf;
    var r := new Reader(data);
    out := Drain(r);
    stats := r.stats;
    PassEnds(data, Framed(r.seen), r.cur, stats);
    HandedDecoded(r.seen);
    StatsAddUp(stats, r.seen);
  }
}
