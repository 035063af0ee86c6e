/** The hardware parser. */
module ItchRtl {

  // The byte-serial parser, clock by clock, and its agreement with the software reader. A register holds its
  // value until the end of the clock, so everything a clock reads is what the last one left.

  import opened ItchBytes
  import opened ItchMessages
  import opened ItchReader

  datatype Fsm = LenHi | LenLo | Body

  /** The shift registers, each a fixed number of bytes; see `ItchBytes.ShiftIsConcatenation`. */
  datatype Accs = Accs(
    ts: seq<Byte>, locate: seq<Byte>, ref: seq<Byte>, ref2: seq<Byte>, q19: seq<Byte>, q20: seq<Byte>,
    q27: seq<Byte>, p31: seq<Byte>, p32: seq<Byte>, side: bool)

  /** `m` is the decoded output, of which `kind` also latches the type of the body being received. */
  datatype Regs = Regs(
    state: Fsm, len: nat, cnt: nat, emit: bool, emitLen: nat, emitShort: bool, acc: Accs,
    m: Decoded, mValid: bool, eShort: bool, eZeroLen: bool)

  /** One clock of the input: a byte, or none. */
  datatype Input = Idle | Valid(b: Byte)

  predicate AccWidths(a: Accs) {
    && |a.ts| == 6 && |a.locate| == 2 && |a.ref| == 8 && |a.ref2| == 8
    && |a.q19| == 4 && |a.q20| == 4 && |a.q27| == 4 && |a.p31| == 4 && |a.p32| == 4
  }

  predicate Widths(r: Regs) {
    r.len < 65536 && r.cnt < 65536 && AccWidths(r.acc)
  }

  /** A register that shifts in the bytes at offsets `lo` to `hi` of the body. */
  function Window(acc: seq<Byte>, cnt: nat, lo: nat, hi: nat, b: Byte): (r: seq<Byte>)
    requires acc != []
    ensures |r| == |acc|
  {
    if lo <= cnt <= hi then Shift(acc, b) else acc
  }

  function Capture(a: Accs, cnt: nat, b: Byte): (c: Accs)
    requires AccWidths(a)
    ensures AccWidths(c)
  {
    Accs(
      Window(a.ts, cnt, 5, 10, b), Window(a.locate, cnt, 1, 2, b), Window(a.ref, cnt, 11, 18, b),
      Window(a.ref2, cnt, 19, 26, b), Window(a.q19, cnt, 19, 22, b), Window(a.q20, cnt, 20, 23, b),
      Window(a.q27, cnt, 27, 30, b), Window(a.p31, cnt, 31, 34, b), Window(a.p32, cnt, 32, 35, b),
      if cnt == 19 then b == BUY else a.side)
  }

  /** A body too short for the header, or for its type. */
  predicate TooShort(kind: Byte, len: nat) {
    len < HEADER_LENGTH || (RtlSpecLength(kind) != 0 && len < RtlSpecLength(kind))
  }

  /** `len[15:8] <= b` and `len[7:0] <= b`. */
  function WithHigh(len: nat, b: Byte): (r: nat)
    ensures r < 65536 && r / 256 == b
  {
    256 * b + len % 256
  }

  function WithLow(len: nat, b: Byte): (r: nat)
    requires len < 65536
    ensures r < 65536 && r == 256 * (len / 256) + b
  {
    len / 256 * 256 + b
  }

  /** What accepting a byte does. */
  function Accept(r: Regs, b: Byte): Regs
    requires Widths(r)
  {
    match r.state
    case LenHi => r.(len := WithHigh(r.len, b), state := LenLo)
    case LenLo =>
      var q := r.(len := WithLow(r.len, b), cnt := 0);
      if q.len == 0 then q.(eZeroLen := true, state := LenHi) else q.(state := Body)
    case Body =>
      var q := r.(
        m := if r.cnt == 0 then r.m.(kind := b) else r.m,
        acc := Capture(r.acc, r.cnt, b),
        cnt := (r.cnt + 1) % 65536);
      if r.cnt == (r.len + 65535) % 65536
      then q.(state := LenHi, emit := true, emitLen := r.len, emitShort := TooShort(r.m.kind, r.len))
      else q
  }

  /** The output registers as the emit loads them: each field gated on the type that carries it. `kind` is not
      among them: it keeps what was latched. */
  function Loaded(r: Regs): Decoded {
    var t, a := r.m.kind, r.acc;
    Decoded(
      t, r.emitLen, FromBig(a.locate), FromBig(a.ts),
      if MutatesBook(t) then FromBig(a.ref) else 0,
      if t == REPLACE then FromBig(a.ref2) else 0,
      if IsAdd(t) then FromBig(a.q20)
      else if IsExec(t) || t == CANCEL then FromBig(a.q19)
      else if t == REPLACE then FromBig(a.q27) else 0,
      if IsAdd(t) then FromBig(a.p32) else if t == REPLACE then FromBig(a.p31) else 0,
      IsAdd(t) && a.side,
      MutatesBook(t))
  }

  /** One rising edge. */
  function Clock(r: Regs, rst: bool, s: Input): Regs
    requires Widths(r)
  {
    if rst then
      r.(state := LenHi, mValid := false, eShort := false, eZeroLen := false, cnt := 0, len := 0, emit := false)
    else
      var strobed := r.(mValid := false, eShort := false, eZeroLen := false);
      var q := if s.Valid? then Accept(strobed, s.b) else strobed;
      if !r.emit then q
      else if r.emitShort then q.(emit := false, eShort := true)
      else q.(emit := false, mValid := true, m := Loaded(r).(kind := q.m.kind))
  }

  lemma AcceptWidths(r: Regs, b: Byte)
    requires Widths(r)
    ensures Widths(Accept(r, b))
  {
    hide TooShort, Capture, AccWidths, WithHigh, WithLow;
  }

  lemma ClockWidths(r: Regs, rst: bool, s: Input)
    requires Widths(r)
    ensures Widths(Clock(r, rst, s))
  {
    hide Accept, Loaded;
    if s.Valid? {
      AcceptWidths(r.(mValid := false, eShort := false, eZeroLen := false), s.b);
    }
  }

  /** What the test bench collects: a message on each valid strobe, and the two error strobes counted. */
  datatype Trace = Trace(regs: Regs, out: seq<Decoded>, shorts: nat, zeros: nat)

  function Observe(t: Trace, s: Input): Trace
    requires Widths(t.regs)
  {
    var r := Clock(t.regs, false, s);
    Trace(r, if r.mValid then t.out + [r.m] else t.out,
          t.shorts + if r.eShort then 1 else 0, t.zeros + if r.eZeroLen then 1 else 0)
  }

  /** Any number of clocks after a reset. */
  function Bench(r: Regs, cycles: seq<Input>): (t: Trace)
    requires Widths(r)
    ensures Widths(t.regs)
  {
    if cycles == [] then
      ClockWidths(r, true, Idle);
      Trace(Clock(r, true, Idle), [], 0, 0)
    else
      var before := Bench(r, cycles[..|cycles| - 1]);
      ClockWidths(before.regs, false, cycles[|cycles| - 1]);
      Observe(before, cycles[|cycles| - 1])
  }

  // ---- the frames received so far ----

  /** Whole frames, and the bytes of the one arriving. */
  datatype Received = Received(done: seq<seq<Byte>>, part: seq<Byte>)

  predicate Whole(part: seq<Byte>) {
    |part| >= 2 && |part| == 2 + Prefix(part)
  }

  function Feed(f: Received, s: Input): Received {
    match s
    case Idle => f
    case Valid(b) =>
      var part := f.part + [b];
      if Whole(part) then Received(f.done + [part[2..]], []) else f.(part := part)
  }

  function FeedAll(cycles: seq<Input>): Received {
    if cycles == [] then Received([], []) else Feed(FeedAll(cycles[..|cycles| - 1]), cycles[|cycles| - 1])
  }

  /** The bytes presented, in order. */
  function Bytes(cycles: seq<Input>): seq<Byte> {
    if cycles == [] then []
    else Bytes(cycles[..|cycles| - 1]) + if cycles[|cycles| - 1].Valid? then [cycles[|cycles| - 1].b] else []
  }

  // ---- the registers against the frames ----

  /** A register for `n` bytes at offset `lo` holds, at its low end, those of them that have arrived. */
  ghost predicate Holds(acc: seq<Byte>, n: nat, p: seq<Byte>, lo: nat) {
    && |acc| == n
    && (if |p| <= lo then true
        else if |p| < lo + n then acc[n - (|p| - lo)..] == p[lo..]
        else acc == p[lo..lo + n])
  }

  ghost predicate AccsHold(a: Accs, p: seq<Byte>) {
    && Holds(a.ts, 6, p, 5) && Holds(a.locate, 2, p, 1) && Holds(a.ref, 8, p, 11) && Holds(a.ref2, 8, p, 19)
    && Holds(a.q19, 4, p, 19) && Holds(a.q20, 4, p, 20) && Holds(a.q27, 4, p, 27)
    && Holds(a.p31, 4, p, 31) && Holds(a.p32, 4, p, 32)
    && (|p| > 19 ==> a.side == (p[19] == BUY))
  }

  /** One more byte of a window that is still filling. */
  lemma ShiftFills(acc: seq<Byte>, n: nat, p: seq<Byte>, lo: nat, b: Byte)
    requires |acc| == n && lo <= |p| < lo + n && acc[n - (|p| - lo)..] == p[lo..]
    ensures |Shift(acc, b)| == n && Shift(acc, b)[n - (|p| - lo) - 1..] == (p + [b])[lo..]
  {
    var k := |p| - lo;
    assert Shift(acc, b)[n - k - 1..] == acc[n - k..] + [b];
    assert (p + [b])[lo..] == p[lo..] + [b];
  }

  lemma SameSlice(p: seq<Byte>, lo: nat, hi: nat, b: Byte)
    requires lo <= hi <= |p|
    ensures (p + [b])[lo..hi] == p[lo..hi]
  {
  }

  lemma WindowHolds(acc: seq<Byte>, n: nat, p: seq<Byte>, lo: nat, b: Byte)
    requires n > 0 && Holds(acc, n, p, lo)
    ensures Holds(Window(acc, |p|, lo, lo + n - 1, b), n, p + [b], lo)
  {
    hide Shift;
    if |p| >= lo + n {
      SameSlice(p, lo, lo + n, b);
    } else if |p| >= lo {
      assert acc[n - (|p| - lo)..] == p[lo..];
      ShiftFills(acc, n, p, lo, b);
      assert |p| + 1 == lo + n ==> (p + [b])[lo..lo + n] == (p + [b])[lo..];
    }
  }

  lemma CaptureHolds(a: Accs, p: seq<Byte>, b: Byte)
    requires AccsHold(a, p)
    ensures AccsHold(Capture(a, |p|, b), p + [b])
  {
    hide Holds, Window;
    WindowHolds(a.ts, 6, p, 5, b);
    WindowHolds(a.locate, 2, p, 1, b);
    WindowHolds(a.ref, 8, p, 11, b);
    WindowHolds(a.ref2, 8, p, 19, b);
    WindowHolds(a.q19, 4, p, 19, b);
    WindowHolds(a.q20, 4, p, 20, b);
    WindowHolds(a.q27, 4, p, 27, b);
    WindowHolds(a.p31, 4, p, 31, b);
    WindowHolds(a.p32, 4, p, 32, b);
  }

  /** The emit is armed with the whole of `b`. */
  ghost predicate Armed(r: Regs, b: seq<Byte>) {
    Sized(b) && r.m.kind == b[0] && r.emitLen == |b| && r.emitShort == !LongEnough(b) && AccsHold(r.acc, b)
  }

  function Last(f: Received): seq<Byte> {
    if f.done == [] then [] else f.done[|f.done| - 1]
  }

  /** The state machine and its registers agree with the frames received. */
  ghost predicate Sync(r: Regs, f: Received) {
    && Widths(r)
    && (match r.state
        case LenHi => f.part == []
        case LenLo => |f.part| == 1 && r.len / 256 == f.part[0]
        case Body =>
          && |f.part| >= 2 && r.len == Prefix(f.part) && r.cnt == |f.part| - 2 < r.len
          && AccsHold(r.acc, f.part[2..]) && (r.cnt > 0 ==> r.m.kind == f.part[2]))
    && (r.emit ==> r.state == LenHi && f.done != [] && Armed(r, Last(f)))
  }

  lemma ResetSync(r: Regs, s: Input)
    requires Widths(r)
    ensures Sync(Clock(r, true, s), Received([], []))
  {
  }

  lemma PrefixOfTwo(hi: Byte, lo: Byte)
    ensures Prefix([hi, lo]) == 256 * hi + lo
  {
    ReadIsBig([hi, lo], 0, 2);
    var b: seq<Byte> := [hi, lo];
    assert b[0..2] == b && b[..1] == [hi] && [hi][..0] == [];
    assert FromBig(b) == 256 * FromBig(b[..1]) + lo && FromBig([hi]) == 256 * FromBig([]) + hi;
  }

  lemma PrefixKept(part: seq<Byte>, b: Byte)
    requires |part| >= 2
    ensures Prefix(part + [b]) == Prefix(part)
  {
    hide Swap, FromLittle;
    assert (part + [b])[0..2] == part[0..2];
  }

  /** A byte of the length prefix. */
  lemma LengthSync(r: Regs, f: Received, b: Byte)
    requires Sync(r, f) && r.state != Body && !r.emit
    ensures var r', f' := Accept(r, b), Feed(f, Valid(b));
      && Sync(r', f') && !r'.emit && r'.m == r.m
      && (r'.eZeroLen <==> r.eZeroLen || |f'.done| > |f.done|) && (|f'.done| > |f.done| ==> Last(f') == [])
  {
    hide Prefix, Capture, Armed, LongEnough;
    AcceptWidths(r, b);
    if r.state == LenLo {
      PrefixOfTwo(f.part[0], b);
      assert f.part + [b] == [f.part[0], b];
      assert [f.part[0], b][2..] == [];
    }
  }

  /** The hardware's length check, on a type latched from the first byte if there was time to, is the software's. */
  lemma TooShortIff(kind: Byte, p: seq<Byte>)
    requires p != [] && (|p| > 1 ==> kind == p[0])
    ensures TooShort(kind, |p|) <==> !LongEnough(p)
  {
    hide SpecLength, RtlSpecLength;
    SpecTablesAgree(p[0]);
  }

  /** A byte of the body before the last. */
  lemma BodySync(r: Regs, f: Received, b: Byte)
    requires Sync(r, f) && r.state == Body && r.cnt + 1 < r.len
    ensures Sync(Accept(r, b), Feed(f, Valid(b)))
    ensures Accept(r, b) == Accept(r, b).(emit := false, eZeroLen := r.eZeroLen)
    ensures Feed(f, Valid(b)).done == f.done
  {
    hide Prefix, Capture, AccsHold, TooShort, Armed;
    var p := f.part[2..];
    AcceptWidths(r, b);
    PrefixKept(f.part, b);
    CaptureHolds(r.acc, p, b);
    assert (f.part + [b])[2..] == p + [b];
  }

  /** The last byte of the body arms the emit. */
  lemma LastSync(r: Regs, f: Received, b: Byte)
    requires Sync(r, f) && r.state == Body && r.cnt + 1 == r.len
    ensures var r', f' := Accept(r, b), Feed(f, Valid(b));
      Sync(r', f') && r'.emit && r'.eZeroLen == r.eZeroLen && |f'.done| > |f.done| && Last(f') != []
  {
    hide Prefix, Capture, AccsHold, TooShort, LongEnough;
    var p := f.part[2..];
    AcceptWidths(r, b);
    PrefixKept(f.part, b);
    CaptureHolds(r.acc, p, b);
    assert (f.part + [b])[2..] == p + [b];
    TooShortIff(r.m.kind, p + [b]);
  }

  lemma HoldsReads(acc: seq<Byte>, n: nat, p: seq<Byte>, lo: nat)
    requires Holds(acc, n, p, lo) && lo + n <= |p|
    ensures FromBig(acc) == Read(p, lo, n)
  {
    hide FromBig, Read;
    ReadIsBig(p, lo, n);
    assert acc == p[lo..lo + n];
  }

  lemma HoldsReads48(acc: seq<Byte>, p: seq<Byte>)
    requires Holds(acc, 6, p, 5) && 11 <= |p|
    ensures FromBig(acc) == Timestamp(p)
  {
    hide FromBig, Read48;
    Read48IsBig(p, 5);
    assert acc == p[5..11];
  }

  /** What is emitted for a body long enough is what the software decodes: no field of an earlier message shows. */
  lemma LoadedIsDecode(r: Regs, b: seq<Byte>)
    requires Armed(r, b) && LongEnough(b)
    ensures Loaded(r) == Decode(b) && Loaded(r).kind == r.m.kind
  {
    hide FromBig, Read, Read48, Holds, SpecLength;
    var t, a := b[0], r.acc;
    ViewsFit(b);
    HoldsReads(a.locate, 2, b, 1);
    HoldsReads48(a.ts, b);
    if MutatesBook(t) {
      HoldsReads(a.ref, 8, b, 11);
    }
    if IsAdd(t) {
      HoldsReads(a.q20, 4, b, 20);
      HoldsReads(a.p32, 4, b, 32);
    } else if IsExec(t) || t == CANCEL {
      HoldsReads(a.q19, 4, b, 19);
    } else if t == REPLACE {
      HoldsReads(a.ref2, 8, b, 19);
      HoldsReads(a.q27, 4, b, 27);
      HoldsReads(a.p31, 4, b, 31);
    }
  }

  /** The strobes of a clock tell of exactly one event each: the body armed before it, or the frame ended by it. */
  ghost predicate Strobes(r: Regs, f: Received, r': Regs, f': Received) {
    && (r'.mValid <==> r.emit && LongEnough(Last(f))) && (r'.eShort <==> r.emit && !LongEnough(Last(f)))
    && (r'.mValid ==> r'.m == Decode(Last(f)))
    && (r'.eZeroLen <==> f'.done != f.done && Last(f') == []) && (r'.emit <==> f'.done != f.done && Last(f') != [])
    && (r.emit ==> f'.done == f.done && Last(f) != [])
    && (f'.done == f.done || f'.done == f.done + [Last(f')])
  }

  lemma FeedGrows(f: Received, b: Byte)
    ensures var f' := Feed(f, Valid(b)); f'.done == f.done || f'.done == f.done + [Last(f')]
  {
  }

  lemma LenHiStarts(r: Regs, f: Received, b: Byte)
    requires Sync(r, f) && r.state == LenHi
    ensures Feed(f, Valid(b)).done == f.done
  {
  }

  /** Accepting a byte, with no emit armed. */
  lemma AcceptSync(r: Regs, f: Received, b: Byte)
    requires Sync(r, f) && !r.emit && !r.eZeroLen
    ensures var r', f' := Accept(r, b), Feed(f, Valid(b));
      && Sync(r', f') && (f'.done == f.done || f'.done == f.done + [Last(f')])
      && (r'.emit <==> f'.done != f.done && Last(f') != []) && (r'.eZeroLen <==> f'.done != f.done && Last(f') == [])
      && (r.state == LenHi ==> r'.m == r.m && f'.done == f.done) && r'.mValid == r.mValid && r'.eShort == r.eShort
  {
    hide Sync, Prefix, Capture, TooShort, Feed;
    FeedGrows(f, b);
    SyncWidths(r, f);
    if r.state != Body {
      LengthSync(r, f, b);
      if r.state == LenHi {
        LenHiStarts(r, f, b);
      }
    } else if r.cnt + 1 < r.len {
      BodySync(r, f, b);
    } else {
      LastSync(r, f, b);
    }
  }

  lemma DisarmSync(r: Regs, f: Received)
    requires Sync(r, f)
    ensures Sync(r.(mValid := false, eShort := false, eZeroLen := false, emit := false), f)
    ensures r.emit ==>
      r.state == LenHi && f.done != [] && Armed(r, Last(f)) && Last(f) != [] && r.emitShort == !LongEnough(Last(f))
  {
    hide LongEnough, AccsHold, Prefix, AccWidths;
  }

  /** The outputs are not part of what is kept in step, except the latched type. */
  lemma OutputsFree(q: Regs, f: Received, q': Regs)
    requires Sync(q, f) && !q.emit && q' == q.(mValid := q'.mValid, eShort := q'.eShort, m := q'.m)
    requires q'.m.kind == q.m.kind
    ensures Sync(q', f)
  {
    hide LongEnough, AccsHold, Prefix, AccWidths;
  }

  lemma SyncWidths(q: Regs, f: Received)
    requires Sync(q, f)
    ensures Widths(q)
    ensures q.state == Body ==> q.cnt < q.len
  {
  }

  /** One clock keeps the registers in step. */
  lemma ClockSync(r: Regs, f: Received, s: Input)
    requires Sync(r, f)
    ensures Sync(Clock(r, false, s), Feed(f, s)) && Strobes(r, f, Clock(r, false, s), Feed(f, s))
  {
    hide Sync, LongEnough, Decode, Loaded, Armed, Accept, Feed;
    SyncWidths(r, f);
    DisarmSync(r, f);
    var r0 := r.(mValid := false, eShort := false, eZeroLen := false, emit := false);
    var q := if s.Valid? then Accept(r0, s.b) else r0;
    assert Feed(f, Idle) == f by { IdleFeeds(f); }
    if s.Valid? {
      AcceptSync(r0, f, s.b);
    }
    if r.emit {
      if s.Valid? {
        AcceptBesideEmit(r0, s.b);
      }
      if LongEnough(Last(f)) {
        LoadedIsDecode(r, Last(f));
      }
      OutputsFree(q, Feed(f, s), Clock(r, false, s));
    }
  }

  lemma IdleFeeds(f: Received)
    ensures Feed(f, Idle) == f
  {
  }

  /** A frame starting while an emit is armed does not disturb it. */
  lemma AcceptBesideEmit(r: Regs, b: Byte)
    requires Widths(r) && r.state == LenHi
    ensures Accept(r.(emit := true), b) == Accept(r, b).(emit := true) && Accept(r, b).emit == r.emit
  {
  }

  // ---- whole streams ----

  function Empties(bs: seq<seq<Byte>>): nat {
    if bs == [] then 0 else Empties(bs[..|bs| - 1]) + if bs[|bs| - 1] == [] then 1 else 0
  }

  /** The frames whose outcome has been strobed: all, or all but one armed this clock. */
  function Settled(emit: bool, done: seq<seq<Byte>>): seq<seq<Byte>> {
    if emit && done != [] then done[..|done| - 1] else done
  }

  /** What one more frame adds to each of the tallies. */
  lemma OneMore(bs: seq<seq<Byte>>, b: seq<Byte>)
    ensures DecodeAll(bs + [b]) == DecodeAll(bs) + if LongEnough(b) then [Decode(b)] else []
    ensures Count(bs + [b], Short) == Count(bs, Short) + if b != [] && !LongEnough(b) then 1 else 0
    ensures Empties(bs + [b]) == Empties(bs) + if b == [] then 1 else 0
  {
    hide LongEnough, Decode;
    assert (bs + [b])[..|bs|] == bs;
  }

  /** The tallies of a trace are those of the frames settled. */
  ghost predicate Tallies(t: Trace, f: Received) {
    var bs := Settled(t.regs.emit, f.done);
    t.out == DecodeAll(bs) && t.shorts == Count(bs, Short) && t.zeros == Empties(f.done)
  }

  lemma EmitTallied(t: Trace, f: Received, t': Trace, f': Received)
    requires Tallies(t, f) && Strobes(t.regs, f, t'.regs, f') && t.regs.emit
    requires t' == Trace(t'.regs, if t'.regs.mValid then t.out + [t'.regs.m] else t.out,
                         t.shorts + if t'.regs.eShort then 1 else 0, t.zeros + if t'.regs.eZeroLen then 1 else 0)
    ensures Tallies(t', f')
  {
    hide LongEnough, Decode, DecodeAll, Count, Empties;
    var bs := f.done[..|f.done| - 1];
    assert bs + [Last(f)] == f.done;
    OneMore(bs, Last(f));
  }

  lemma EmptyIsShort()
    ensures !LongEnough([])
  {
  }

  lemma QuietTallied(t: Trace, f: Received, t': Trace, f': Received)
    requires Tallies(t, f) && Strobes(t.regs, f, t'.regs, f') && !t.regs.emit
    requires t' == Trace(t'.regs, t.out, t.shorts, t.zeros + if t'.regs.eZeroLen then 1 else 0)
    ensures Tallies(t', f')
  {
    hide LongEnough, Decode, DecodeAll, Count, Empties;
    EmptyIsShort();
    if f'.done != f.done {
      OneMore(f.done, Last(f'));
      assert f'.done[..|f.done|] == f.done;
    }
  }

  ghost predicate TraceOk(t: Trace, f: Received) {
    Sync(t.regs, f) && Tallies(t, f)
  }

  lemma NoEmit(t: Trace, f: Received, s: Input)
    requires Sync(t.regs, f) && !t.regs.emit
    ensures !Clock(t.regs, false, s).mValid && !Clock(t.regs, false, s).eShort
  {
    hide Sync, Clock, Feed;
    ClockSync(t.regs, f, s);
  }

  lemma {:induction false} BenchOk(r: Regs, cycles: seq<Input>)
    requires Widths(r)
    ensures TraceOk(Bench(r, cycles), FeedAll(cycles))
  {
    hide Sync, Tallies, Strobes, Feed, Clock;
    if cycles == [] {
      assert TraceOk(Bench(r, cycles), FeedAll(cycles)) by { ResetOk(r); }
    } else {
      var some, s := cycles[..|cycles| - 1], cycles[|cycles| - 1];
      var t, f := Bench(r, some), FeedAll(some);
      BenchOk(r, some);
      ClockSync(t.regs, f, s);
      if t.regs.emit {
        EmitTallied(t, f, Observe(t, s), Feed(f, s));
      } else {
        NoEmit(t, f, s);
        QuietTallied(t, f, Observe(t, s), Feed(f, s));
      }
    }
  }

  lemma ResetOk(r: Regs)
    requires Widths(r)
    ensures Widths(Clock(r, true, Idle)) && TraceOk(Trace(Clock(r, true, Idle), [], 0, 0), Received([], []))
  {
    ResetSync(r, Idle);
  }

  /** The frames received, framed again, are the bytes presented; the rest is not yet a whole frame. */
  lemma {:induction false} FeedAllFrames(cycles: seq<Input>)
    ensures var f := FeedAll(cycles);
      && Framed(f.done) + f.part == Bytes(cycles)
      && (forall k :: 0 <= k < |f.done| ==> |f.done[k]| < 65536)
      && (|f.part| < 2 || |f.part| < 2 + Prefix(f.part))
  {
    if cycles != [] {
      var before, s := cycles[..|cycles| - 1], cycles[|cycles| - 1];
      FeedAllFrames(before);
      var f := FeedAll(before);
      if s.Valid? {
        FeedFrames(f, s.b);
        assert (Framed(f.done) + f.part) + [s.b] == Framed(f.done) + (f.part + [s.b]);
      }
    }
    hide Framed, Prefix, Whole;
  }

  lemma FeedFrames(f: Received, b: Byte)
    requires |f.part| < 2 || |f.part| < 2 + Prefix(f.part)
    requires forall k :: 0 <= k < |f.done| ==> |f.done[k]| < 65536
    ensures var f' := Feed(f, Valid(b));
      && Framed(f'.done) + f'.part == Framed(f.done) + (f.part + [b])
      && (forall k :: 0 <= k < |f'.done| ==> |f'.done[k]| < 65536)
      && (|f'.part| < 2 || |f'.part| < 2 + Prefix(f'.part))
  {
    hide Framed, Prefix;
    var part := f.part + [b];
    if |f.part| >= 2 {
      PrefixKept(f.part, b);
    }
    if Whole(part) {
      PrefixBound(part);
      FramedAppend(f.done, part[2..]);
      assert part == part[..2] + part[2..];
      assert Frame(part[2..]) == part;
    }
  }

  lemma FirstFrameSame(a: seq<Byte>, x: seq<Byte>, b: seq<Byte>, y: seq<Byte>)
    requires Frame(a) + x == Frame(b) + y && |a| < 65536 && |b| < 65536
    ensures a == b && x == y
  {
    hide Prefix, ToBig;
    PrefixOfFrame(a, x);
    PrefixOfFrame(b, y);
    SameFront(Frame(a), x, Frame(b), y);
    assert a == Frame(a)[2..] && b == Frame(b)[2..];
  }

  /** A stream frames one way only. */
  lemma {:induction false} FramesUnique(bs: seq<seq<Byte>>, done: seq<seq<Byte>>, part: seq<Byte>)
    requires Framed(bs) == Framed(done) + part
    requires forall k :: 0 <= k < |bs| ==> |bs[k]| < 65536
    requires forall k :: 0 <= k < |done| ==> |done[k]| < 65536
    requires |part| < 2 || |part| < 2 + Prefix(part)
    ensures done == bs && part == []
  {
    hide Prefix, Frame;
    FramedSome(bs);
    FramedSome(done);
    if bs != [] {
      PrefixOfFrame(bs[0], Framed(bs[1..]));
      assert done == [] ==> Framed(done) + part == part;
      if done != [] {
        var more := Framed(done[1..]) + part;
        assert Framed(done) + part == Frame(done[0]) + more;
        FirstFrameSame(bs[0], Framed(bs[1..]), done[0], more);
        FramesUnique(bs[1..], done[1..], part);
        assert bs == [bs[0]] + bs[1..] && done == [done[0]] + done[1..];
      }
    }
  }

  lemma FramedSome(bs: seq<seq<Byte>>)
    ensures bs != [] ==> |Framed(bs)| >= 2
  {
    if bs != [] {
      assert |Frame(bs[0])| >= 2;
    }
  }

  lemma SameFront(a: seq<Byte>, x: seq<Byte>, b: seq<Byte>, y: seq<Byte>)
    requires a + x == b + y && |a| == |b|
    ensures a == b && x == y
  {
    assert (a + x)[..|a|] == a && (a + x)[|a|..] == x;
    assert (b + y)[..|b|] == b && (b + y)[|b|..] == y;
  }

  /** Whatever the registers held before the reset and however many clocks are idle, once the bytes of some frames
      have been clocked in and one idle clock has passed, the hardware has emitted exactly the decodings of the
      bodies long enough, in order, and strobed every other nonempty body as short and every empty one as zero. */
  lemma RtlDecodesFrames(r: Regs, cycles: seq<Input>, bs: seq<seq<Byte>>)
    requires Widths(r) && cycles != [] && cycles[|cycles| - 1] == Idle
    requires Bytes(cycles) == Framed(bs) && forall k :: 0 <= k < |bs| ==> |bs[k]| < 65536
    ensures var t := Bench(r, cycles);
      t.out == DecodeAll(bs) && t.shorts == Count(bs, Short) && t.zeros == Empties(bs)
  {
    hide Sync, DecodeAll, Count, Empties, Clock, Framed;
    var f := FeedAll(cycles);
    FeedAllFrames(cycles);
    FramesUnique(bs, f.done, f.part);
    BenchOk(r, cycles);
    var before := cycles[..|cycles| - 1];
    BenchOk(r, before);
    ClockSync(Bench(r, before).regs, FeedAll(before), Idle);
  }

  lemma {:induction false} NoEmpties(bs: seq<seq<Byte>>)
    requires forall k :: 0 <= k < |bs| ==> bs[k] != []
    ensures Empties(bs) == 0
  {
    if bs != [] {
      NoEmpties(bs[..|bs| - 1]);
    }
  }

  /** Over exactly the bytes the reader consumes of any input, the hardware emits the reader's messages, every field
      equal, counts as short what the reader counts as short, and sees a zero length only in a clean terminator. */
  lemma RtlMatchesReader(r: Regs, data: seq<Byte>, cycles: seq<Input>)
    requires Widths(r) && cycles != [] && cycles[|cycles| - 1] == Idle
    requires Bytes(cycles) == Framed(Split(data)) + Terminator(data, |Framed(Split(data))|)
    ensures var t := Bench(r, cycles);
      && t.out == DecodeAll(Split(data)) && t.shorts == Count(Split(data), Short)
      && t.zeros == if Terminator(data, |Framed(Split(data))|) == [] then 0 else 1
  {
    var bs, end := Split(data), Terminator(data, |Framed(Split(data))|);
    SplitSized(data);
    NoEmpties(bs);
    if end == [] {
      RtlDecodesFrames(r, cycles, bs);
    } else {
      assert ToBig(0, 2) == [0, 0] by { TwoZeros(); }
      assert Frame([]) == end;
      FramedAppend(bs, []);
      OneMore(bs, []);
      assert !LongEnough([]);
      hide Framed, Split, Terminator, DecodeAll, Count, Empties;
      RtlDecodesFrames(r, cycles, bs + [[]]);
    }
  }

  lemma TwoZeros()
    ensures ToBig(0, 2) == [0, 0]
  {
    assert ToBig(0, 2) == ToBig(0, 1) + [0];
    assert ToBig(0, 1) == ToBig(0, 0) + [0];
  }

  // ---- the module ----

  /** The parser's registers, and its one clocked process. `r` is what the registers held before the edge: every
      right-hand side reads it, and the last assignment to a register wins. */
  class ItchParse {
    var state: Fsm
    var len: nat
    var cnt: nat
    var emit: bool
    var emitLen: nat
    var emitShort: bool
    var acc: Accs
    var m: Decoded
    var mValid: bool
    var eShort: bool
    var eZeroLen: bool

    function State(): Regs
      reads this
    {
      Regs(state, len, cnt, emit, emitLen, emitShort, acc, m, mValid, eShort, eZeroLen)
    }

    /** Registers power up with any contents. */
    constructor (r: Regs)
      requires Widths(r)
      ensures State() == r
    {
      state, len, cnt, emit, emitLen, emitShort := r.state, r.len, r.cnt, r.emit, r.emitLen, r.emitShort;
      acc, m, mValid, eShort, eZeroLen := r.acc, r.m, r.mValid, r.eShort, r.eZeroLen;
    }

    /** The byte path of the process: a byte of the length prefix, or one of the body. */
    method Consume(b: Byte)
      requires Widths(State())
      modifies this
      ensures State() == Accept(old(State()), b)
    {
      hide Capture, TooShort, WithHigh, WithLow;
      match state {
        case LenHi =>
          len := WithHigh(len, b);
          state := LenLo;
        case LenLo =>
          len := WithLow(len, b);
          cnt := 0;
          if len == 0 {
            eZeroLen := true;
            state := LenHi;
          } else {
            state := Body;
          }
        case Body => ConsumeBody(b);
      }
    }

    method ConsumeBody(b: Byte)
      requires Widths(State()) && state == Body
      modifies this
      ensures State() == Accept(old(State()), b)
    {
      hide Capture, TooShort, AccWidths;
      var r := State();
      if r.cnt == 0 {
        m := m.(kind := b);
      }
      acc := Capture(r.acc, r.cnt, b);
      if r.cnt == (r.len + 65535) % 65536 {
        state, emit, emitLen := LenHi, true, r.len;
        emitShort := TooShort(r.m.kind, r.len);
      }
      cnt := (r.cnt + 1) % 65536;
    }

    method Tick(rst: bool, s: Input)
      requires Widths(State())
      modifies this
      ensures Widths(State()) && State() == Clock(old(State()), rst, s)
    {
      hide Loaded, Accept, AccWidths;
      var r := State();
      ClockWidths(r, rst, s);
      if rst {
        state, mValid, eShort, eZeroLen := LenHi, false, false, false;
        cnt, len, emit := 0, 0, false;
      } else {
        mValid, eShort, eZeroLen := false, false, false;
        if s.Valid? {
          Consume(s.b);
        }
        if r.emit {
          emit := false;
          if r.emitShort {
            eShort := true;
          } else {
            mValid := true;
            m := Loaded(r).(kind := m.kind);
          }
        }
      }
    }
  }

  /** Resets the hardware and clocks it, collecting what it strobes. */
  method RunRtl(dut: ItchParse, cycles: seq<Input>) returns (out: seq<Decoded>, shorts: nat, zeros: nat)
    requires Widths(dut.State())
    modifies dut
    ensures var t := Bench(old(dut.State()), cycles); out == t.out && shorts == t.shorts && zeros == t.zeros
  {
    hide Clock;
    ghost var r := dut.State();
    dut.Tick(true, Idle);
    out, shorts, zeros := [], 0, 0;
    for i := 0 to |cycles|
      invariant Widths(dut.State())
      invariant Bench(r, cycles[..i]) == Trace(dut.State(), out, shorts, zeros)
    {
      assert cycles[..i + 1][..i] == cycles[..i];
      dut.Tick(false, cycles[i]);
      if dut.mValid {
        out := out + [dut.m];
      }
      shorts := shorts + if dut.eShort then 1 else 0;
      zeros := zeros + if dut.eZeroLen then 1 else 0;
    }
    assert cycles[..|cycles|] == cycles;
  }

  /** The co-simulation: both parsers over the bytes that the reader consumes. */
  method CoSimulate(data: seq<Byte>, dut: ItchParse, cycles: seq<Input>)
    returns (same: bool, sw: seq<Decoded>, hw: seq<Decoded>, skipped: nat, shorts: nat)
    requires Widths(dut.State()) && cycles != [] && cycles[|cycles| - 1] == Idle
    requires Bytes(cycles) == Framed(Split(data)) + Terminator(data, |Framed(Split(data))|)
    modifies dut
    ensures same && hw == sw == DecodeAll(Split(data)) && shorts == skipped == Count(Split(data), Short)
    ensures hw == Bench(old(dut.State()), cycles).out && shorts == Bench(old(dut.State()), cycles).shorts
  {
    ghost var r := dut.State();
    var stats;
    sw, stats := Parse(data);
    skipped := stats.shortMessage;
    var zeros;
    hw, shorts, zeros := RunRtl(dut, cycles);
    RtlMatchesReader(r, data, cycles);
    same := hw == sw && shorts == skipped;
  }
}
