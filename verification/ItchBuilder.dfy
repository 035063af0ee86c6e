/** The stream builder: fields written big-endian, bodies framed, and the round trip through the reader. */
module ItchBuilders {
  import opened ItchBytes
  import opened ItchMessages
  import opened ItchReader

  datatype Message =
    | AddOrder(ref: nat, buy: bool, shares: nat, symbol: seq<Byte>, price: nat, locate: nat, ts: nat)
    | Executed(ref: nat, shares: nat, matched: nat, locate: nat, ts: nat)
    | Cancel(ref: nat, shares: nat, locate: nat, ts: nat)
    | Delete(ref: nat, locate: nat, ts: nat)
    | Replace(ref: nat, newRef: nat, shares: nat, price: nat, locate: nat, ts: nat)
    | SystemEvent(code: Byte, ts: nat)

  /** The fields fit their widths. */
  predicate InRange(m: Message) {
    && m.ts < Radix(6)
    && (!m.SystemEvent? ==> m.ref < Radix(8) && m.locate < Radix(2))
    && (m.AddOrder? || m.Executed? || m.Cancel? || m.Replace? ==> m.shares < Radix(4))
    && (m.AddOrder? || m.Replace? ==> m.price < Radix(4))
    && (m.Executed? ==> m.matched < Radix(8))
    && (m.Replace? ==> m.newRef < Radix(8))
  }

  const SPACE: Byte := 32

  function Spaces(n: nat): (s: seq<Byte>)
    ensures |s| == n
  {
    if n == 0 then [] else Spaces(n - 1) + [SPACE]
  }

  /** A symbol cut or padded to eight bytes. */
  function Padded(symbol: seq<Byte>): (s: seq<Byte>)
    ensures |s| == 8
  {
    if |symbol| >= 8 then symbol[..8] else symbol + Spaces(8 - |symbol|)
  }

  function Header(kind: Byte, locate: nat, ts: nat): (h: seq<Byte>)
    ensures |h| == 11
  {
    [kind] + ToBig(locate, 2) + ToBig(0, 2) + ToBig(ts, 6)
  }

  /** The layout of each body. */
  function Encode(m: Message): (b: seq<Byte>) {
    match m
    case AddOrder(ref, buy, shares, symbol, price, locate, ts) =>
      Header(ADD_ORDER, locate, ts) + ToBig(ref, 8) + [if buy then BUY else SELL] + ToBig(shares, 4) + Padded(symbol)
      + ToBig(price, 4)
    case Executed(ref, shares, matched, locate, ts) =>
      Header(EXECUTED, locate, ts) + ToBig(ref, 8) + ToBig(shares, 4) + ToBig(matched, 8)
    case Cancel(ref, shares, locate, ts) => Header(CANCEL, locate, ts) + ToBig(ref, 8) + ToBig(shares, 4)
    case Delete(ref, locate, ts) => Header(DELETE, locate, ts) + ToBig(ref, 8)
    case Replace(ref, newRef, shares, price, locate, ts) =>
      Header(REPLACE, locate, ts) + ToBig(ref, 8) + ToBig(newRef, 8) + ToBig(shares, 4) + ToBig(price, 4)
    case SystemEvent(code, ts) => Header(SYSTEM_EVENT, 0, ts) + [code]
  }

  function EncodeAll(ms: seq<Message>): seq<seq<Byte>> {
    if ms == [] then [] else EncodeAll(ms[..|ms| - 1]) + [Encode(ms[|ms| - 1])]
  }

  // ---- the builder ----

  /** `x` shifted right by `8 * i` bits. */
  function Shifted(x: nat, i: nat): nat {
    if i == 0 then x else Shifted(x, i - 1) / 256
  }

  /** One field, most significant byte first. */
  method Put(v: seq<Byte>, x: nat, n: nat) returns (w: seq<Byte>)
    ensures w == v + ToBig(x, n)
  {
    w := v;
    var i := n;
    while i > 0
      invariant 0 <= i <= n && w == v + ToBig(Shifted(x, i), n - i)
    {
      i := i - 1;
      w := w + [Shifted(x, i) % 256];
    }
  }

  method PutSymbol(v: seq<Byte>, symbol: seq<Byte>) returns (w: seq<Byte>)
    ensures w == v + Padded(symbol)
  {
    w := v;
    for i := 0 to 8
      invariant w == v + Padded(symbol)[..i]
    {
      PaddedAt(symbol, i);
      w := w + [if i < |symbol| then symbol[i] else SPACE];
    }
  }

  lemma PaddedAt(symbol: seq<Byte>, i: nat)
    requires i < 8
    ensures Padded(symbol)[i] == if i < |symbol| then symbol[i] else SPACE
  {
    if |symbol| <= i {
      SpacesAt(8 - |symbol|, i - |symbol|);
    }
  }

  lemma TwoBytes(n: nat)
    ensures ToBig(n, 2) == [n % 65536 / 256, n % 256]
  {
    assert ToBig(n, 2) == ToBig(n / 256, 1) + [n % 256];
    assert ToBig(n / 256, 1) == ToBig(n / 256 / 256, 0) + [n / 256 % 256];
    hide ToBig;
    HighByte(n);
  }

  lemma LengthThenBody(buf: seq<Byte>, body: seq<Byte>)
    ensures var len := |body| % 65536; buf + [len / 256] + [len % 256] + body == buf + Frame(body)
  {
    hide ToBig;
    var hi, lo := |body| % 65536 / 256, |body| % 256;
    TwoBytes(|body|);
    LowByte(|body|);
    assert [hi] + [lo] == [hi, lo];
    assert buf + [hi] + [lo] + body == buf + ([hi, lo] + body);
  }

  lemma LowByte(n: nat)
    ensures n % 65536 % 256 == n % 256
  {
    assert n == 256 * (256 * (n / 65536)) + n % 65536;
  }

  lemma HighByte(n: nat)
    ensures n % 65536 / 256 == n / 256 % 256
  {
    var q, r := n / 65536, n % 65536;
    assert n == 65536 * q + r;
    assert n / 256 == 256 * q + r / 256;
  }

  lemma {:induction false} SpacesAt(n: nat, k: nat)
    requires k < n
    ensures Spaces(n)[k] == SPACE
  {
    if k < n - 1 {
      SpacesAt(n - 1, k);
    }
  }

  method PutHeader(kind: Byte, locate: nat, ts: nat) returns (h: seq<Byte>)
    ensures h == Header(kind, locate, ts)
  {
    h := Put([kind], locate, 2);
    h := Put(h, 0, 2);
    h := Put(h, ts, 6);
  }

  class ItchBuilder {
    var buf: seq<Byte>
    /** The messages built so far. */
    ghost var sent: seq<Message>

    ghost predicate Valid()
      reads this
    {
      buf == Framed(EncodeAll(sent))
    }

    constructor ()
      ensures Valid() && sent == []
    {
      buf, sent := [], [];
    }

    /** Frames a body; its length is cut to sixteen bits. */
    method Add(body: seq<Byte>)
      modifies `buf
      ensures buf == old(buf) + Frame(body)
    {
      hide Frame;
      var len := |body| % 65536;
      LengthThenBody(buf, body);
      buf := buf + [len / 256] + [len % 256] + body;
    }

    method Send(m: Message)
      requires Valid()
      modifies this
      ensures Valid() && sent == old(sent) + [m]
    {
      var v: seq<Byte>;
      match m {
        case AddOrder(ref, buy, shares, symbol, price, locate, ts) =>
          v := PutHeader(ADD_ORDER, locate, ts);
          v := Put(v, ref, 8);
          v := v + [if buy then BUY else SELL];
          v := Put(v, shares, 4);
          v := PutSymbol(v, symbol);
          v := Put(v, price, 4);
        case Executed(ref, shares, matched, locate, ts) =>
          v := PutHeader(EXECUTED, locate, ts);
          v := Put(v, ref, 8);
          v := Put(v, shares, 4);
          v := Put(v, matched, 8);
        case Cancel(ref, shares, locate, ts) =>
          v := PutHeader(CANCEL, locate, ts);
          v := Put(v, ref, 8);
          v := Put(v, shares, 4);
        case Delete(ref, locate, ts) =>
          v := PutHeader(DELETE, locate, ts);
          v := Put(v, ref, 8);
        case Replace(ref, newRef, shares, price, locate, ts) =>
          v := PutHeader(REPLACE, locate, ts);
          v := Put(v, ref, 8);
          v := Put(v, newRef, 8);
          v := Put(v, shares, 4);
          v := Put(v, price, 4);
        case SystemEvent(code, ts) =>
          v := PutHeader(SYSTEM_EVENT, 0, ts);
          v := v + [code];
      }
      assert v == Encode(m);
      FramedAppend(EncodeAll(sent), v);
      assert (sent + [m])[..|sent|] == sent;
      Add(v);
      sent := sent + [m];
    }
  }

  // ---- the round trip ----

  /** The views of a body read the fields of a message. */
  predicate ReadsAs(b: seq<Byte>, m: Message) {
    |b| >= 12 && Timestamp(b) == m.ts && Tracking(b) == 0 &&
    match m
    case AddOrder(ref, buy, shares, symbol, price, locate, _) =>
      && b[0] == ADD_ORDER && |b| == 36 && Locate(b) == locate && OrderRef(b) == ref && IsBuy(b) == buy
      && AddShares(b) == shares && Stock(b, 24) == FromLittle(Padded(symbol)) && AddPrice(b) == price
    case Executed(ref, shares, matched, locate, _) =>
      && b[0] == EXECUTED && |b| == 31 && Locate(b) == locate && OrderRef(b) == ref && TakenShares(b) == shares
      && MatchNumber(b, 23) == matched
    case Cancel(ref, shares, locate, _) =>
      && b[0] == CANCEL && |b| == 23 && Locate(b) == locate && OrderRef(b) == ref && TakenShares(b) == shares
    case Delete(ref, locate, _) => b[0] == DELETE && |b| == 19 && Locate(b) == locate && OrderRef(b) == ref
    case Replace(ref, newRef, shares, price, locate, _) =>
      && b[0] == REPLACE && |b| == 35 && Locate(b) == locate && OrderRef(b) == ref && NewRef(b) == newRef
      && ReplaceShares(b) == shares && ReplacePrice(b) == price
    case SystemEvent(code, _) => b[0] == SYSTEM_EVENT && |b| == 12 && Locate(b) == 0 && b[11] == code
  }

  lemma FieldReads(b: seq<Byte>, off: nat, x: nat, n: nat)
    requires off + n <= |b| && b[off..off + n] == ToBig(x, n) && x < Radix(n)
    ensures Read(b, off, n) == x
  {
    ReadIsBig(b, off, n);
    BigRoundTrip(x, n);
  }

  lemma HeaderReads(kind: Byte, locate: nat, ts: nat, more: seq<Byte>)
    requires locate < Radix(2) && ts < Radix(6)
    ensures var b := Header(kind, locate, ts) + more;
      b[0] == kind && Locate(b) == locate && Tracking(b) == 0 && Timestamp(b) == ts
  {
    var b := Header(kind, locate, ts) + more;
    assert b[1..3] == ToBig(locate, 2) && b[3..5] == ToBig(0, 2) && b[5..11] == ToBig(ts, 6);
    hide Read, Read48, Header;
    FieldReads(b, 1, locate, 2);
    FieldReads(b, 3, 0, 2);
    Read48IsBig(b, 5);
    BigRoundTrip(ts, 6);
  }

  lemma ShortBodiesRead(m: Message)
    requires InRange(m) && (m.Cancel? || m.Delete? || m.SystemEvent?)
    ensures ReadsAs(Encode(m), m)
  {
    hide Read, Read48, Header, ToBig, FromBig;
    var b := Encode(m);
    assert Radix(2) > 0;
    var kind := if m.Cancel? then CANCEL else if m.Delete? then DELETE else SYSTEM_EVENT;
    HeaderReads(kind, if m.SystemEvent? then 0 else m.locate, m.ts, b[11..]);
    assert b == Header(kind, if m.SystemEvent? then 0 else m.locate, m.ts) + b[11..];
    if !m.SystemEvent? {
      assert b[11..19] == ToBig(m.ref, 8);
      FieldReads(b, 11, m.ref, 8);
    }
    if m.Cancel? {
      assert b[19..23] == ToBig(m.shares, 4);
      FieldReads(b, 19, m.shares, 4);
    }
  }

  lemma AddOrderSlices(m: Message)
    requires m.AddOrder?
    ensures var b := Encode(m);
      && |b| == 36 && b[..11] == Header(ADD_ORDER, m.locate, m.ts) && b[11..19] == ToBig(m.ref, 8)
      && b[19] == (if m.buy then BUY else SELL) && b[20..24] == ToBig(m.shares, 4)
      && b[24..32] == Padded(m.symbol) && b[32..36] == ToBig(m.price, 4)
  {
    hide Header, ToBig, Padded;
  }

  lemma AddOrderReads(m: Message)
    requires InRange(m) && m.AddOrder?
    ensures ReadsAs(Encode(m), m)
  {
    hide Encode, Read, Read48, Header, ToBig, FromBig, FromLittle, Padded, Radix;
    var b := Encode(m);
    AddOrderSlices(m);
    HeaderReads(ADD_ORDER, m.locate, m.ts, b[11..]);
    assert b == b[..11] + b[11..];
    FieldReads(b, 11, m.ref, 8);
    FieldReads(b, 20, m.shares, 4);
    FieldReads(b, 32, m.price, 4);
  }

  lemma ExecutedReads(m: Message)
    requires InRange(m) && m.Executed?
    ensures ReadsAs(Encode(m), m)
  {
    hide Read, Read48, Header, ToBig, FromBig, Radix;
    var b := Encode(m);
    HeaderReads(EXECUTED, m.locate, m.ts, b[11..]);
    assert b == Header(EXECUTED, m.locate, m.ts) + b[11..];
    assert b[11..19] == ToBig(m.ref, 8);
    assert b[19..23] == ToBig(m.shares, 4);
    assert b[23..31] == ToBig(m.matched, 8);
    FieldReads(b, 11, m.ref, 8);
    FieldReads(b, 19, m.shares, 4);
    FieldReads(b, 23, m.matched, 8);
  }

  lemma ReplaceReads(m: Message)
    requires InRange(m) && m.Replace?
    ensures ReadsAs(Encode(m), m)
  {
    hide Read, Read48, Header, ToBig, FromBig, Radix;
    var b := Encode(m);
    HeaderReads(REPLACE, m.locate, m.ts, b[11..]);
    assert b == Header(REPLACE, m.locate, m.ts) + b[11..];
    assert b[11..19] == ToBig(m.ref, 8);
    assert b[19..27] == ToBig(m.newRef, 8);
    assert b[27..31] == ToBig(m.shares, 4);
    assert b[31..35] == ToBig(m.price, 4);
    FieldReads(b, 11, m.ref, 8);
    FieldReads(b, 19, m.newRef, 8);
    FieldReads(b, 27, m.shares, 4);
    FieldReads(b, 31, m.price, 4);
  }

  /** Every field of every message survives encoding. */
  lemma EncodedReads(m: Message)
    requires InRange(m)
    ensures ReadsAs(Encode(m), m)
  {
    hide *;
    match m {
      case AddOrder(_, _, _, _, _, _, _) => AddOrderReads(m);
      case Executed(_, _, _, _, _) => ExecutedReads(m);
      case Replace(_, _, _, _, _, _) => ReplaceReads(m);
      case _ => ShortBodiesRead(m);
    }
  }

  /** An encoded body has the length its type's table entry says. */
  lemma EncodedLength(m: Message)
    requires InRange(m)
    ensures var b := Encode(m);
      Sized(b) && LongEnough(b) && !Has(b, Short) && !Has(b, Unknown) && !Has(b, Mismatched)
  {
    EncodedReads(m);
    SpecTablesAgree(Encode(m)[0]);
    hide SpecLength, Encode, Timestamp, Tracking, Locate, OrderRef, Stock, MatchNumber;
  }

  lemma {:induction false} EncodeAllAt(ms: seq<Message>, k: nat)
    requires k < |ms|
    ensures |EncodeAll(ms)| == |ms| && EncodeAll(ms)[k] == Encode(ms[k])
  {
    if k < |ms| - 1 {
      EncodeAllAt(ms[..|ms| - 1], k);
    } else if k > 0 {
      EncodeAllAt(ms[..|ms| - 1], k - 1);
    }
  }

  lemma {:induction false} NoErrors(ms: seq<Message>, mark: Mark)
    requires (forall k :: 0 <= k < |ms| ==> InRange(ms[k])) && (mark == Short || mark == Unknown || mark == Mismatched)
    ensures Count(EncodeAll(ms), mark) == 0
  {
    if ms != [] {
      NoErrors(ms[..|ms| - 1], mark);
      EncodedLength(ms[|ms| - 1]);
    }
  }

  lemma {:induction false} EncodedSized(ms: seq<Message>)
    requires forall k :: 0 <= k < |ms| ==> InRange(ms[k])
    ensures |EncodeAll(ms)| == |ms| && forall k :: 0 <= k < |ms| ==>
      Sized(EncodeAll(ms)[k]) && LongEnough(EncodeAll(ms)[k])
  {
    if ms != [] {
      EncodedSized(ms[..|ms| - 1]);
      EncodedLength(ms[|ms| - 1]);
    }
  }

  /** The bytes of any list of well-formed messages split into exactly their bodies, each of which reads as its
      message. */
  lemma BuiltSplits(ms: seq<Message>)
    requires forall k :: 0 <= k < |ms| ==> InRange(ms[k])
    ensures Split(Framed(EncodeAll(ms))) == EncodeAll(ms) && |EncodeAll(ms)| == |ms|
    ensures forall k :: 0 <= k < |ms| ==> ReadsAs(EncodeAll(ms)[k], ms[k])
  {
    EncodedSized(ms);
    SplitFramed(EncodeAll(ms), []);
    assert Framed(EncodeAll(ms)) + [] == Framed(EncodeAll(ms));
    assert Split([]) == [];
    forall k | 0 <= k < |ms| ensures ReadsAs(EncodeAll(ms)[k], ms[k]) {
      EncodeAllAt(ms, k);
      EncodedReads(ms[k]);
    }
  }

  /** A decoded message carries the fields of the message built, and nothing in the fields its type does not have. */
  predicate Carries(d: Decoded, m: Message) {
    && d.timestamp == m.ts && d.locate == (if m.SystemEvent? then 0 else m.locate)
    && d.orderRef == (if m.SystemEvent? then 0 else m.ref) && d.newRef == (if m.Replace? then m.newRef else 0)
    && d.shares == (if m.Delete? || m.SystemEvent? then 0 else m.shares)
    && d.price == (if m.AddOrder? || m.Replace? then m.price else 0)
    && d.sideBuy == (m.AddOrder? && m.buy) && d.bookEvent == !m.SystemEvent?
    && match m
       case AddOrder(_, _, _, _, _, _, _) => d.kind == ADD_ORDER && d.length == 36
       case Executed(_, _, _, _, _) => d.kind == EXECUTED && d.length == 31
       case Cancel(_, _, _, _) => d.kind == CANCEL && d.length == 23
       case Delete(_, _, _) => d.kind == DELETE && d.length == 19
       case Replace(_, _, _, _, _, _) => d.kind == REPLACE && d.length == 35
       case SystemEvent(_, _) => d.kind == SYSTEM_EVENT && d.length == 12
  }

  lemma DecodedCarries(b: seq<Byte>, m: Message)
    requires LongEnough(b) && ReadsAs(b, m)
    ensures Carries(Decode(b), m)
  {
    hide Read, Read48, LongEnough;
    ViewsFit(b);
  }

  lemma {:induction false} DecodeAllAt(bs: seq<seq<Byte>>, k: nat)
    requires k < |bs| && forall j :: 0 <= j < |bs| ==> LongEnough(bs[j])
    ensures |DecodeAll(bs)| == |bs| && DecodeAll(bs)[k] == Decode(bs[k])
  {
    hide LongEnough, Decode;
    if k < |bs| - 1 {
      DecodeAllAt(bs[..|bs| - 1], k);
    } else if k > 0 {
      DecodeAllAt(bs[..|bs| - 1], k - 1);
    }
  }

  lemma SentDecoded(ms: seq<Message>)
    requires forall k :: 0 <= k < |ms| ==> InRange(ms[k])
    ensures |DecodeAll(EncodeAll(ms))| == |ms|
    ensures forall k :: 0 <= k < |ms| ==> Carries(DecodeAll(EncodeAll(ms))[k], ms[k])
  {
    hide LongEnough, Carries, DecodeAll, ReadsAs, Encode;
    EncodedSized(ms);
    if ms == [] {
      NothingDecoded();
    } else {
      DecodeAllAt(EncodeAll(ms), 0);
    }
    forall k | 0 <= k < |ms| ensures Carries(DecodeAll(EncodeAll(ms))[k], ms[k]) {
      DecodeAllAt(EncodeAll(ms), k);
      EncodeAllAt(ms, k);
      EncodedReads(ms[k]);
      DecodedCarries(EncodeAll(ms)[k], ms[k]);
    }
  }

  lemma NothingDecoded()
    ensures EncodeAll([]) == [] && DecodeAll([]) == []
  {
  }

  /** The round trip: reading back what the builder built takes every body and every byte, and no error counter
      moves. */
  method ReadBack(b: ItchBuilder) returns (out: seq<Decoded>, stats: Stats)
    requires b.Valid() && forall k :: 0 <= k < |b.sent| ==> InRange(b.sent[k])
    ensures var bodies := Split(b.buf);
      |bodies| == |b.sent| == |out| && forall k :: 0 <= k < |bodies| ==> ReadsAs(bodies[k], b.sent[k])
    ensures forall k :: 0 <= k < |out| ==> Carries(out[k], b.sent[k])
    ensures out == DecodeAll(Split(b.buf))
    ensures stats.messages == |b.sent| && stats.bytes == |b.buf|
    ensures stats.unknownType == stats.lengthMismatch == stats.truncated == stats.zeroLength == stats.shortMessage == 0
  {
    out, stats := Parse(b.buf);
    BuiltSplits(b.sent);
    SentDecoded(b.sent);
    NoErrors(b.sent, Short);
    NoErrors(b.sent, Unknown);
    NoErrors(b.sent, Mismatched);
  }
}
