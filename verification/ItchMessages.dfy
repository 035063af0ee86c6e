/** ITCH 5.0 bodies: the spec-length table, the typed views at their fixed offsets, and what the parsers decode. */
module ItchMessages {
  import opened ItchBytes

  // Message types, by their ASCII codes.
  const SYSTEM_EVENT: Byte := 83      // S
  const STOCK_DIRECTORY: Byte := 82   // R
  const TRADING_ACTION: Byte := 72    // H
  const REG_SHO: Byte := 89           // Y
  const PARTICIPANT: Byte := 76       // L
  const MWCB_DECLINE: Byte := 86      // V
  const MWCB_STATUS: Byte := 87       // W
  const IPO_QUOTING: Byte := 75       // K
  const LULD_COLLAR: Byte := 74       // J
  const OPERATIONAL_HALT: Byte := 104 // h
  const ADD_ORDER: Byte := 65         // A
  const ADD_ORDER_MPID: Byte := 70    // F
  const EXECUTED: Byte := 69          // E
  const EXECUTED_PRICE: Byte := 67    // C
  const CANCEL: Byte := 88            // X
  const DELETE: Byte := 68            // D
  const REPLACE: Byte := 85           // U
  const TRADE: Byte := 80             // P
  const CROSS_TRADE: Byte := 81       // Q
  const BROKEN_TRADE: Byte := 66      // B
  const NOII: Byte := 73              // I
  const RPII: Byte := 78              // N

  const BUY: Byte := 66               // B
  const SELL: Byte := 83              // S
  const HEADER_LENGTH: nat := 11

  type SpecTable = v: seq<nat> | |v| == 256 witness Zeros(256)

  function Zeros(n: nat): (v: seq<nat>)
    ensures |v| == n && forall k :: 0 <= k < n ==> v[k] == 0
  {
    if n == 0 then [] else Zeros(n - 1) + [0]
  }

  function Set(v: SpecTable, t: Byte, n: nat): SpecTable {
    v[t := n]
  }

  /** The dense table, as its constructor fills it. */
  function SpecTableOf(): SpecTable {
    var v := Zeros(256);
    var v := Set(Set(Set(Set(Set(v, SYSTEM_EVENT, 12), STOCK_DIRECTORY, 39), TRADING_ACTION, 25), REG_SHO, 20),
      PARTICIPANT, 26);
    var v := Set(Set(Set(Set(Set(v, MWCB_DECLINE, 35), MWCB_STATUS, 12), IPO_QUOTING, 28), LULD_COLLAR, 35),
      OPERATIONAL_HALT, 21);
    var v := Set(Set(Set(Set(Set(v, ADD_ORDER, 36), ADD_ORDER_MPID, 40), EXECUTED, 31), EXECUTED_PRICE, 36), CANCEL,
      23);
    var v := Set(Set(Set(Set(Set(v, DELETE, 19), REPLACE, 35), TRADE, 44), CROSS_TRADE, 40), BROKEN_TRADE, 19);
    Set(Set(v, NOII, 50), RPII, 20)
  }

  function SpecLength(t: Byte): nat {
    SpecTableOf()[t]
  }

  /** The hardware parser's table. */
  function RtlSpecLength(t: Byte): nat {
    if t == SYSTEM_EVENT then 12 else if t == STOCK_DIRECTORY then 39
    else if t == TRADING_ACTION then 25 else if t == REG_SHO then 20
    else if t == PARTICIPANT then 26 else if t == MWCB_DECLINE then 35
    else if t == MWCB_STATUS then 12 else if t == IPO_QUOTING then 28
    else if t == LULD_COLLAR then 35 else if t == OPERATIONAL_HALT then 21
    else if t == ADD_ORDER then 36 else if t == ADD_ORDER_MPID then 40
    else if t == EXECUTED then 31 else if t == EXECUTED_PRICE then 36
    else if t == CANCEL then 23 else if t == DELETE then 19
    else if t == REPLACE then 35 else if t == TRADE then 44
    else if t == CROSS_TRADE then 40 else if t == BROKEN_TRADE then 19
    else if t == NOII then 50 else if t == RPII then 20
    else 0
  }

  /** The software's table and the hardware's are the same function. */
  lemma SpecTablesAgree(t: Byte)
    ensures SpecLength(t) == RtlSpecLength(t)
  {
    assert Zeros(256)[t] == 0;
    hide Zeros;
  }

  // ---- views ----

  function Locate(p: seq<Byte>): nat
    requires |p| >= 3
  {
    Read(p, 1, 2)
  }

  function Tracking(p: seq<Byte>): nat
    requires |p| >= 5
  {
    Read(p, 3, 2)
  }

  function Timestamp(p: seq<Byte>): nat
    requires |p| >= 11
  {
    Read48(p, 5)
  }

  function OrderRef(p: seq<Byte>): nat
    requires |p| >= 19
  {
    Read(p, 11, 8)
  }

  predicate IsBuy(p: seq<Byte>)
    requires |p| >= 20
  {
    p[19] == BUY
  }

  function AddShares(p: seq<Byte>): nat
    requires |p| >= 24
  {
    Read(p, 20, 4)
  }

  function Stock(p: seq<Byte>, off: nat): nat
    requires |p| >= off + 8
  {
    FromLittle(p[off..off + 8])
  }

  function AddPrice(p: seq<Byte>): nat
    requires |p| >= 36
  {
    Read(p, 32, 4)
  }

  function Attribution(p: seq<Byte>): nat
    requires |p| >= 40
  {
    Read(p, 36, 4)
  }

  /** Executed and cancelled shares. */
  function TakenShares(p: seq<Byte>): nat
    requires |p| >= 23
  {
    Read(p, 19, 4)
  }

  function MatchNumber(p: seq<Byte>, off: nat): nat
    requires |p| >= off + 8
  {
    Read(p, off, 8)
  }

  function NewRef(p: seq<Byte>): nat
    requires |p| >= 27
  {
    Read(p, 19, 8)
  }

  function ReplaceShares(p: seq<Byte>): nat
    requires |p| >= 31
  {
    Read(p, 27, 4)
  }

  function ReplacePrice(p: seq<Byte>): nat
    requires |p| >= 35
  {
    Read(p, 31, 4)
  }

  predicate IsAdd(t: Byte) { t == ADD_ORDER || t == ADD_ORDER_MPID }

  predicate IsExec(t: Byte) { t == EXECUTED || t == EXECUTED_PRICE }

  predicate MutatesBook(t: Byte) {
    IsAdd(t) || IsExec(t) || t == CANCEL || t == DELETE || t == REPLACE
  }

  /** What a body must have to be handed out: the common header, and all its type's bytes. */
  predicate LongEnough(p: seq<Byte>) {
    |p| >= HEADER_LENGTH && |p| >= SpecLength(p[0])
  }

  /** One past the last byte that any read of the type's view touches; 11 for the types that have only the header. */
  function ViewExtent(t: Byte): nat {
    if t == ADD_ORDER then 32 + 4
    else if t == ADD_ORDER_MPID then 36 + 4
    else if t == EXECUTED then 23 + 8
    else if t == EXECUTED_PRICE then 32 + 4
    else if t == CANCEL then 19 + 4
    else if t == DELETE then 11 + 8
    else if t == REPLACE then 31 + 4
    else if t == TRADE then 36 + 8
    else if t == CROSS_TRADE then 39 + 1
    else if t == STOCK_DIRECTORY then 21 + 4
    else if t == TRADING_ACTION then 19 + 1
    else if t == SYSTEM_EVENT then 11 + 1
    else 5 + 6
  }

  /** No view of a body that was handed out reads past its end. */
  lemma ViewsFit(p: seq<Byte>)
    requires LongEnough(p)
    ensures ViewExtent(p[0]) <= |p|
  {
    SpecTablesAgree(p[0]);
    hide SpecLength;
  }

  function Flag(b: bool): nat { if b then 1 else 0 }

  /** Every read that the view of a body's type makes beyond the header: by `ViewsFit`, all within a body handed out. */
  function ViewReads(p: seq<Byte>): seq<nat>
    requires p != [] && ViewExtent(p[0]) <= |p|
  {
    var t := p[0];
    if t == ADD_ORDER then [OrderRef(p), Flag(IsBuy(p)), AddShares(p), Stock(p, 24), AddPrice(p)]
    else if t == ADD_ORDER_MPID then
      [OrderRef(p), Flag(IsBuy(p)), AddShares(p), Stock(p, 24), AddPrice(p), Attribution(p)]
    else if t == EXECUTED then [OrderRef(p), TakenShares(p), MatchNumber(p, 23)]
    else if t == EXECUTED_PRICE then [OrderRef(p), TakenShares(p), MatchNumber(p, 23), p[31], Read(p, 32, 4)]
    else if t == CANCEL then [OrderRef(p), TakenShares(p)]
    else if t == DELETE then [OrderRef(p)]
    else if t == REPLACE then [OrderRef(p), NewRef(p), ReplaceShares(p), ReplacePrice(p)]
    else if t == TRADE then
      [OrderRef(p), Flag(IsBuy(p)), AddShares(p), Stock(p, 24), AddPrice(p), MatchNumber(p, 36)]
    else if t == CROSS_TRADE then [Read(p, 11, 8), Stock(p, 19), Read(p, 27, 4), MatchNumber(p, 31), p[39]]
    else if t == STOCK_DIRECTORY then [Stock(p, 11), p[19], Read(p, 21, 4)]
    else if t == TRADING_ACTION then [Stock(p, 11), p[19]]
    else if t == SYSTEM_EVENT then [p[11]]
    else []
  }

  // ---- decoding ----

  datatype Decoded = Decoded(
    kind: Byte, length: nat, locate: nat, timestamp: nat, orderRef: nat, newRef: nat, shares: nat, price: nat,
    sideBuy: bool, bookEvent: bool)

  /** A body as the software decodes it: the header, and for the types that change a book, their fields. */
  function Decode(p: seq<Byte>): Decoded
    requires LongEnough(p)
  {
    ViewsFit(p);
    var t := p[0];
    var d := Decoded(t, |p|, Locate(p), Timestamp(p), 0, 0, 0, 0, false, false);
    if IsAdd(t) then
      d.(orderRef := OrderRef(p), shares := AddShares(p), price := AddPrice(p), sideBuy := IsBuy(p), bookEvent := true)
    else if IsExec(t) || t == CANCEL then d.(orderRef := OrderRef(p), shares := TakenShares(p), bookEvent := true)
    else if t == DELETE then d.(orderRef := OrderRef(p), bookEvent := true)
    else if t == REPLACE then
      d.(orderRef := OrderRef(p), newRef := NewRef(p), shares := ReplaceShares(p), price := ReplacePrice(p),
        bookEvent := true)
    else d
  }

  /** What a decoded body carries, from its bytes: the header of any type, and of the types that change a book their
      reference, shares, price and side. */
  lemma DecodedFromBytes(p: seq<Byte>)
    requires LongEnough(p)
    ensures var d, t := Decode(p), p[0];
      && |p| >= 11 && d.kind == t && d.length == |p|
      && d.locate == FromBig(p[1..3]) && d.timestamp == FromBig(p[5..11])
      && (d.bookEvent <==> t in {ADD_ORDER, ADD_ORDER_MPID, EXECUTED, EXECUTED_PRICE, CANCEL, DELETE, REPLACE})
      && (d.bookEvent ==> |p| >= 19 && d.orderRef == FromBig(p[11..19]))
      && (t in {ADD_ORDER, ADD_ORDER_MPID} ==>
            |p| >= 36 && d.shares == FromBig(p[20..24]) && d.price == FromBig(p[32..36]) && d.sideBuy == (p[19] == BUY))
      && (t in {EXECUTED, EXECUTED_PRICE, CANCEL} ==> |p| >= 23 && d.shares == FromBig(p[19..23]))
      && (t == REPLACE ==>
            && |p| >= 35 && d.newRef == FromBig(p[19..27]) && d.shares == FromBig(p[27..31])
            && d.price == FromBig(p[31..35]))
  {
    hide Read, Read48, FromBig, LongEnough;
    ViewsFit(p);
    ReadIsBig(p, 1, 2);
    Read48IsBig(p, 5);
    if MutatesBook(p[0]) {
      ReadIsBig(p, 11, 8);
      if IsAdd(p[0]) {
        ReadIsBig(p, 20, 4);
        ReadIsBig(p, 32, 4);
      } else if p[0] == REPLACE {
        ReadIsBig(p, 19, 8);
        ReadIsBig(p, 27, 4);
        ReadIsBig(p, 31, 4);
      } else if p[0] != DELETE {
        ReadIsBig(p, 19, 4);
      }
    }
  }
}
