/** The whole feed as one book. */
module Feeds {

  // The book events of the messages, one ledger of every order with the symbol it belongs to, and what the bytes of
  // each body do to both.

  import opened ItchBytes
  import opened ItchMessages
  import opened Ledgers
  import B = ItchBuilders

  // ---- the messages ----

  /** The book event of a body that changes a book. */
  function EventOf(p: seq<Byte>): BookEvent
    requires LongEnough(p) && MutatesBook(p[0])
  {
    ViewsFit(p);
    var t, ts := p[0], Timestamp(p);
    if IsAdd(t) then BookEvent(ts, OrderRef(p), 0, AddPrice(p), AddShares(p), Add, if IsBuy(p) then Buy else Sell)
    else if IsExec(t) then BookEvent(ts, OrderRef(p), 0, 0, TakenShares(p), Execute, Buy)
    else if t == CANCEL then BookEvent(ts, OrderRef(p), 0, 0, TakenShares(p), Cancel, Buy)
    else if t == DELETE then BookEvent(ts, OrderRef(p), 0, 0, 0, Delete, Buy)
    else BookEvent(ts, OrderRef(p), NewRef(p), ReplacePrice(p), ReplaceShares(p), Replace, Buy)
  }

  // ---- one book for the whole feed ----

  /** What the whole feed means: one ledger of every order, and the slot of the symbol each was added under, which a
      replacement inherits. No routing index is involved. */
  datatype Feed = Feed(ledger: Ledger, owner: map<nat, nat>, locates: map<nat, nat>)

  function SlotAt(locates: map<nat, nat>, locate: nat): nat {
    if locate in locates then locates[locate] + 1 else 0
  }

  function OwnerOf(owner: map<nat, nat>, ref: nat): nat {
    if ref in owner then owner[ref] else 0
  }

  function Book(f: Feed, e: BookEvent, slot: nat): Feed {
    Feed(After(f.ledger, e),
         if e.kind.Add? then f.owner[e.ref := slot]
         else if e.kind.Replace? && Has(f.ledger.live, e.ref) then f.owner[e.newRef := OwnerOf(f.owner, e.ref)]
         else f.owner,
         f.locates)
  }

  /** One body of the feed; `wanted` gives the target of a symbol. */
  function Heard(f: Feed, p: seq<Byte>, wanted: map<nat, nat>): Feed
    requires LongEnough(p)
  {
    ViewsFit(p);
    if p[0] == STOCK_DIRECTORY then
      if Stock(p, 11) in wanted then f.(locates := f.locates[Locate(p) := wanted[Stock(p, 11)]]) else f
    else if MutatesBook(p[0]) then Book(f, EventOf(p), SlotAt(f.locates, Locate(p)))
    else f
  }

  /** The slot that a message's locate code stands for. */
  function SlotOf(f: Feed, p: seq<Byte>): nat
    requires LongEnough(p)
  {
    SlotAt(f.locates, Locate(p))
  }

  const SILENCE := Feed(START, map[], map[])

  function HeardAll(bodies: seq<seq<Byte>>, wanted: map<nat, nat>): Feed
    requires forall k :: 0 <= k < |bodies| ==> LongEnough(bodies[k])
  {
    if bodies == [] then SILENCE
    else Heard(HeardAll(bodies[..|bodies| - 1], wanted), bodies[|bodies| - 1], wanted)
  }

  predicate AcceptableNext(f: Feed, p: seq<Byte>) {
    LongEnough(p) && MutatesBook(p[0]) ==> Acceptable(f.ledger, EventOf(p))
  }

  /** Throughout the feed, references are nonzero and none is given to an order while another live one has it. */
  ghost predicate AcceptableFeed(bodies: seq<seq<Byte>>, wanted: map<nat, nat>)
    requires forall k :: 0 <= k < |bodies| ==> LongEnough(bodies[k])
  {
    forall k :: 0 <= k < |bodies| ==> AcceptableNext(HeardAll(bodies[..k], wanted), bodies[k])
  }

  // ---- the events, told from the bytes and from what an encoder writes ----

  /** The event of a message as an encoder writes it. */
  lemma EncodedEvent(m: B.Message)
    requires B.InRange(m) && !m.SystemEvent?
    ensures var p := B.Encode(m);
      LongEnough(p) && MutatesBook(p[0]) && EventOf(p) ==
        match m {
          case AddOrder(ref, buy, shares, _, price, _, ts) =>
            BookEvent(ts, ref, 0, price, shares, Add, if buy then Buy else Sell)
          case Executed(ref, shares, _, _, ts) => BookEvent(ts, ref, 0, 0, shares, Execute, Buy)
          case Cancel(ref, shares, _, ts) => BookEvent(ts, ref, 0, 0, shares, EventType.Cancel, Buy)
          case Delete(ref, _, ts) => BookEvent(ts, ref, 0, 0, 0, EventType.Delete, Buy)
          case Replace(ref, newRef, shares, price, _, ts) =>
            BookEvent(ts, ref, newRef, price, shares, EventType.Replace, Buy)
        }
  {
    hide B.Encode, Read, Read48, LongEnough;
    B.EncodedReads(m);
    B.EncodedLength(m);
    ViewsFit(B.Encode(m));
  }

  /** The event of any body that changes a book, from its bytes. */
  lemma EventFromBytes(p: seq<Byte>)
    requires LongEnough(p) && MutatesBook(p[0])
    ensures var t, e := p[0], EventOf(p);
      && |p| >= 19 && e.ts == FromBig(p[5..11]) && e.ref == FromBig(p[11..19])
      && (t == ADD_ORDER || t == ADD_ORDER_MPID ==>
            && |p| >= 36 && e.kind.Add? && e.shares == FromBig(p[20..24]) && e.px == FromBig(p[32..36])
            && e.side == (if p[19] == BUY then Buy else Sell))
      && (t == EXECUTED || t == EXECUTED_PRICE ==> |p| >= 23 && e.kind.Execute? && e.shares == FromBig(p[19..23]))
      && (t == CANCEL ==> |p| >= 23 && e.kind.Cancel? && e.shares == FromBig(p[19..23]))
      && (t == DELETE ==> e.kind.Delete? && e.shares == 0)
      && (t == REPLACE ==>
            && |p| >= 35 && e.kind.Replace? && e.newRef == FromBig(p[19..27]) && e.shares == FromBig(p[27..31])
            && e.px == FromBig(p[31..35]))
      && (t != REPLACE ==> e.newRef == 0) && (t != REPLACE && t != ADD_ORDER && t != ADD_ORDER_MPID ==> e.px == 0)
  {
    hide Read, Read48, FromBig, LongEnough;
    ViewsFit(p);
    Read48IsBig(p, 5);
    ReadIsBig(p, 11, 8);
    if IsAdd(p[0]) {
      ReadIsBig(p, 20, 4);
      ReadIsBig(p, 32, 4);
    } else if p[0] == REPLACE {
      ReadIsBig(p, 19, 8);
      ReadIsBig(p, 27, 4);
      ReadIsBig(p, 31, 4);
    } else if p[0] != DELETE {
      ReadIsBig(p, 19, 4);
    }
  }

  // ---- the orders ----

  /** Every order but the new ones was there before: the same reference, side, price and arrival, and no larger. */
  ghost predicate Remain(now: seq<Resting>, before: seq<Resting>) {
    forall x :: x in now ==> exists y :: y in before && x == y.(qty := x.qty) && x.qty <= y.qty
  }

  function Less(own: nat, taken: nat): nat {
    if taken < own then own - taken else 0
  }

  /** What a body does to the orders of the feed, from its bytes. */
  ghost predicate BodyTells(l: Ledger, l': Ledger, p: seq<Byte>)
    requires LongEnough(p)
  {
    if !MutatesBook(p[0]) then l' == l
    else
      ViewsFit(p);
      var t, ref := p[0], FromBig(p[11..19]);
      if t == ADD_ORDER || t == ADD_ORDER_MPID then
        var shares := FromBig(p[20..24]);
        l'.live == l.live + if shares == 0 then []
          else [Resting(ref, if p[19] == BUY then Buy else Sell, FromBig(p[32..36]), shares, l.clock)]
      else if t == EXECUTED || t == EXECUTED_PRICE || t == CANCEL then
        && Remain(l'.live, l.live)
        && forall r :: SharesOf(l'.live, r) ==
             if r == ref then Less(SharesOf(l.live, r), FromBig(p[19..23])) else SharesOf(l.live, r)
      else if t == DELETE then
        && Remain(l'.live, l.live)
        && forall r :: SharesOf(l'.live, r) == if r == ref then 0 else SharesOf(l.live, r)
      else if SharesOf(l.live, ref) == 0 then l' == l
      else ReplaceTells(l, l', ref, FromBig(p[19..27]), FromBig(p[27..31]), FromBig(p[31..35]))
  }

  /** The old order leaves, and a new one comes last, on the old one's side. */
  ghost predicate ReplaceTells(l: Ledger, l': Ledger, ref: nat, newRef: nat, shares: nat, px: nat) {
    && (shares == 0 ==> Remain(l'.live, l.live))
    && (shares > 0 ==>
          && l'.live != [] && Remain(l'.live[..|l'.live| - 1], l.live)
          && Has(l.live, ref)
          && l'.live[|l'.live| - 1] == Resting(newRef, l.live[IndexOf(l.live, ref)].side, px, shares, l.clock))
    && forall r :: SharesOf(l'.live, r) ==
         if r == newRef then shares else if r == ref then 0 else SharesOf(l.live, r)
  }

  lemma DelistRemains(l: Ledger, ref: nat)
    ensures Remain(Delist(l, ref).live, l.live)
  {
    var i := IndexOf(l.live, ref);
    forall x | x in Delist(l, ref).live ensures x in l.live && x == x.(qty := x.qty) {
      if i < |l.live| {
        assert RemoveAt(l.live, i) == l.live[..i] + l.live[i + 1..];
      }
    }
  }

  lemma ShrinkRemains(l: Ledger, ref: nat, qty: nat)
    ensures Remain(Shrink(l, ref, qty).live, l.live)
  {
    var i := IndexOf(l.live, ref);
    DelistRemains(l, ref);
    if i < |l.live| && qty < l.live[i].qty {
      var now := Shrink(l, ref, qty).live;
      forall x | x in now ensures exists y :: y in l.live && x == y.(qty := x.qty) && x.qty <= y.qty {
        var k :| 0 <= k < |now| && now[k] == x;
        assert l.live[k] in l.live;
      }
    }
  }

  function Untaken(e: BookEvent, own: nat, r: nat): nat {
    if r != e.ref then own else if e.kind.Delete? then 0 else Less(own, e.shares)
  }

  /** What an event does to the orders of a ledger. */
  lemma TakenTells(l: Ledger, e: BookEvent)
    requires WellFormed(l) && Acceptable(l, e) && (e.kind.Execute? || e.kind.Cancel? || e.kind.Delete?)
    ensures Remain(After(l, e).live, l.live)
    ensures forall r :: SharesOf(After(l, e).live, r) == Untaken(e, SharesOf(l.live, r), r)
  {
    hide Remain, SharesOf, Delist, Shrink, WellFormed, Acceptable;
    DelistRemains(l, e.ref);
    ShrinkRemains(l, e.ref, e.shares);
    forall r ensures SharesOf(After(l, e).live, r) == Untaken(e, SharesOf(l.live, r), r) {
      SharesAfter(l, e, r);
    }
  }

  lemma ReplacedTells(l: Ledger, e: BookEvent)
    requires WellFormed(l) && Acceptable(l, e) && e.kind.Replace?
    ensures if SharesOf(l.live, e.ref) == 0 then After(l, e) == l
      else ReplaceTells(l, After(l, e), e.ref, e.newRef, e.shares, e.px)
  {
    hide Remain, SharesOf, WellFormed, Acceptable;
    SharesOfOrder(l, e.ref);
    DelistRemains(l, e.ref);
    if Has(l.live, e.ref) {
      var l' := After(l, e);
      forall r ensures SharesOf(l'.live, r) ==
        if r == e.newRef then e.shares else if r == e.ref then 0 else SharesOf(l.live, r)
      {
        SharesAfter(l, e, r);
      }
      if e.shares > 0 {
        assert l'.live[..|l'.live| - 1] == Delist(l, e.ref).live;
      }
    }
  }

  lemma AddedTells(l: Ledger, e: BookEvent)
    requires e.kind.Add?
    ensures After(l, e).live ==
      l.live + if e.shares == 0 then [] else [Resting(e.ref, e.side, e.px, e.shares, l.clock)]
  {
    assert l.live + [] == l.live;
  }

  lemma EventTells(l: Ledger, p: seq<Byte>)
    requires LongEnough(p) && MutatesBook(p[0]) && WellFormed(l) && Acceptable(l, EventOf(p))
    ensures BodyTells(l, After(l, EventOf(p)), p)
  {
    hide After, EventOf, WellFormed, Acceptable, FromBig, Remain, SharesOf, LongEnough, ReplaceTells, Less;
    var e := EventOf(p);
    EventFromBytes(p);
    if e.kind.Add? {
      AddedTells(l, e);
    } else if e.kind.Replace? {
      ReplacedTells(l, e);
    } else {
      TakenTells(l, e);
    }
  }

  // ---- the symbols ----

  /** What a body does to the symbols: a directory message gives its locate code to a wanted symbol, an added order
      belongs to the symbol of its code, and a replacement to that of the order it replaces. */
  ghost predicate OwnersTell(f: Feed, f': Feed, p: seq<Byte>, wanted: map<nat, nat>)
    requires LongEnough(p)
  {
    ViewsFit(p);
    var t, locate := p[0], FromBig(p[1..3]);
    && (f'.locates ==
          if t == STOCK_DIRECTORY && FromLittle(p[11..19]) in wanted
          then f.locates[locate := wanted[FromLittle(p[11..19])]] else f.locates)
    && (f'.owner ==
          if t == ADD_ORDER || t == ADD_ORDER_MPID
          then f.owner[FromBig(p[11..19]) := if locate in f.locates then f.locates[locate] + 1 else 0]
          else if t == REPLACE && SharesOf(f.ledger.live, FromBig(p[11..19])) > 0
          then f.owner[FromBig(p[19..27]) := OwnerOf(f.owner, FromBig(p[11..19]))]
          else f.owner)
  }

  /** One body of the feed. */
  lemma BodyMeans(f: Feed, p: seq<Byte>, wanted: map<nat, nat>)
    requires LongEnough(p) && WellFormed(f.ledger) && AcceptableNext(f, p)
    ensures var f' := Heard(f, p, wanted);
      WellFormed(f'.ledger) && BodyTells(f.ledger, f'.ledger, p) && OwnersTell(f, f', p, wanted)
  {
    hide After, EventOf, WellFormed, Acceptable, FromBig, FromLittle, BodyTells, Read, Has, SharesOf, LongEnough;
    ViewsFit(p);
    ReadIsBig(p, 1, 2);
    if MutatesBook(p[0]) {
      EventTells(f.ledger, p);
      AfterWellFormed(f.ledger, EventOf(p));
      EventFromBytes(p);
      SharesOfOrder(f.ledger, EventOf(p).ref);
    } else {
      NothingTold(f.ledger, p);
    }
  }

  lemma NothingTold(l: Ledger, p: seq<Byte>)
    requires LongEnough(p) && !MutatesBook(p[0])
    ensures BodyTells(l, l, p)
  {
  }

  lemma {:induction false} FeedWellFormed(bodies: seq<seq<Byte>>, wanted: map<nat, nat>, k: nat)
    requires forall j :: 0 <= j < |bodies| ==> LongEnough(bodies[j])
    requires AcceptableFeed(bodies, wanted) && k <= |bodies|
    ensures WellFormed(HeardAll(bodies[..k], wanted).ledger)
  {
    hide LongEnough, AcceptableNext, Heard, WellFormed;
    if k == 0 {
      SilenceWellFormed();
    } else {
      FeedWellFormed(bodies, wanted, k - 1);
      assert bodies[..k][..k - 1] == bodies[..k - 1];
      BodyMeans(HeardAll(bodies[..k - 1], wanted), bodies[k - 1], wanted);
    }
  }

  lemma SilenceWellFormed()
    ensures WellFormed(SILENCE.ledger)
  {
  }

  /** Every body of the feed does to the feed's own book what its bytes say, to the orders and to their owners. */
  ghost predicate FeedTold(bodies: seq<seq<Byte>>, wanted: map<nat, nat>)
    requires forall j :: 0 <= j < |bodies| ==> LongEnough(bodies[j])
  {
    forall k :: 0 <= k < |bodies| ==> ToldAt(bodies, wanted, k)
  }

  ghost predicate ToldAt(bodies: seq<seq<Byte>>, wanted: map<nat, nat>, k: nat)
    requires (forall j :: 0 <= j < |bodies| ==> LongEnough(bodies[j])) && k < |bodies|
  {
    var f, f' := HeardAll(bodies[..k], wanted), HeardAll(bodies[..k + 1], wanted);
    BodyTells(f.ledger, f'.ledger, bodies[k]) && OwnersTell(f, f', bodies[k], wanted)
  }

  lemma BodyTold(bodies: seq<seq<Byte>>, wanted: map<nat, nat>, k: nat)
    requires forall j :: 0 <= j < |bodies| ==> LongEnough(bodies[j])
    requires AcceptableFeed(bodies, wanted) && k < |bodies|
    ensures ToldAt(bodies, wanted, k)
  {
    hide LongEnough, AcceptableNext, Heard, WellFormed, BodyTells, OwnersTell;
    FeedWellFormed(bodies, wanted, k);
    assert bodies[..k + 1][..k] == bodies[..k];
    BodyMeans(HeardAll(bodies[..k], wanted), bodies[k], wanted);
  }

  lemma FeedMeans(bodies: seq<seq<Byte>>, wanted: map<nat, nat>)
    requires (forall j :: 0 <= j < |bodies| ==> LongEnough(bodies[j])) && AcceptableFeed(bodies, wanted)
    ensures FeedTold(bodies, wanted)
  {
    hide LongEnough, ToldAt, AcceptableFeed;
    forall k | 0 <= k < |bodies| ensures ToldAt(bodies, wanted, k) {
      BodyTold(bodies, wanted, k);
    }
  }
}
