/** The market maker: one order book, and per side a quote with its queue position. */
module MarketMaking {
  import opened Ledgers
  import opened Ranking
  import opened PriceGrid
  import opened CachedTicks
  import opened Refusals
  import opened HybridBooks
  import opened QueueModel
  import opened Quoting
  import FillReports

  /** `best_bid` and `best_ask`. */
  method ReadTouch(book: HybridBook) returns (t: Touch)
    requires book.Valid()
    modifies book
    ensures book.Valid() && book.Holding() == old(book.Holding()) && book.Capacity() == old(book.Capacity())
    ensures book.rejected == old(book.rejected)
    ensures Quotes(t.bid, book.ledger, Buy) && Quotes(t.ask, book.ledger, Sell)
    ensures t == TouchAt(book.win, old(book.Cached()), book.ledger)
    ensures book.Cached() == HintsRead(book.win, old(book.Cached()), book.ledger)
  {
    hide HybridBook.Valid, HybridBook.Shaped, Prices, Reported, HybridBook.Cached, HintAfterLookup, Tells, TrueBest,
      Quotes, HintsLookup, HintFor, TouchAt, HintsRead, HybridBook.Holding, HybridBook.Capacity;
    book.ValidIsShaped();
    ReadInTurn(book.win, book.Cached(), book.ledger);
    var b := book.BestPrice(Buy);
    var a := book.BestPrice(Sell);
    t := Touch(b, a);
  }

  /** The order the event leads to, read before the event changes the book. */
  method Resolve(book: HybridBook, e: BookEvent) returns (named: seq<Resting>)
    requires book.Valid() && e.ref != 0
    ensures named == Recalled(book.Holding(), e)
  {
    hide HybridBook.Valid, HybridBook.Shaped;
    named := [];
    if e.kind != Add {
      var oi := book.FindOrder(e.ref);
      if oi >= 0 {
        var o := book.orders[oi];
        named := [Resting(e.ref, o.side, book.levels[o.level].price, o.qty, o.stamp)];
      }
    }
  }

  class MarketMaker {
    const book: HybridBook
    const posBid: QueuePosition
    const posAsk: QueuePosition
    const size: nat
    const latency: nat
    const model: FillModel
    var bid: Quote
    var ask: Quote
    var allowBid: bool
    var allowAsk: bool

    ghost function Conf(): Config {
      Config(size, latency, model)
    }

    ghost function BidDesk(): Desk
      reads this, posBid
    {
      Desk(bid, posBid.State())
    }

    ghost function AskDesk(): Desk
      reads this, posAsk
    {
      Desk(ask, posAsk.State())
    }

    /** The book's cached ticks. */
    ghost function Cached(): Hints
      reads book
    {
      book.Cached()
    }

    /** Under the queue-aware rule every tracked position is a lower bound. */
    ghost predicate Valid()
      reads this, posBid, posAsk, book, book.ids, book.ids.slots
    {
      && posBid != posAsk
      && book.Valid()
      && (model.QueueAware? ==> Bounded(BidDesk(), Buy, book.ledger) && Bounded(AskDesk(), Sell, book.ledger))
    }

    constructor (lo: nat, hi: nat, size: nat, latency: nat, model: FillModel, maxOrders: nat, maxLevels: nat,
                 hash: nat -> nat)
      requires lo - lo % 100 <= hi && maxOrders > 0
      ensures Valid() && book.Holding() == NOTHING_HELD && book.rejected == 0 && allowBid && allowAsk
      ensures BidDesk() == AskDesk() == START_DESK && Conf() == Config(size, latency, model)
      ensures Cached() == NO_HINTS && book.win == WindowOf(lo, hi)
      ensures book.Capacity() == Room(maxOrders, maxLevels, maxOrders * 7 / 10)
      ensures fresh(book) && fresh(book.ids) && fresh(book.ids.slots) && fresh(posBid) && fresh(posAsk)
    {
      hide HybridBook.Valid, HybridBook.Shaped, HybridBook.Cached, Ahead;
      book := new HybridBook(lo, hi, maxOrders, maxLevels, hash);
      posBid := new QueuePosition();
      posAsk := new QueuePosition();
      this.size, this.latency, this.model := size, latency, model;
      bid, ask, allowBid, allowAsk := IDLE, IDLE, true, true;
    }

    method SetQuoting(bids: bool, asks: bool)
      requires Valid()
      modifies `allowBid, `allowAsk
      ensures Valid() && allowBid == bids && allowAsk == asks
    {
      hide HybridBook.Valid, HybridBook.Shaped, Bounded;
      allowBid, allowAsk := bids, asks;
    }

    /** `land_if_due`, with `join`. */
    method LandIfDue(q: Quote, pos: QueuePosition, side: Side, target: nat, now: nat) returns (q': Quote)
      requires book.Shaped()
      modifies pos
      ensures Desk(q', pos.State()) == Land(Conf(), Desk(q, old(pos.State())), book.ledger, side, target, now)
    {
      if !q.inFlight || now < q.landsAt {
        return q;
      }
      q' := q.(inFlight := false);
      if !q.wantActive {
        q' := q'.(active := false);
        pos.Leave();
        return;
      }
      var resting := book.LevelQty(side, target);
      var stamp := book.nextSeq;
      pos.Join(resting, stamp);
      q' := q'.(active := true, px := target, remaining := size, aheadAtJoin := resting);
    }

    /** `decide`. */
    method DecideMove(q: Quote, target: nat, now: nat, allow: bool) returns (q': Quote)
      ensures forall p :: Desk(q', p) == Decide(Conf(), Desk(q, p), target, now, allow)
    {
      q' := q;
      if q.inFlight || (q.active == allow && (!q.active || q.px == target)) {
        return;
      }
      q' := q.(inFlight := true, wantActive := allow, landsAt := now + latency);
    }

    /** `step_side`. */
    method StepSide(q: Quote, pos: QueuePosition, side: Side, preSide: Side, prePx: nat, preSeq: nat, preQty: nat,
                    e: BookEvent, ghost r: Resting)
      returns (q': Quote, fills: seq<Fill>)
      requires r.side == preSide && r.px == prePx && r.stamp == preSeq && r.qty == preQty
      modifies pos
      ensures (Desk(q', pos.State()), fills) == Step(Conf(), Desk(q, old(pos.State())), side, r, e)
    {
      q', fills := q, [];
      if !q.active || preSide != side {
        return;
      }
      if e.kind == Execute && Better(side, q.px, prePx) {
        var f := if e.shares < q.remaining then e.shares else q.remaining;
        q', fills := Report(q, pos, side, f, true, e);
        return;
      }
      if prePx != q.px {
        return;
      }
      match e.kind {
        case Execute =>
          var f: nat;
          if model == Naive {
            f := if e.shares < q.remaining then e.shares else q.remaining;
          } else {
            f := pos.OnExecution(preSeq, e.shares, q.remaining);
          }
          q', fills := Report(q, pos, side, f, false, e);
        case Cancel => pos.OnCancel(preSeq, e.shares);
        case Delete => pos.OnDelete(preSeq, preQty);
        case Replace => pos.OnDelete(preSeq, preQty);
        case Add =>
      }
    }

    /** Reporting a fill and taking it off the quote. */
    method Report(q: Quote, pos: QueuePosition, side: Side, f: nat, swept: bool, e: BookEvent)
      returns (q': Quote, fills: seq<Fill>)
      requires f <= q.remaining
      modifies pos
      ensures Desk(q', pos.State()) == Filled(Desk(q, old(pos.State())), f)
      ensures fills == FillOf(Desk(q, old(pos.State())), e, side, f, swept)
    {
      q', fills := q, [];
      if f > 0 {
        fills := [Fill(e.ts, q.px, f, side, q.aheadAtJoin, q.inFlight, swept)];
        q' := q.(remaining := q.remaining - f);
        if q'.remaining == 0 {
          q' := q'.(active := false);
          pos.Leave();
        }
      }
    }

    /** The replacements that are due land on both sides, if the market is two-sided. */
    method LandBoth(t: Touch, now: nat)
      requires book.Shaped() && posBid != posAsk
      modifies `bid, `ask, posBid, posAsk
      ensures BidDesk() ==
        (if TwoSided(t) then Land(Conf(), old(BidDesk()), book.ledger, Buy, t.bid, now) else old(BidDesk()))
      ensures AskDesk() ==
        (if TwoSided(t) then Land(Conf(), old(AskDesk()), book.ledger, Sell, t.ask, now) else old(AskDesk()))
    {
      hide HybridBook.Shaped, Land;
      if TwoSided(t) {
        bid := LandIfDue(bid, posBid, Buy, t.bid, now);
        ask := LandIfDue(ask, posAsk, Sell, t.ask, now);
      }
    }

    /** What the event did to the quotes resting when it happened. */
    method StepBoth(named: seq<Resting>, e: BookEvent) returns (fills: seq<Fill>)
      requires posBid != posAsk
      modifies `bid, `ask, posBid, posAsk
      ensures BidDesk() == Met(Conf(), old(BidDesk()), Buy, named, e).0
      ensures AskDesk() == Met(Conf(), old(AskDesk()), Sell, named, e).0
      ensures fills == Met(Conf(), old(BidDesk()), Buy, named, e).1 + Met(Conf(), old(AskDesk()), Sell, named, e).1
    {
      hide Step;
      fills := [];
      if |named| > 0 {
        var r := named[0];
        var fb, fa;
        bid, fb := StepSide(bid, posBid, Buy, r.side, r.px, r.stamp, r.qty, e, r);
        ask, fa := StepSide(ask, posAsk, Sell, r.side, r.px, r.stamp, r.qty, e, r);
        fills := fb + fa;
      }
    }

    method DecideBoth(t: Touch, now: nat)
      modifies `bid, `ask
      ensures BidDesk() ==
        (if TwoSided(t) then Decide(Conf(), old(BidDesk()), t.bid, now, allowBid) else old(BidDesk()))
      ensures AskDesk() ==
        (if TwoSided(t) then Decide(Conf(), old(AskDesk()), t.ask, now, allowAsk) else old(AskDesk()))
    {
      hide Decide;
      if TwoSided(t) {
        bid := DecideMove(bid, t.bid, now, allowBid);
        ask := DecideMove(ask, t.ask, now, allowAsk);
      }
    }

    /** One event of the tape: each side does exactly what `Quoting.OnEvent` says of it for the event as the book
        takes it, with the touches that the book reports before and after. These depend on the events so far and
        the book's capacity alone, not on the maker. */
    method OnEvent(e: BookEvent) returns (fills: seq<Fill>)
      requires Valid() && Acceptable(book.ledger, e)
      modifies `bid, `ask, posBid, posAsk, book, book.ids, book.ids.slots
      ensures Valid() && book.Capacity() == old(book.Capacity())
      ensures book.Holding() == HeldAfter(book.Capacity(), old(book.Holding()), e)
      ensures book.rejected == old(book.rejected) + Rejections(book.Capacity(), old(book.Holding()), e)
      ensures var h := old(book.Holding()); var l, t := h.ledger, Taken(book.Capacity(), h, e);
        var k := TickAt(book.win, old(Cached()), l, t, allowBid, allowAsk);
        && Cached() == HintsOver(book.win, old(Cached()), l, t)
        && BidDesk() == Quoting.OnEvent(Conf(), old(BidDesk()), Buy, l, k).0
        && AskDesk() == Quoting.OnEvent(Conf(), old(AskDesk()), Sell, l, k).0
        && fills ==
          Quoting.OnEvent(Conf(), old(BidDesk()), Buy, l, k).1 + Quoting.OnEvent(Conf(), old(AskDesk()), Sell, l, k).1
      ensures var h := old(book.Holding()); var l, t := h.ledger, Taken(book.Capacity(), h, e);
        var k := TickAt(book.win, old(Cached()), l, t, allowBid, allowAsk);
        forall x :: x in fills ==>
          || FillReports.Told(x, Opening(Conf(), old(BidDesk()), Buy, l, k).q, Buy, l, t)
          || FillReports.Told(x, Opening(Conf(), old(AskDesk()), Sell, l, k).q, Sell, l, t)
    {
      hide HybridBook.Valid, HybridBook.Shaped, HybridBook.Cached, WellFormed, Bounded, Opening, Closing,
        Traded, Met, Quoting.OnEvent, After, Recalled, Acceptable, TouchAt, HintsRead, HintsAfter, HeldAfter,
        Rejections, Taken, Sound, FillReports.Told;
      KeepsValid(e);
      ghost var room, h, l, b0, a0 := book.Capacity(), book.Holding(), book.ledger, BidDesk(), AskDesk();
      ghost var t := Taken(room, h, e);
      TakenLedger(room, h, e);
      var t0 := Open(e.ts, t);
      ghost var b1, a1 := BidDesk(), AskDesk();
      var named := Resolve(book, e);
      book.Apply(e);
      fills := StepBoth(named, e);
      ghost var b2, a2 := BidDesk(), AskDesk();
      var t1 := Close(e.ts, t);
      ghost var k := Tick(t, t0, t1, allowBid, allowAsk);
      MetIsTraded(Conf(), b1, Buy, room, h, k.(after := t0), e);
      MetIsTraded(Conf(), a1, Sell, room, h, k.(after := t0), e);
      Phases(Conf(), b0, b1, b2, BidDesk(), Buy, l, k);
      Phases(Conf(), a0, a1, a2, AskDesk(), Sell, l, k);
      FillReports.FillsTell(Conf(), b0, Buy, l, k);
      FillReports.FillsTell(Conf(), a0, Sell, l, k);
      if model == QueueAware {
        OnEventBounded(Conf(), b0, Buy, l, k);
        OnEventBounded(Conf(), a0, Sell, l, k);
      }
    }

    /** `touch`: the touch with the sizes resting at it, of which only those of a two-sided market are of interest. */
    method ReadSizes() returns (touch: Touch, bidQty: nat, askQty: nat)
      requires Valid()
      modifies book
      ensures Valid() && book.Holding() == old(book.Holding()) && book.Capacity() == old(book.Capacity())
      ensures book.rejected == old(book.rejected)
      ensures touch == TouchAt(book.win, old(Cached()), book.ledger)
      ensures Cached() == HintsRead(book.win, old(Cached()), book.ledger)
      ensures TwoSided(touch) ==>
        bidQty == Shares(book.ledger.live, Buy, touch.bid) && askQty == Shares(book.ledger.live, Sell, touch.ask)
    {
      hide HybridBook.Valid, HybridBook.Shaped, Quotes, TouchAt, HintsRead, HybridBook.Cached, Bounded, Shares;
      touch := ReadTouch(book);
      book.ValidIsShaped();
      bidQty, askQty := 0, 0;
      if TwoSided(touch) {
        bidQty := book.LevelQty(Buy, touch.bid);
        askQty := book.LevelQty(Sell, touch.ask);
      }
    }

    /** Before the event: what is due lands in the book as it stands. */
    method Open(now: nat, ghost t: BookEvent) returns (touch: Touch)
      requires book.Valid() && posBid != posAsk && t.ts == now
      modifies `bid, `ask, posBid, posAsk, book
      ensures book.Valid() && book.Holding() == old(book.Holding()) && book.Capacity() == old(book.Capacity())
      ensures book.rejected == old(book.rejected)
      ensures touch == TouchAt(book.win, old(Cached()), book.ledger)
      ensures Cached() == HintsRead(book.win, old(Cached()), book.ledger)
      ensures var k := Tick(t, touch, touch, allowBid, allowAsk);
        && BidDesk() == Opening(Conf(), old(BidDesk()), Buy, book.ledger, k)
        && AskDesk() == Opening(Conf(), old(AskDesk()), Sell, book.ledger, k)
    {
      hide HybridBook.Valid, HybridBook.Shaped, Land, Quotes, TouchAt, HintsRead, HybridBook.Cached;
      touch := ReadTouch(book);
      book.ValidIsShaped();
      LandBoth(touch, now);
    }

    /** After the event: the maker decides, and what is due lands. */
    method Close(now: nat, ghost t: BookEvent) returns (touch: Touch)
      requires book.Valid() && posBid != posAsk && t.ts == now
      modifies `bid, `ask, posBid, posAsk, book
      ensures book.Valid() && book.Holding() == old(book.Holding()) && book.Capacity() == old(book.Capacity())
      ensures book.rejected == old(book.rejected)
      ensures touch == TouchAt(book.win, old(Cached()), book.ledger)
      ensures Cached() == HintsRead(book.win, old(Cached()), book.ledger)
      ensures var k := Tick(t, touch, touch, allowBid, allowAsk);
        && BidDesk() == Closing(Conf(), old(BidDesk()), Buy, book.ledger, k)
        && AskDesk() == Closing(Conf(), old(AskDesk()), Sell, book.ledger, k)
    {
      hide HybridBook.Valid, HybridBook.Shaped, Land, Quotes, Decide, TouchAt, HintsRead, HybridBook.Cached, Closing,
        TwoSided;
      touch := ReadTouch(book);
      book.ValidIsShaped();
      DecideAndLand(touch, now, Tick(t, touch, touch, allowBid, allowAsk));
    }

    method DecideAndLand(touch: Touch, now: nat, ghost k: Tick)
      requires book.Shaped() && posBid != posAsk && k.e.ts == now && k.after == touch
      requires k.allowBid == allowBid && k.allowAsk == allowAsk
      modifies `bid, `ask, posBid, posAsk
      ensures BidDesk() == Closing(Conf(), old(BidDesk()), Buy, book.ledger, k)
      ensures AskDesk() == Closing(Conf(), old(AskDesk()), Sell, book.ledger, k)
    {
      hide HybridBook.Shaped, Land, Decide, Closing, TwoSided;
      ClosesSo(Conf(), BidDesk(), Buy, book.ledger, k);
      ClosesSo(Conf(), AskDesk(), Sell, book.ledger, k);
      DecideBoth(touch, now);
      LandBoth(touch, now);
    }

    lemma KeepsValid(e: BookEvent)
      requires Valid() && Acceptable(book.ledger, e)
      ensures e.ref != 0 && Sound(book.Capacity(), book.Holding()) && WellFormed(book.ledger)
      ensures Taken(book.Capacity(), book.Holding(), e).ts == e.ts
    {
      hide WellFormed, HybridBook.Valid, HybridBook.Shaped, NoRoom;
      book.ValidIsShaped();
    }
  }

  // ---- the event as the book takes it ----

  /** The order a book can find for an event. */
  ghost function Recalled(h: Held, e: BookEvent): seq<Resting> {
    if e.kind.Add? || e.ref !in h.names || !Has(h.ledger.live, e.ref) then []
    else [h.ledger.live[IndexOf(h.ledger.live, e.ref)]]
  }

  /** A desk meets the order found for an event, if one was. */
  function Met(c: Config, d: Desk, side: Side, named: seq<Resting>, e: BookEvent): (Desk, seq<Fill>) {
    if named == [] then (d, []) else Step(c, d, side, named[0], e)
  }

  /** What a desk makes of the order found is what the rules make of the event taken. */
  lemma MetIsTraded(c: Config, d: Desk, side: Side, room: Room, h: Held, k: Tick, e: BookEvent)
    requires Sound(room, h) && k.e == Taken(room, h, e)
    ensures Met(c, d, side, Recalled(h, e), e) == Traded(c, d, side, h.ledger, k)
  {
    hide NoRoom, WellFormed, Filled, FillOf;
  }

  /** The opening looks at the touch before the event only, the closing at the touch after it. */
  lemma Phases(c: Config, d0: Desk, d1: Desk, d2: Desk, d3: Desk, side: Side, l: Ledger, k: Tick)
    requires d1 == Opening(c, d0, side, l, k.(after := k.before))
    requires d2 == Traded(c, d1, side, l, k.(after := k.before)).0
    requires d3 == Closing(c, d2, side, After(l, k.e), k.(before := k.after))
    ensures Quoting.OnEvent(c, d0, side, l, k) == (d3, Traded(c, d1, side, l, k.(after := k.before)).1)
  {
    hide Land, Step, Decide, After, Named;
  }

  lemma ClosesSo(c: Config, d: Desk, side: Side, l: Ledger, k: Tick)
    ensures var target, allow := At(k.after, side), Allowed(k, side);
      Closing(c, d, side, l, k) ==
        if TwoSided(k.after) then Land(c, Decide(c, d, target, k.e.ts, allow), l, side, target, k.e.ts) else d
  {
  }

  // ---- what the book reports ----

  /** The best prices reported by a book with these cached ticks. */
  ghost function TouchAt(w: Window, hs: Hints, l: Ledger): Touch {
    Touch(Reported(Buy, w, Prices(l.live, Buy), hs.bid), Reported(Sell, w, Prices(l.live, Sell), hs.ask))
  }

  /** Reading the bid leaves the ask's tick alone. */
  lemma ReadInTurn(w: Window, hs: Hints, l: Ledger)
    ensures var hs1 := HintsLookup(w, hs, l, Buy);
      && HintsRead(w, hs, l) == HintsLookup(w, hs1, l, Sell)
      && TouchAt(w, hs, l) == Touch(Reported(Buy, w, Prices(l.live, Buy), HintFor(hs, Buy)),
                                    Reported(Sell, w, Prices(l.live, Sell), HintFor(hs1, Sell)))
  {
    hide Reported, HintAfterLookup;
  }

  /** A touch is the true best price of a side if and only if its tick is exact or that price lies outside the
      window. */
  lemma TouchIff(w: Window, hs: Hints, l: Ledger, side: Side)
    requires Aligned(w) && Live(w, hs, l, side)
    ensures var px := At(TouchAt(w, hs, l), side);
      Quotes(px, l, side) && (TrueBest(px, l, side) <==> Tells(w, hs, l, side))
  {
    hide Live, Reported, TrueBest, Tells, Quotes;
    ReportsIff(w, hs, l, side);
  }

  /** The cached ticks after both best prices were read. */
  ghost function HintsRead(w: Window, hs: Hints, l: Ledger): Hints {
    HintsLookup(w, HintsLookup(w, hs, l, Buy), l, Sell)
  }

  lemma LookupTwice(w: Window, keys: set<nat>, side: Side, h: int)
    ensures var h' := HintAfterLookup(side, w, keys, h); HintAfterLookup(side, w, keys, h') == h'
  {
  }

  /** Reading both best prices again changes nothing and shows the same. */
  lemma ReadTwice(w: Window, hs: Hints, l: Ledger)
    ensures HintsRead(w, HintsRead(w, hs, l), l) == HintsRead(w, hs, l)
    ensures TouchAt(w, HintsRead(w, hs, l), l) == TouchAt(w, hs, l)
  {
    hide HintAfterLookup, Prices;
    LookupTwice(w, Prices(l.live, Buy), Buy, hs.bid);
    LookupTwice(w, Prices(l.live, Sell), Sell, hs.ask);
  }

  /** The event with the touches read before and after it. */
  ghost function TickAt(w: Window, hs: Hints, l: Ledger, e: BookEvent, allowBid: bool, allowAsk: bool): Tick {
    var after := TouchAt(w, HintsAfter(w, PerLevel, HintsRead(w, hs, l), l, e), After(l, e));
    Tick(e, TouchAt(w, hs, l), after, allowBid, allowAsk)
  }

  /** The cached ticks after the maker has handled the event. */
  ghost function HintsOver(w: Window, hs: Hints, l: Ledger, e: BookEvent): Hints {
    HintsRead(w, HintsAfter(w, PerLevel, HintsRead(w, hs, l), l, e), After(l, e))
  }
}
