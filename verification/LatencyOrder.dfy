/** With latency the two fill models lose their order. */
module LatencyOrder {

  // The touches a maker reads along a plain tape are the true best prices of its ledgers. On one such tape, whatever
  // the latency and the quote size, the queue-aware maker fills twice what the naive one does.

  import opened Ledgers
  import opened Ranking
  import opened PriceGrid
  import opened CachedTicks
  import opened Refusals
  import opened QueueModel
  import opened Quoting
  import opened MarketMaking
  import opened StrategyEvaluation

  // ---- plain tapes ----

  ghost function BestOn(l: Ledger, side: Side): nat {
    var keys := Prices(l.live, side);
    if keys == {} then 0 else Best(side, keys)
  }

  ghost function TouchOf(l: Ledger): Touch {
    Touch(BestOn(l, Buy), BestOn(l, Sell))
  }

  /** An event with the true best prices around it. */
  ghost function PlainTick(l: Ledger, e: BookEvent): Tick {
    Tick(e, TouchOf(l), TouchOf(After(l, e)), true, true)
  }

  ghost function PlainTicks(tape: seq<BookEvent>): seq<Tick> {
    if tape == [] then []
    else
      var before := tape[..|tape| - 1];
      PlainTicks(before) + [PlainTick(Replay(START, before), tape[|tape| - 1])]
  }

  /** An add at a positive price, or anything but a replace on a live order. */
  predicate PlainEvent(l: Ledger, e: BookEvent) {
    !e.kind.Replace? && if e.kind.Add? then e.px > 0 else Has(l.live, e.ref)
  }

  ghost predicate PlainTape(tape: seq<BookEvent>) {
    tape == [] || (PlainTape(tape[..|tape| - 1]) && PlainEvent(Replay(START, tape[..|tape| - 1]), tape[|tape| - 1])
                   && Acceptable(Replay(START, tape[..|tape| - 1]), tape[|tape| - 1]))
  }

  ghost predicate Positive(l: Ledger) {
    forall i :: 0 <= i < |l.live| ==> l.live[i].px > 0
  }

  lemma {:induction false} PlainAcceptable(tape: seq<BookEvent>)
    requires PlainTape(tape)
    ensures AcceptableTape(START, tape) && Positive(Replay(START, tape))
  {
    hide Acceptable, After, PlainEvent;
    if tape != [] {
      var before, e := tape[..|tape| - 1], tape[|tape| - 1];
      PlainAcceptable(before);
      assert forall k :: 0 <= k < |before| ==> before[..k] == tape[..k];
      StaysPositive(Replay(START, before), e);
    }
  }

  lemma StaysPositive(l: Ledger, e: BookEvent)
    requires Positive(l) && PlainEvent(l, e)
    ensures Positive(After(l, e))
  {
  }

  /** Room for everything a tape of this length can bring. */
  predicate Ample(p: Setup, n: nat) {
    n <= p.room.orders && n <= p.room.levels && n <= p.room.names
  }

  lemma BestIsTrue(px: nat, l: Ledger, side: Side)
    requires TrueBest(px, l, side)
    ensures px == BestOn(l, side)
  {
  }

  lemma NoZeroAsk(l: Ledger, side: Side)
    requires Positive(l)
    ensures !ZeroAsk(l, side)
  {
  }

  lemma NoneDisplaced(p: Setup, tape: seq<BookEvent>, side: Side)
    requires tape != [] && !LastTaken(p, tape).kind.Replace?
    ensures !LastDisplaces(p, tape, side)
  {
  }

  /** With ample room the book takes a plain tape as it is. */
  lemma PlainHeld(p: Setup, tape: seq<BookEvent>)
    requires PlainTape(tape) && Ample(p, |tape|)
    ensures AcceptableTo(p.room, tape) && HeldAlong(p.room, tape) == Known(Replay(START, tape))
    ensures tape != [] ==> LastTaken(p, tape) == tape[|tape| - 1]
  {
    hide HeldAlong, Replay, Known, AcceptableTo, Rejections, Acceptable, WellFormed, Taken, Has;
    PlainAcceptable(tape);
    ShortTape(p.room, tape);
    if tape != [] {
      var before, e := tape[..|tape| - 1], tape[|tape| - 1];
      PlainAcceptable(before);
      ShortTape(p.room, before);
      AmpleRoom(p.room, Replay(START, before), e);
      TakenAsIs(p.room, Replay(START, before), e);
    }
  }

  /** A maker's tick is exact all along a plain tape. */
  lemma {:induction false} PlainExact(p: Setup, tape: seq<BookEvent>, side: Side)
    requires Aligned(p.w) && PlainTape(tape) && Ample(p, |tape|)
    ensures TapeExact(p, tape, side)
  {
    hide TapeExact, LastDisplaces, LastTaken, AcceptableTo, TapeTells, LastTick, HeldAlong, TrueBest, Acceptable, Has;
    if tape == [] {
      ExactFirst(p, side);
    } else {
      PlainHeld(p, tape);
      PlainExact(p, tape[..|tape| - 1], side);
      NoneDisplaced(p, tape, side);
      LastTouches(p, tape, side);
    }
  }

  lemma ExactFirst(p: Setup, side: Side)
    ensures TapeExact(p, [], side)
  {
    NothingYet(p, side);
  }

  /** The touches it reads are the true best prices. */
  lemma PlainTouches(p: Setup, tape: seq<BookEvent>, side: Side)
    requires Aligned(p.w) && PlainTape(tape) && tape != [] && Ample(p, |tape|)
    ensures var k, before := LastTick(p, tape), tape[..|tape| - 1];
      && At(k.before, side) == BestOn(Replay(START, before), side)
      && At(k.after, side) == BestOn(Replay(START, tape), side)
  {
    hide TapeExact, LastDisplaces, LastTaken, AcceptableTo, TapeTells, LastTick, HeldAlong, TrueBest, Acceptable, Has,
      Replay, BestOn, At, ZeroAsk, Positive, BestOutside;
    var before, k := tape[..|tape| - 1], LastTick(p, tape);
    PlainHeld(p, tape);
    PlainHeld(p, before);
    PlainExact(p, tape, side);
    PlainExact(p, before, side);
    LastTouches(p, tape, side);
    PlainAcceptable(tape);
    PlainAcceptable(before);
    NoZeroAsk(Replay(START, tape), side);
    NoZeroAsk(Replay(START, before), side);
    TapeTellsMeans(p, tape, side);
    TapeTellsMeans(p, before, side);
    BestIsTrue(At(k.before, side), Replay(START, before), side);
    BestIsTrue(At(k.after, side), Replay(START, tape), side);
  }

  /** What a maker that quotes always makes of a plain tape is told by the true best prices alone. */
  lemma {:induction false} PlainRun(p: Setup, tape: seq<BookEvent>)
    requires Aligned(p.w) && p.policy.mode.Always? && PlainTape(tape) && Ample(p, |tape|)
    ensures TapeTicks(p, tape) == PlainTicks(tape)
  {
    hide LastTick, LastTaken, BestOn, AllowedAfter, After;
    if tape != [] {
      var before := tape[..|tape| - 1];
      PlainRun(p, before);
      PlainHeld(p, tape);
      PlainTouches(p, tape, Buy);
      PlainTouches(p, tape, Sell);
      AlwaysBoth(p, before);
      LastTickIs(p, tape);
    }
  }

  // ---- a run on which the queue-aware maker overtakes ----

  // A bid that the naive maker fills at once and the queue-aware one after the order ahead of it; while the naive
  // one waits to quote again the other is filled too. The market turns one-sided and comes back higher: the naive
  // maker's new quote still rests at the old price when the other's has landed at the new one.

  function BidTape(latency: nat, size: nat): seq<BookEvent> {
    [ BookEvent(0, 1, 0, 10, size, Add, Buy), BookEvent(0, 2, 0, 30, size, Add, Sell),
      BookEvent(latency, 3, 0, 10, size, Add, Buy), BookEvent(latency, 1, 0, 0, size, Execute, Buy),
      BookEvent(latency, 3, 0, 0, size, Execute, Buy), BookEvent(2 * latency, 4, 0, 10, size, Add, Buy),
      BookEvent(2 * latency, 2, 0, 0, 0, Delete, Sell), BookEvent(3 * latency, 5, 0, 20, size, Add, Buy),
      BookEvent(3 * latency, 6, 0, 30, size, Add, Sell), BookEvent(3 * latency, 5, 0, 0, 2 * size, Execute, Buy) ]
  }

  /** The book after `k` events. */
  function BidBook(size: nat, k: nat): Ledger {
    var r1, r2, r3 := Resting(1, Buy, 10, size, 1), Resting(2, Sell, 30, size, 2), Resting(3, Buy, 10, size, 3);
    var r4, r5, r6 := Resting(4, Buy, 10, size, 4), Resting(5, Buy, 20, size, 5), Resting(6, Sell, 30, size, 6);
    if k == 0 then START
    else if k == 1 then Ledger([r1], 2)
    else if k == 2 then Ledger([r1, r2], 3)
    else if k == 3 then Ledger([r1, r2, r3], 4)
    else if k == 4 then Ledger([r2, r3], 4)
    else if k == 5 then Ledger([r2], 4)
    else if k == 6 then Ledger([r2, r4], 5)
    else if k == 7 then Ledger([r4], 5)
    else if k == 8 then Ledger([r4, r5], 6)
    else if k == 9 then Ledger([r4, r5, r6], 7)
    else Ledger([r4, r6], 7)
  }

  function BidTouch(k: nat): Touch {
    if k == 0 then Touch(0, 0)
    else if k == 1 || k == 7 then Touch(10, 0)
    else if k == 5 then Touch(0, 30)
    else if k == 8 then Touch(20, 0)
    else if k == 9 then Touch(20, 30)
    else Touch(10, 30)
  }

  /** The order that the event after `k` events names: its place in the book. */
  function BidPlace(k: nat): nat {
    if k == 3 || k == 6 then 0 else 1
  }

  lemma BidNamed(latency: nat, size: nat, k: nat)
    requires k in {3, 4, 6, 9}
    ensures var l, e := BidBook(size, k), BidTape(latency, size)[k];
      && BidPlace(k) < |l.live| && IndexOf(l.live, e.ref) == BidPlace(k)
      && RemoveAt(l.live, BidPlace(k)) == BidBook(size, k + 1).live
  {
    hide IndexOf;
    IndexAt(BidBook(size, k).live, BidPlace(k));
  }

  lemma BidSteps(latency: nat, size: nat, k: nat)
    requires k < 10 && size > 0
    ensures var l, e := BidBook(size, k), BidTape(latency, size)[k];
      && After(l, e) == BidBook(size, k + 1) && Acceptable(l, e) && PlainEvent(l, e)
      && Named(l, e) == if k in {3, 4, 6, 9} then [l.live[BidPlace(k)]] else []
  {
    hide IndexOf, RemoveAt;
    if k in {3, 4, 6, 9} {
      BidNamed(latency, size, k);
    }
  }

  lemma BestAt(l: Ledger, side: Side, i: nat)
    requires i < |l.live| && l.live[i].side == side
    requires forall j :: 0 <= j < |l.live| && l.live[j].side == side ==>
      l.live[j].px == l.live[i].px || Better(side, l.live[i].px, l.live[j].px)
    ensures BestOn(l, side) == l.live[i].px
  {
    assert l.live[i] in l.live;
    assert l.live[i].px in Prices(l.live, side);
    BestIs(side, Prices(l.live, side), l.live[i].px);
  }

  lemma NoneOn(l: Ledger, side: Side)
    requires forall j :: 0 <= j < |l.live| ==> l.live[j].side != side
    ensures BestOn(l, side) == 0
  {
  }

  lemma BidTouches(size: nat, k: nat)
    requires k < 10
    ensures TouchOf(BidBook(size, k)) == BidTouch(k)
  {
    hide BestOn;
    var l := BidBook(size, k);
    if k == 0 || k == 5 {
      NoneOn(l, Buy);
    } else {
      BestAt(l, Buy, if k == 4 || k == 6 || k >= 8 then 1 else 0);
    }
    if k == 0 || k == 1 || k == 7 || k == 8 {
      NoneOn(l, Sell);
    } else {
      BestAt(l, Sell, if k == 9 then 2 else if k <= 3 then 1 else 0);
    }
  }

  /** The buying desk of either maker after `k` events. */
  function BidDesk(c: Config, k: nat): Desk {
    var first := Quote(true, 10, c.size, c.size, false, c.latency, true);
    var gone := first.(active := false, remaining := 0);
    if k <= 1 then START_DESK
    else if k == 2 then START_DESK.(q := IDLE.(inFlight := true, landsAt := c.latency))
    else if k == 3 then Desk(first, Position(c.size, 3, true, 0))
    else if c.model.Naive? then
      if k <= 5 then Desk(gone.(inFlight := true, landsAt := 2 * c.latency), Position(0, 3, false, 0))
      else
        var second := Desk(first.(landsAt := 2 * c.latency), Position(c.size, 5, true, 0));
        if k <= 8 then second else second.(q := second.q.(inFlight := true, landsAt := 4 * c.latency))
    else if k == 4 then Desk(first, Position(0, 3, true, 0))
    else if k == 5 then Desk(gone, Position(0, 3, false, 0))
    else if k <= 8 then Desk(gone.(inFlight := true, landsAt := 3 * c.latency), Position(0, 3, false, 0))
    else Desk(Quote(true, 20, c.size, c.size, false, 3 * c.latency, true), Position(c.size, 7, true, 0))
  }

  /** Shares it has bought by then. */
  function BidBought(c: Config, k: nat): nat {
    if c.model.Naive? then (if k <= 3 then 0 else c.size)
    else if k <= 4 then 0 else if k <= 9 then c.size else 2 * c.size
  }

  /** Two orders of which the `i`-th rests at the level. */
  lemma SharesOfTwo(live: seq<Resting>, i: nat, side: Side, px: nat)
    requires |live| == 2 && i < 2 && live[i].side == side && live[i].px == px
    requires live[1 - i].side != side || live[1 - i].px != px
    ensures Shares(live, side, px) == live[i].qty
  {
    assert live == [] + [live[0]] + [live[1]];
    LevelAppend([], live[0], side, px);
    LevelAppend([] + [live[0]], live[1], side, px);
  }

  lemma BidShares(size: nat)
    ensures Shares(BidBook(size, 2).live, Buy, 10) == size && Shares(BidBook(size, 6).live, Buy, 10) == size
    ensures Shares(BidBook(size, 9).live, Buy, 20) == size
  {
    hide Shares, Sum;
    SharesOfTwo(BidBook(size, 2).live, 0, Buy, 10);
    SharesOfTwo(BidBook(size, 6).live, 1, Buy, 10);
    var live := BidBook(size, 9).live;
    SharesOfTwo(live[..2], 1, Buy, 20);
    assert live == live[..2] + [live[2]];
    LevelAppend(live[..2], live[2], Buy, 20);
  }

  lemma BidEvent(c: Config, k: nat)
    requires c.latency > 0 && c.size > 0 && k < 10
    ensures var tape := BidTape(c.latency, c.size);
      var (d', fills) := OnEvent(c, BidDesk(c, k), Buy, BidBook(c.size, k), PlainTick(BidBook(c.size, k), tape[k]));
      (k < 9 ==> d' == BidDesk(c, k + 1)) && BidBought(c, k + 1) == BidBought(c, k) + Volume(fills)
  {
    hide After, Volume, IndexOf, TouchOf, Shares;
    BidSteps(c.latency, c.size, k);
    BidTouches(c.size, k);
    if k < 9 {
      BidTouches(c.size, k + 1);
    }
    BidShares(c.size);
    EmptyVolume();
    var l, e, d := BidBook(c.size, k), BidTape(c.latency, c.size)[k], BidDesk(c, k);
    FillVolume(d, e, Buy, c.size, false);
    FillVolume(d, e, Buy, 0, false);
  }

  lemma {:induction false} PlainBook(tape: seq<BookEvent>)
    ensures |PlainTicks(tape)| == |tape| && BookAfter(PlainTicks(tape)) == Replay(START, tape)
  {
    hide After, BestOn;
    if tape != [] {
      var before := tape[..|tape| - 1];
      PlainBook(before);
      assert PlainTicks(tape)[..|tape| - 1] == PlainTicks(before);
    }
  }

  lemma {:induction false} BidRun(c: Config, k: nat)
    requires c.latency > 0 && c.size > 0 && k <= 10
    ensures var tape := BidTape(c.latency, c.size)[..k]; var ks := PlainTicks(tape);
      && PlainTape(tape) && Replay(START, tape) == BidBook(c.size, k)
      && (k < 10 ==> DeskAfter(c, Buy, ks) == BidDesk(c, k)) && Volume(FillsAfter(c, Buy, ks)) == BidBought(c, k)
  {
    hide BidBook, BidDesk, BidBought, After, OnEvent, PlainTick, PlainEvent, Acceptable, Volume;
    var all := BidTape(c.latency, c.size);
    if k == 0 {
      BidStart(c);
    } else {
      var tape, before := all[..k], all[..k - 1];
      assert tape[..k - 1] == before;
      BidRun(c, k - 1);
      BidSteps(c.latency, c.size, k - 1);
      BidEvent(c, k - 1);
      PlainBook(before);
      var ks, tick := PlainTicks(before), PlainTick(Replay(START, before), all[k - 1]);
      assert (ks + [tick])[..k - 1] == ks;
      VolumeConcat(FillsAfter(c, Buy, ks), OnEvent(c, DeskAfter(c, Buy, ks), Buy, BookAfter(ks), tick).1);
    }
  }

  lemma BidStart(c: Config)
    ensures BidBook(c.size, 0) == START && BidDesk(c, 0) == START_DESK && BidBought(c, 0) == 0 && Volume([]) == 0
  {
  }

  /** Whatever the latency and the quote size, there is a tape on which the queue-aware maker buys twice as much as
      the naive one. */
  lemma LatencyReverses(p: Setup, size: nat, latency: nat)
    requires Aligned(p.w) && p.policy.mode.Always? && Ample(p, 10) && size > 0 && latency > 0
    ensures var tape := BidTape(latency, size);
      && AcceptableTo(p.room, tape)
      && OutcomeOf(p, Config(size, latency, Naive), tape).bought == size
      && OutcomeOf(p, Config(size, latency, QueueAware), tape).bought == 2 * size
  {
    hide Volume, FillsAfter, TapeTicks, PlainTicks, PlainTape, AcceptableTo, RejectionsAlong, Replay, BidTape;
    var tape := BidTape(latency, size);
    assert |tape| == 10 by { BidLength(latency, size); }
    assert tape[..10] == tape;
    BidRun(Config(size, latency, Naive), 10);
    BidRun(Config(size, latency, QueueAware), 10);
    PlainRun(p, tape);
    PlainHeld(p, tape);
  }

  lemma BidLength(latency: nat, size: nat)
    ensures |BidTape(latency, size)| == 10
  {
  }

  /** The queue-aware maker reports no more than the naive one, on either side. */
  ghost predicate InOrder(p: Setup, size: nat, latency: nat, tape: seq<BookEvent>) {
    var aware, naive := OutcomeOf(p, Config(size, latency, QueueAware), tape),
      OutcomeOf(p, Config(size, latency, Naive), tape);
    aware.bought <= naive.bought && aware.sold <= naive.sold
  }

  lemma NoLatencyInOrder(p: Setup, size: nat, tape: seq<BookEvent>)
    ensures InOrder(p, size, 0, tape)
  {
    hide Volume, FillsAfter, TapeTicks, RejectionsAlong;
    var ks := TapeTicks(p, tape);
    assert ks[..|ks|] == ks;
    NaiveOverstates(Config(size, 0, QueueAware), Buy, ks, |ks|);
    NaiveOverstates(Config(size, 0, QueueAware), Sell, ks, |ks|);
  }

  /** The naive fill model is the more generous one on every tape if and only if there is no latency. */
  lemma InOrderIff(p: Setup, size: nat, latency: nat)
    requires Aligned(p.w) && p.policy.mode.Always? && Ample(p, 10) && size > 0
    ensures (forall tape :: AcceptableTo(p.room, tape) ==> InOrder(p, size, latency, tape)) <==> latency == 0
  {
    hide AcceptableTo, OutcomeOf;
    if latency == 0 {
      forall tape | AcceptableTo(p.room, tape) ensures InOrder(p, size, latency, tape) {
        NoLatencyInOrder(p, size, tape);
      }
    } else {
      LatencyReverses(p, size, latency);
      assert !InOrder(p, size, latency, BidTape(latency, size));
    }
  }
}
