/** The evaluation that scores both fill models on one tape, each with its own market maker and book. */
module StrategyEvaluation {
  import opened Ledgers
  import opened Ranking
  import opened PriceGrid
  import opened CachedTicks
  import opened Refusals
  import opened HybridBooks
  import opened Quoting
  import opened MarketMaking

  /** What the evaluation keeps of a run: shares bought and sold, and orders the book refused. */
  datatype Outcome = Outcome(bought: nat, sold: nat, rejected: nat)

  // ---- which sides are quoted ----

  /** Both sides always; or, when the book leans at least `threshold` one way, only the side with the longer queue,
      or only the one with the shorter. */
  datatype Mode = Always | HeavyOnly | ThinOnly
  datatype Policy = Policy(mode: Mode, threshold: real)

  const ALWAYS := Policy(Always, 0.0)

  datatype Sides = Sides(bid: bool, ask: bool)

  const BOTH := Sides(true, true)

  /** From -1 for a book with asks only to 1 for one with bids only. */
  function Imbalance(bidQty: nat, askQty: nat): real {
    if bidQty + askQty > 0 then (bidQty as real - askQty as real) / (bidQty + askQty) as real else 0.0
  }

  /** What the policy makes of a touch and the sizes resting at it; without a two-sided market nothing changes. */
  function Signalled(p: Policy, allowed: Sides, t: Touch, bidQty: nat, askQty: nat): Sides {
    if p.mode.Always? || !TwoSided(t) then allowed
    else
      var lean := if p.mode.HeavyOnly? then Imbalance(bidQty, askQty) else -Imbalance(bidQty, askQty);
      Sides(lean > -p.threshold, lean < p.threshold)
  }

  /** The two one-sided policies are mirrors of each other, whatever the threshold; with a positive one some side is
      always quoted, both exactly if the book leans less than that, and otherwise the side each is named after. */
  lemma PoliciesMirror(threshold: real, allowed: Sides, t: Touch, bidQty: nat, askQty: nat)
    requires TwoSided(t)
    ensures var heavy, thin := Signalled(Policy(HeavyOnly, threshold), allowed, t, bidQty, askQty),
        Signalled(Policy(ThinOnly, threshold), allowed, t, bidQty, askQty);
      && heavy.bid == thin.ask && heavy.ask == thin.bid
      && (threshold > 0.0 ==>
            && (heavy.bid || heavy.ask)
            && (heavy.bid && heavy.ask <==> -threshold < Imbalance(bidQty, askQty) < threshold)
            && (!heavy.ask ==> bidQty > askQty) && (!heavy.bid ==> bidQty < askQty))
  {
    if bidQty + askQty > 0 {
      LeanOfTotal(bidQty, askQty);
    }
  }

  /** The lean is a fraction of the shares at the touch: it lies between -1 and 1, which it reaches for one-sided sizes
      only, and depends on the ratio of the sizes alone. */
  lemma LeanIsAFraction(bidQty: nat, askQty: nat, scale: nat)
    requires scale > 0
    ensures -1.0 <= Imbalance(bidQty, askQty) <= 1.0
    ensures bidQty + askQty > 0 ==>
      && (Imbalance(bidQty, askQty) == 1.0 <==> askQty == 0) && (Imbalance(bidQty, askQty) == -1.0 <==> bidQty == 0)
    ensures Imbalance(scale * bidQty, scale * askQty) == Imbalance(bidQty, askQty)
  {
    if bidQty + askQty > 0 {
      var x, total := Imbalance(bidQty, askQty), bidQty as real + askQty as real;
      LeanOfTotal(bidQty, askQty);
      Unscaled(bidQty, askQty, scale);
      hide Imbalance;
      Scaled(1.0, x, total);
      Scaled(x, 1.0, total);
      Scaled(-1.0, x, total);
      Scaled(x, -1.0, total);
    }
  }

  lemma LeanOfTotal(bidQty: nat, askQty: nat)
    requires bidQty + askQty > 0
    ensures var b, a := bidQty as real, askQty as real;
      (bidQty + askQty) as real == b + a > 0.0 && Imbalance(bidQty, askQty) * (b + a) == b - a
  {
  }

  lemma Unscaled(bidQty: nat, askQty: nat, scale: nat)
    requires scale > 0 && bidQty + askQty > 0
    ensures Imbalance(scale * bidQty, scale * askQty) == Imbalance(bidQty, askQty)
  {
    var b, a, n, x := bidQty as real, askQty as real, scale as real, Imbalance(bidQty, askQty);
    LeanOfTotal(bidQty, askQty);
    ScaledTotal(bidQty, askQty, scale);
    LeanOfTotal(scale * bidQty, scale * askQty);
    hide Imbalance;
    var y := Imbalance(scale * bidQty, scale * askQty);
    Distributes(n, b, a, x);
    Cancels(x, y, n * b + n * a);
  }

  lemma ScaledTotal(bidQty: nat, askQty: nat, scale: nat)
    requires scale > 0 && bidQty + askQty > 0
    ensures scale * bidQty + scale * askQty > 0
    ensures (scale * bidQty) as real == scale as real * bidQty as real
    ensures (scale * askQty) as real == scale as real * askQty as real
  {
    assert scale * bidQty + scale * askQty == scale * (bidQty + askQty);
  }

  lemma Distributes(n: real, b: real, a: real, x: real)
    requires x * (b + a) == b - a
    ensures x * (n * b + n * a) == n * b - n * a
  {
    assert x * (n * b + n * a) == n * (x * (b + a));
  }

  lemma Cancels(x: real, y: real, total: real)
    requires x * total == y * total && total > 0.0
    ensures x == y
  {
  }

  /** What a one-sided policy makes of the sizes at a two-sided touch: the side with the shorter queue, or for the other
      policy the longer, is dropped once the sizes differ by at least the threshold's share of their total. */
  ghost predicate BySizes(p: Policy, sides: Sides, bidQty: nat, askQty: nat) {
    var longer, mark := bidQty as real - askQty as real, p.threshold * (bidQty + askQty) as real;
    && (p.mode.HeavyOnly? ==> (!sides.ask <==> longer >= mark) && (!sides.bid <==> -longer >= mark))
    && (p.mode.ThinOnly? ==> (!sides.bid <==> longer >= mark) && (!sides.ask <==> -longer >= mark))
  }

  lemma PolicyBySizes(p: Policy, allowed: Sides, t: Touch, bidQty: nat, askQty: nat)
    requires bidQty + askQty > 0
    ensures p.mode.Always? || t.bid == 0 || t.ask <= t.bid ==> Signalled(p, allowed, t, bidQty, askQty) == allowed
    ensures 0 < t.bid < t.ask ==> BySizes(p, Signalled(p, allowed, t, bidQty, askQty), bidQty, askQty)
  {
    hide Imbalance;
    LeanOfTotal(bidQty, askQty);
    InShares(Imbalance(bidQty, askQty), p.threshold, (bidQty + askQty) as real, bidQty as real - askQty as real);
  }

  lemma InShares(lean: real, threshold: real, total: real, longer: real)
    requires total > 0.0 && lean * total == longer
    ensures lean >= threshold <==> longer >= threshold * total
    ensures -lean >= threshold <==> -longer >= threshold * total
  {
    Scaled(lean, threshold, total);
    Scaled(-lean, threshold, total);
    assert -lean * total == -(lean * total);
  }

  lemma Scaled(x: real, y: real, total: real)
    requires total > 0.0
    ensures x >= y <==> x * total >= y * total
  {
  }

  /** A book's price window and capacity, and the policy of the maker that quotes in it. */
  datatype Setup = Setup(w: Window, room: Room, policy: Policy)

  /** Both sides quoted always. */
  function SetupOf(lo: nat, hi: nat, maxOrders: nat, maxLevels: nat): Setup
    requires lo - lo % TICK <= hi
  {
    Setup(WindowOf(lo, hi), Room(maxOrders, maxLevels, maxOrders * 7 / 10), ALWAYS)
  }

  /** The last event of a tape as the book takes it. */
  ghost function LastTaken(p: Setup, tape: seq<BookEvent>): BookEvent
    requires tape != []
  {
    Taken(p.room, HeldAlong(p.room, tape[..|tape| - 1]), tape[|tape| - 1])
  }

  /** The book's cached ticks after a maker has handled the tape. */
  ghost function TapeHints(p: Setup, tape: seq<BookEvent>): Hints {
    if tape == [] then NO_HINTS
    else
      var before := tape[..|tape| - 1];
      HintsOver(p.w, TapeHints(p, before), HeldAlong(p.room, before).ledger, LastTaken(p, tape))
  }

  /** The touch read after the last event. */
  ghost function LastTouch(p: Setup, tape: seq<BookEvent>): Touch
    requires tape != []
  {
    var before := tape[..|tape| - 1];
    TickAt(p.w, TapeHints(p, before), HeldAlong(p.room, before).ledger, LastTaken(p, tape), true, true).after
  }

  /** The sides the policy allows after a tape: it acts on what was seen after each event. */
  ghost function AllowedAfter(p: Setup, tape: seq<BookEvent>): Sides {
    if tape == [] then BOTH
    else
      var live, t := HeldAlong(p.room, tape).ledger.live, LastTouch(p, tape);
      Signalled(p.policy, AllowedAfter(p, tape[..|tape| - 1]), t, Shares(live, Buy, t.bid), Shares(live, Sell, t.ask))
  }

  /** The last event with the touches a maker reads around it, and the sides it may then quote. */
  ghost function LastTick(p: Setup, tape: seq<BookEvent>): Tick
    requires tape != []
  {
    var before := tape[..|tape| - 1];
    var allowed := AllowedAfter(p, before);
    TickAt(p.w, TapeHints(p, before), HeldAlong(p.room, before).ledger, LastTaken(p, tape), allowed.bid, allowed.ask)
  }

  /** Along a tape: after each event the sides allowed are those the shares resting at the touch then read call for, and
      they hold for the next event. */
  lemma AllowedBySizes(p: Setup, tape: seq<BookEvent>, next: BookEvent)
    requires tape != []
    ensures var now, was := AllowedAfter(p, tape), AllowedAfter(p, tape[..|tape| - 1]);
      var t, live := LastTick(p, tape).after, HeldAlong(p.room, tape).ledger.live;
      var bidQty, askQty := Shares(live, Buy, t.bid), Shares(live, Sell, t.ask);
      && (p.policy.mode.Always? || t.bid == 0 || t.ask <= t.bid ==> now == was)
      && (0 < t.bid < t.ask && bidQty + askQty > 0 ==> BySizes(p.policy, now, bidQty, askQty))
      && LastTick(p, tape + [next]).allowBid == now.bid && LastTick(p, tape + [next]).allowAsk == now.ask
  {
    hide LastTick, Shares, HeldAlong, BySizes, LastTouch, Imbalance;
    LastTickIs(p, tape);
    LastTickIs(p, tape + [next]);
    assert (tape + [next])[..|tape|] == tape;
    var t, live := LastTick(p, tape).after, HeldAlong(p.room, tape).ledger.live;
    if Shares(live, Buy, t.bid) + Shares(live, Sell, t.ask) > 0 {
      PolicyBySizes(p.policy, AllowedAfter(p, tape[..|tape| - 1]), t, Shares(live, Buy, t.bid),
        Shares(live, Sell, t.ask));
    }
  }

  /** Without a signal both sides stay allowed. */
  lemma {:induction false} AlwaysBoth(p: Setup, tape: seq<BookEvent>)
    requires p.policy.mode.Always?
    ensures AllowedAfter(p, tape) == BOTH
  {
    hide LastTouch;
    if tape != [] {
      AlwaysBoth(p, tape[..|tape| - 1]);
    }
  }

  /** The tape with the touches a maker reads along it. */
  ghost function TapeTicks(p: Setup, tape: seq<BookEvent>): seq<Tick> {
    if tape == [] then [] else TapeTicks(p, tape[..|tape| - 1]) + [LastTick(p, tape)]
  }

  lemma LastTickIs(p: Setup, tape: seq<BookEvent>)
    requires tape != []
    ensures var k, allowed := LastTick(p, tape), AllowedAfter(p, tape[..|tape| - 1]);
      k.e == LastTaken(p, tape) && k.after == LastTouch(p, tape) && k.allowBid == allowed.bid
        && k.allowAsk == allowed.ask && (allowed == BOTH ==> forall side :: Allowed(k, side))
  {
    hide TouchAt, HintsRead, HintsAfter, After, LastTaken, AllowedAfter;
  }

  /** The ticks of a tape lead to what the book holds. */
  lemma {:induction false} TicksFollowTape(p: Setup, tape: seq<BookEvent>)
    requires AcceptableTo(p.room, tape)
    ensures |TapeTicks(p, tape)| == |tape| && BookAfter(TapeTicks(p, tape)) == HeldAlong(p.room, tape).ledger
    ensures AcceptableRun(TapeTicks(p, tape))
  {
    hide After, LastTick, HeldAfter, Taken, Sound, Acceptable, AllowedAfter;
    if tape != [] {
      var before := tape[..|tape| - 1];
      Shorter(p.room, tape);
      TicksFollowTape(p, before);
      LastTickIs(p, tape);
      TakenLedger(p.room, HeldAlong(p.room, before), tape[|tape| - 1]);
      assert TapeTicks(p, tape)[..|tape| - 1] == TapeTicks(p, before);
    }
  }

  lemma Shorter(room: Room, tape: seq<BookEvent>)
    requires AcceptableTo(room, tape) && tape != []
    ensures var before := tape[..|tape| - 1];
      && AcceptableTo(room, before) && Sound(room, HeldAlong(room, before))
      && Acceptable(HeldAlong(room, before).ledger, tape[|tape| - 1])
  {
    hide HeldAlong, Acceptable, Sound, AcceptableTo;
    ToldFront(room, tape);
    HeldAlongSound(room, tape[..|tape| - 1]);
  }

  lemma Prefix(room: Room, tape: seq<BookEvent>, i: nat)
    requires AcceptableTo(room, tape) && i <= |tape|
    ensures AcceptableTo(room, tape[..i])
  {
    hide HeldAlong, Acceptable;
    assert forall k :: 0 <= k < i ==> tape[..i][..k] == tape[..k];
  }

  /** One more event of the tape. */
  lemma RunOneMore(c: Config, side: Side, p: Setup, tape: seq<BookEvent>)
    requires tape != [] && AcceptableTo(p.room, tape)
    ensures var before := tape[..|tape| - 1];
      var l, k := HeldAlong(p.room, before).ledger, LastTick(p, tape);
      var (d, fills) := OnEvent(c, DeskAfter(c, side, TapeTicks(p, before)), side, l, k);
      && DeskAfter(c, side, TapeTicks(p, tape)) == d
      && FillsAfter(c, side, TapeTicks(p, tape)) == FillsAfter(c, side, TapeTicks(p, before)) + fills
      && Volume(FillsAfter(c, side, TapeTicks(p, tape))) ==
        Volume(FillsAfter(c, side, TapeTicks(p, before))) + Volume(fills)
  {
    hide LastTick, OnEvent, Volume, AcceptableTo, HeldAlong, BookAfter;
    var before := tape[..|tape| - 1];
    Shorter(p.room, tape);
    var ks, k := TapeTicks(p, before), LastTick(p, tape);
    TicksFollowTape(p, before);
    assert (ks + [k])[..|ks + [k]| - 1] == ks;
    VolumeConcat(FillsAfter(c, side, ks), OnEvent(c, DeskAfter(c, side, ks), side, BookAfter(ks), k).1);
  }

  // ---- shares by side ----

  /** Shares filled on one side. */
  function VolumeOn(fills: seq<Fill>, side: Side): nat {
    if fills == [] then 0
    else VolumeOn(fills[..|fills| - 1], side) + if fills[|fills| - 1].side == side then fills[|fills| - 1].qty else 0
  }

  lemma {:induction false} VolumeOnConcat(a: seq<Fill>, b: seq<Fill>, side: Side)
    ensures VolumeOn(a + b, side) == VolumeOn(a, side) + VolumeOn(b, side)
  {
    if b == [] {
      assert a + b == a;
    } else {
      VolumeOnConcat(a, b[..|b| - 1], side);
      assert (a + b)[..|a + b| - 1] == a + b[..|b| - 1];
    }
  }

  lemma {:induction false} VolumeOnOwn(fills: seq<Fill>, own: Side, side: Side)
    requires forall i :: 0 <= i < |fills| ==> fills[i].side == own
    ensures VolumeOn(fills, side) == if side == own then Volume(fills) else 0
  {
    if fills != [] {
      VolumeOnOwn(fills[..|fills| - 1], own, side);
    }
  }

  /** A desk fills on its own side only. */
  lemma OnEventSide(c: Config, d: Desk, side: Side, l: Ledger, k: Tick)
    ensures forall i :: 0 <= i < |OnEvent(c, d, side, l, k).1| ==> OnEvent(c, d, side, l, k).1[i].side == side
  {
    hide Opening, Closing, After, Filled, Volume;
  }

  /** The fills of both desks, told apart by side. */
  lemma SidesApart(c: Config, b: Desk, a: Desk, l: Ledger, k: Tick)
    ensures var fb, fa := OnEvent(c, b, Buy, l, k).1, OnEvent(c, a, Sell, l, k).1;
      VolumeOn(fb + fa, Buy) == Volume(fb) && VolumeOn(fb + fa, Sell) == Volume(fa)
  {
    hide OnEvent, Volume, VolumeOn;
    OnEventSide(c, b, Buy, l, k);
    OnEventSide(c, a, Sell, l, k);
    var fb, fa := OnEvent(c, b, Buy, l, k).1, OnEvent(c, a, Sell, l, k).1;
    VolumeOnConcat(fb, fa, Buy);
    VolumeOnConcat(fb, fa, Sell);
    VolumeOnOwn(fb, Buy, Buy);
    VolumeOnOwn(fb, Buy, Sell);
    VolumeOnOwn(fa, Sell, Buy);
    VolumeOnOwn(fa, Sell, Sell);
  }

  method Tally(fills: seq<Fill>) returns (bought: nat, sold: nat)
    ensures bought == VolumeOn(fills, Buy) && sold == VolumeOn(fills, Sell)
  {
    bought, sold := 0, 0;
    for i := 0 to |fills|
      invariant bought == VolumeOn(fills[..i], Buy) && sold == VolumeOn(fills[..i], Sell)
    {
      assert fills[..i + 1][..i] == fills[..i];
      if fills[i].side == Buy {
        bought := bought + fills[i].qty;
      } else {
        sold := sold + fills[i].qty;
      }
    }
    assert fills[..|fills|] == fills;
  }

  // ---- the runs ----

  /** The maker and the shares so far are what the rules say of the tape so far, with these sides allowed. */
  ghost predicate Follows(mm: MarketMaker, p: Setup, tape: seq<BookEvent>, o: Outcome, allowed: Sides)
    reads mm, mm.posBid, mm.posAsk, mm.book, mm.book.ids
  {
    var c, ks := mm.Conf(), TapeTicks(p, tape);
    && mm.book.win == p.w && mm.book.Capacity() == p.room
    && mm.book.Holding() == HeldAlong(p.room, tape) && mm.Cached() == TapeHints(p, tape)
    && mm.BidDesk() == DeskAfter(c, Buy, ks) && mm.AskDesk() == DeskAfter(c, Sell, ks)
    && o.bought == Volume(FillsAfter(c, Buy, ks)) && o.sold == Volume(FillsAfter(c, Sell, ks))
    && mm.book.rejected == RejectionsAlong(p.room, tape)
    && Sides(mm.allowBid, mm.allowAsk) == allowed
  }

  ghost predicate OnTrack(mm: MarketMaker, p: Setup, tape: seq<BookEvent>, o: Outcome)
    reads mm, mm.posBid, mm.posAsk, mm.book, mm.book.ids
  {
    Follows(mm, p, tape, o, AllowedAfter(p, tape))
  }

  method Step(mm: MarketMaker, ghost p: Setup, ghost tape: seq<BookEvent>, e: BookEvent, o: Outcome)
    returns (o': Outcome)
    requires mm.Valid() && tape != [] && e == tape[|tape| - 1] && OnTrack(mm, p, tape[..|tape| - 1], o)
    requires AcceptableTo(p.room, tape)
    modifies mm`bid, mm`ask, mm.posBid, mm.posAsk, mm.book, mm.book.ids, mm.book.ids.slots
    ensures mm.Valid() && Follows(mm, p, tape, o', AllowedAfter(p, tape[..|tape| - 1]))
  {
    hide MarketMaker.Valid, HybridBook.Cached, OnEvent, TickAt, HintsOver, Acceptable, AcceptableTo, Sound, HeldAfter,
      Rejections, Taken, Volume, VolumeOn, DeskAfter, FillsAfter, TapeTicks, AllowedAfter;
    ghost var c, l, b, a := mm.Conf(), mm.book.ledger, mm.BidDesk(), mm.AskDesk();
    Shorter(p.room, tape);
    var fills := mm.OnEvent(e);
    var bought, sold := Tally(fills);
    o' := o.(bought := o.bought + bought, sold := o.sold + sold);
    RunOneMore(c, Buy, p, tape);
    RunOneMore(c, Sell, p, tape);
    SidesApart(c, b, a, l, LastTick(p, tape));
  }

  /** The signal from the state just reached, for the next event. */
  method Signal(mm: MarketMaker, policy: Policy, ghost p: Setup, ghost tape: seq<BookEvent>, ghost o: Outcome)
    requires mm.Valid() && tape != [] && policy == p.policy && AcceptableTo(p.room, tape)
    requires Follows(mm, p, tape, o, AllowedAfter(p, tape[..|tape| - 1]))
    modifies mm`allowBid, mm`allowAsk, mm.book
    ensures mm.Valid() && OnTrack(mm, p, tape, o)
    ensures var t, live := LastTick(p, tape).after, mm.book.ledger.live;
      var bidQty, askQty := Shares(live, Buy, t.bid), Shares(live, Sell, t.ask);
      0 < t.bid < t.ask && bidQty + askQty > 0 ==> BySizes(policy, Sides(mm.allowBid, mm.allowAsk), bidQty, askQty)
  {
    hide MarketMaker.Valid, HybridBook.Cached, AcceptableTo, Volume, FillsAfter, DeskAfter, TapeTicks, HeldAlong,
      TapeHints, RejectionsAlong, HintsRead, TouchAt, LastTouch, Shares, Imbalance, LastTick, BySizes;
    AllowedBySizes(p, tape, tape[0]);
    if policy.mode != Always {
      LooksAgain(p, tape);
      var t, bidQty, askQty := mm.ReadSizes();
      if TwoSided(t) {
        var imbalance := Imbalance(bidQty, askQty);
        var lean := if policy.mode == HeavyOnly then imbalance else -imbalance;
        mm.SetQuoting(lean > -policy.threshold, lean < policy.threshold);
      }
    }
  }

  /** Looking again after an event shows the same touch and changes no cached tick. */
  lemma LooksAgain(p: Setup, tape: seq<BookEvent>)
    requires tape != [] && AcceptableTo(p.room, tape)
    ensures var hs, l := TapeHints(p, tape), HeldAlong(p.room, tape).ledger;
      HintsRead(p.w, hs, l) == hs && TouchAt(p.w, hs, l) == LastTouch(p, tape)
  {
    hide HintsRead, HintsAfter, Taken, HeldAfter, Sound, Acceptable, AcceptableTo, After, TouchAt;
    var before := tape[..|tape| - 1];
    Shorter(p.room, tape);
    TakenLedger(p.room, HeldAlong(p.room, before), tape[|tape| - 1]);
    var l := HeldAlong(p.room, before).ledger;
    ReadTwice(p.w, HintsAfter(p.w, PerLevel, HintsRead(p.w, TapeHints(p, before), l), l, LastTaken(p, tape)),
      HeldAlong(p.room, tape).ledger);
  }

  /** One pass over the tape with a quoting policy. */
  method Run(tape: seq<BookEvent>, lo: nat, hi: nat, size: nat, latency: nat, model: FillModel, policy: Policy,
             maxOrders: nat, maxLevels: nat, hash: nat -> nat) returns (o: Outcome)
    requires lo - lo % TICK <= hi && maxOrders > 0
    requires AcceptableTo(SetupOf(lo, hi, maxOrders, maxLevels).room, tape)
    ensures var p, c := SetupOf(lo, hi, maxOrders, maxLevels).(policy := policy), Config(size, latency, model);
      o == OutcomeOf(p, c, tape)
  {
    hide MarketMaker.Valid, Volume, AcceptableTo, RejectionsAlong, FillsAfter, TapeTicks, AllowedAfter;
    var mm := new MarketMaker(lo, hi, size, latency, model, maxOrders, maxLevels, hash);
    o := Outcome(0, 0, 0);
    ghost var p := SetupOf(lo, hi, maxOrders, maxLevels).(policy := policy);
    StartsOnTrack(mm, p, tape);
    for i := 0 to |tape|
      invariant mm.Valid() && OnTrack(mm, p, tape[..i], o)
    {
      Prefix(p.room, tape, i + 1);
      assert tape[..i + 1][..i] == tape[..i];
      o := Step(mm, p, tape[..i + 1], tape[i], o);
      Signal(mm, policy, p, tape[..i + 1], o);
    }
    assert tape[..|tape|] == tape;
    o := o.(rejected := mm.book.rejected);
    Tracked(mm, p, tape, o);
  }

  /** The shares the quoting rules fill along the tape, and the orders the book has no room for. */
  ghost function OutcomeOf(p: Setup, c: Config, tape: seq<BookEvent>): Outcome {
    var ks := TapeTicks(p, tape);
    Outcome(Volume(FillsAfter(c, Buy, ks)), Volume(FillsAfter(c, Sell, ks)), RejectionsAlong(p.room, tape))
  }

  lemma StartsOnTrack(mm: MarketMaker, p: Setup, tape: seq<BookEvent>)
    requires mm.BidDesk() == mm.AskDesk() == START_DESK && mm.book.Holding() == NOTHING_HELD && mm.Cached() == NO_HINTS
    requires mm.book.win == p.w && mm.book.Capacity() == p.room && mm.book.rejected == 0
    requires mm.allowBid && mm.allowAsk
    ensures OnTrack(mm, p, tape[..0], Outcome(0, 0, 0))
  {
  }

  lemma Tracked(mm: MarketMaker, p: Setup, tape: seq<BookEvent>, o: Outcome)
    requires OnTrack(mm, p, tape, o) && o.rejected == mm.book.rejected
    ensures o == OutcomeOf(p, mm.Conf(), tape)
  {
    hide Volume, FillsAfter, TapeTicks, RejectionsAlong;
  }

  /** Both models on one tape with one policy. Without latency the naive one reports at least as many shares, on
      either side. */
  method Evaluate(tape: seq<BookEvent>, lo: nat, hi: nat, size: nat, latency: nat, policy: Policy, maxOrders: nat,
                  maxLevels: nat, hash: nat -> nat)
    returns (naive: Outcome, aware: Outcome)
    requires lo - lo % TICK <= hi && maxOrders > 0
    requires AcceptableTo(SetupOf(lo, hi, maxOrders, maxLevels).room, tape)
    ensures var p := SetupOf(lo, hi, maxOrders, maxLevels).(policy := policy);
      naive == OutcomeOf(p, Config(size, latency, Naive), tape)
        && aware == OutcomeOf(p, Config(size, latency, QueueAware), tape)
    ensures naive.rejected == aware.rejected
    ensures latency == 0 ==> aware.bought <= naive.bought && aware.sold <= naive.sold
  {
    hide Volume, FillsAfter, AcceptableTo, TapeTicks, RejectionsAlong;
    naive := Run(tape, lo, hi, size, latency, Naive, policy, maxOrders, maxLevels, hash);
    aware := Run(tape, lo, hi, size, latency, QueueAware, policy, maxOrders, maxLevels, hash);
    ghost var p, c := SetupOf(lo, hi, maxOrders, maxLevels).(policy := policy), Config(size, latency, QueueAware);
    if latency == 0 {
      assert TapeTicks(p, tape)[..|TapeTicks(p, tape)|] == TapeTicks(p, tape);
      NaiveOverstates(c, Buy, TapeTicks(p, tape), |TapeTicks(p, tape)|);
      NaiveOverstates(c, Sell, TapeTicks(p, tape), |TapeTicks(p, tape)|);
    }
  }

  /** At every point of a tape: what the maker takes for the shares ahead of its quote is at most the shares
      of the live orders at the quote's price that came before it, and exactly that unless something unusual
      happened since the quote joined. */
  lemma PositionAlongTape(p: Setup, c: Config, side: Side, tape: seq<BookEvent>)
    requires c.model.QueueAware? && AcceptableTo(p.room, tape)
    ensures var ks, l := TapeTicks(p, tape), HeldAlong(p.room, tape).ledger;
      Bounded(DeskAfter(c, side, ks), side, l)
        && Quoting.Exact(DeskAfter(c, side, ks), AuditAfter(c, side, ks), side, l)
  {
    TicksFollowTape(p, tape);
    PositionIsBound(c, side, TapeTicks(p, tape));
    PositionIsExact(c, side, TapeTicks(p, tape));
  }

  // ---- the touches ----

  ghost predicate KnownTick(w: Window, hs: Hints, l: Ledger, side: Side) {
    HintFor(hs, side) == UNKNOWN ==> GridPrices(w, Prices(l.live, side)) == {}
  }

  /** Reading both best prices makes no tick exact that was not, and no exact one inexact. */
  lemma ReadKeeps(w: Window, hs: Hints, l: Ledger, side: Side)
    requires Aligned(w) && Live(w, hs, l, side)
    ensures Live(w, HintsRead(w, hs, l), l, side) && KnownTick(w, HintsRead(w, hs, l), l, side)
    ensures CachedTicks.Exact(w, HintsRead(w, hs, l), l, side) <==> CachedTicks.Exact(w, hs, l, side)
    ensures Tells(w, HintsRead(w, hs, l), l, side) <==> Tells(w, hs, l, side)
    ensures KnownTick(w, hs, l, side) ==> HintFor(HintsRead(w, hs, l), side) == HintFor(hs, side)
  {
    hide GridPrices, HintExact, HintLive, OffGrid;
    LookupExact(w, hs, l, Buy, side);
    LookupExact(w, HintsLookup(w, hs, l, Buy), l, Sell, side);
    LookupExact(w, hs, l, side, side);
    LookupExact(w, HintsLookup(w, hs, l, Buy), l, side, side);
    if !CachedTicks.Exact(w, hs, l, side) {
      Inexact(w, hs, l, side);
    }
  }

  lemma Inexact(w: Window, hs: Hints, l: Ledger, side: Side)
    requires !CachedTicks.Exact(w, hs, l, side) && Live(w, hs, l, side)
    ensures HintFor(hs, side) != UNKNOWN
  {
  }

  ghost predicate TapeExact(p: Setup, tape: seq<BookEvent>, side: Side) {
    CachedTicks.Exact(p.w, TapeHints(p, tape), HeldAlong(p.room, tape).ledger, side)
  }

  /** A best price read after the tape can be the true one. */
  ghost predicate TapeTells(p: Setup, tape: seq<BookEvent>, side: Side) {
    Tells(p.w, TapeHints(p, tape), HeldAlong(p.room, tape).ledger, side)
  }

  /** The last event is a replace that displaces the side's best window price. */
  ghost predicate LastDisplaces(p: Setup, tape: seq<BookEvent>, side: Side)
    requires tape != []
  {
    Displaces(p.w, PerLevel, HeldAlong(p.room, tape[..|tape| - 1]).ledger, LastTaken(p, tape), side)
  }

  /** The best price of the side lies outside the window. */
  ghost predicate BestOutside(w: Window, l: Ledger, side: Side) {
    var keys := Prices(l.live, side);
    keys != {} && !InGrid(w, Best(side, keys))
  }

  /** An order to sell rests at price 0, which the book reports for an empty side. */
  ghost predicate ZeroAsk(l: Ledger, side: Side) {
    side == Sell && 0 in Prices(l.live, side)
  }

  /** One event of a maker's run, with a tick that is known unless the window is empty: each touch is the true one
      if and only if the tick is then exact or the best price lies outside the window; and an exact tick stays exact
      if and only if the event is no replace that displaces the best window price. */
  lemma EventTouches(w: Window, hs: Hints, l: Ledger, t: BookEvent, side: Side)
    requires Aligned(w) && Live(w, hs, l, side) && KnownTick(w, hs, l, side)
    ensures var k, l', hs' := TickAt(w, hs, l, t, true, true), After(l, t), HintsOver(w, hs, l, t);
      && Live(w, hs', l', side) && KnownTick(w, hs', l', side)
      && (TrueBest(At(k.before, side), l, side) <==> Tells(w, hs, l, side))
      && (TrueBest(At(k.after, side), l', side) <==> Tells(w, hs', l', side))
      && (CachedTicks.Exact(w, hs, l, side) ==>
            (CachedTicks.Exact(w, hs', l', side) <==> !Displaces(w, PerLevel, l, t, side)))
  {
    hide CachedTicks.Exact, Live, Tells, TrueBest, Displaces, Spoils, KnownTick, TouchAt, HintsRead, HintsAfter, After,
      Quotes;
    var hs1 := HintsRead(w, hs, l);
    var hs2 := HintsAfter(w, PerLevel, hs1, l, t);
    TouchIff(w, hs, l, side);
    ReadKeeps(w, hs, l, side);
    KnownMeans(w, hs1, l, side);
    ExactAfter(w, PerLevel, hs1, l, t, side);
    TouchIff(w, hs2, After(l, t), side);
    ReadKeeps(w, hs2, After(l, t), side);
    if CachedTicks.Exact(w, hs, l, side) {
      KnownSpoils(w, PerLevel, hs1, l, t, side);
    }
  }

  /** From an exact tick, the touch after an event is the true one if and only if no replace displaced the best window
      price or the best price lies outside the window; a displaced tick never tells an ask of 0. */
  lemma TouchAfterIff(w: Window, hs: Hints, l: Ledger, t: BookEvent, side: Side)
    requires Aligned(w) && CachedTicks.Exact(w, hs, l, side) && KnownTick(w, hs, l, side)
    ensures var px, l' := At(TickAt(w, hs, l, t, true, true).after, side), After(l, t);
      !ZeroAsk(l', side) ==>
        (TrueBest(px, l', side) <==> !Displaces(w, PerLevel, l, t, side) || BestOutside(w, l', side))
  {
    hide CachedTicks.Exact, Live, TrueBest, Displaces, Tells, KnownTick, TickAt, HintsOver, After, BestOutside, ZeroAsk;
    ExactIsLive(w, hs, l, side);
    EventTouches(w, hs, l, t, side);
    TellsMeans(w, HintsOver(w, hs, l, t), After(l, t), side);
  }

  lemma TellsMeans(w: Window, hs: Hints, l: Ledger, side: Side)
    requires Live(w, hs, l, side)
    ensures !ZeroAsk(l, side) ==>
      (Tells(w, hs, l, side) <==> CachedTicks.Exact(w, hs, l, side) || BestOutside(w, l, side))
  {
  }

  lemma KnownMeans(w: Window, hs: Hints, l: Ledger, side: Side)
    ensures KnownTick(w, hs, l, side) <==> (HintFor(hs, side) == UNKNOWN ==> GridPrices(w, Prices(l.live, side)) == {})
  {
  }

  ghost predicate ExactTo(p: Setup, tape: seq<BookEvent>, side: Side, k: nat)
    requires k <= |tape|
  {
    TapeExact(p, tape[..k], side)
  }

  ghost predicate DisplacedBy(p: Setup, tape: seq<BookEvent>, side: Side, k: nat)
    requires k < |tape|
  {
    LastDisplaces(p, tape[..k + 1], side)
  }

  lemma NothingYet(p: Setup, side: Side)
    ensures var hs, l := TapeHints(p, []), HeldAlong(p.room, []).ledger;
      CachedTicks.Exact(p.w, hs, l, side) && Live(p.w, hs, l, side) && KnownTick(p.w, hs, l, side)
  {
  }

  lemma LastHeld(p: Setup, tape: seq<BookEvent>)
    requires AcceptableTo(p.room, tape) && tape != []
    ensures AcceptableTo(p.room, tape[..|tape| - 1])
    ensures HeldAlong(p.room, tape).ledger ==
      After(HeldAlong(p.room, tape[..|tape| - 1]).ledger, LastTaken(p, tape))
  {
    hide After, Taken, Sound, HeldAfter, Acceptable, AcceptableTo;
    Shorter(p.room, tape);
    TakenLedger(p.room, HeldAlong(p.room, tape[..|tape| - 1]), tape[|tape| - 1]);
  }

  /** In every run the cached ticks are unknown over an empty window and otherwise name a live level. */
  lemma {:induction false} TapeLive(p: Setup, tape: seq<BookEvent>, side: Side)
    requires Aligned(p.w) && AcceptableTo(p.room, tape)
    ensures var hs, l := TapeHints(p, tape), HeldAlong(p.room, tape).ledger;
      Live(p.w, hs, l, side) && KnownTick(p.w, hs, l, side)
  {
    hide KnownTick, Live, Displaces, CachedTicks.Exact, TickAt, HintsOver, After, LastTaken, HeldAlong, AcceptableTo,
      TrueBest, Tells;
    if tape == [] {
      NothingYet(p, side);
    } else {
      var before := tape[..|tape| - 1];
      LastHeld(p, tape);
      TapeLive(p, before, side);
      EventTouches(p.w, TapeHints(p, before), HeldAlong(p.room, before).ledger, LastTaken(p, tape), side);
    }
  }

  lemma LastTouches(p: Setup, tape: seq<BookEvent>, side: Side)
    requires Aligned(p.w) && AcceptableTo(p.room, tape) && tape != []
    ensures var before, k := tape[..|tape| - 1], LastTick(p, tape);
      && (TrueBest(At(k.before, side), HeldAlong(p.room, before).ledger, side) <==> TapeTells(p, before, side))
      && (TrueBest(At(k.after, side), HeldAlong(p.room, tape).ledger, side) <==> TapeTells(p, tape, side))
      && (TapeExact(p, before, side) ==> (TapeExact(p, tape, side) <==> !LastDisplaces(p, tape, side)))
  {
    hide KnownTick, Live, TrueBest, Tells, Displaces, CachedTicks.Exact, TouchAt, HintsOver, HintsAfter, HintsRead,
      After, LastTaken, HeldAlong, AcceptableTo, AllowedAfter;
    var before := tape[..|tape| - 1];
    LastHeld(p, tape);
    TapeLive(p, before, side);
    EventTouches(p.w, TapeHints(p, before), HeldAlong(p.room, before).ledger, LastTaken(p, tape), side);
  }

  /** Whether the touches read before and after the `k`-th event are the true best prices of the side. */
  ghost predicate TrueBefore(p: Setup, tape: seq<BookEvent>, side: Side, k: nat)
    requires k < |tape|
  {
    TrueBest(At(LastTick(p, tape[..k + 1]).before, side), HeldAlong(p.room, tape[..k]).ledger, side)
  }

  ghost predicate TrueAfter(p: Setup, tape: seq<BookEvent>, side: Side, k: nat)
    requires k < |tape|
  {
    TrueBest(At(LastTick(p, tape[..k + 1]).after, side), HeldAlong(p.room, tape[..k + 1]).ledger, side)
  }

  lemma TouchStep(p: Setup, tape: seq<BookEvent>, side: Side, k: nat)
    requires Aligned(p.w) && AcceptableTo(p.room, tape) && k < |tape|
    ensures TrueBefore(p, tape, side, k) <==> TapeTells(p, tape[..k], side)
    ensures TrueAfter(p, tape, side, k) <==> TapeTells(p, tape[..k + 1], side)
    ensures ExactTo(p, tape, side, k) ==> (ExactTo(p, tape, side, k + 1) <==> !DisplacedBy(p, tape, side, k))
  {
    hide TrueBest, TapeTells, TapeExact, LastDisplaces, LastTick, HeldAlong, AcceptableTo;
    Prefix(p.room, tape, k + 1);
    assert tape[..k + 1][..k] == tape[..k];
    LastTouches(p, tape[..k + 1], side);
  }

  /** Along every tape each touch that a maker reads is the true best price of the side if and only if the tick is
      then exact or that price lies outside the window (an ask of 0 aside), and its ticks stay exact up to a point if
      and only if no replace has displaced a best window price. */
  lemma {:induction false} TouchesAlongTape(p: Setup, tape: seq<BookEvent>, side: Side, upTo: nat)
    requires Aligned(p.w) && AcceptableTo(p.room, tape) && upTo <= |tape|
    ensures forall k :: 0 <= k < upTo ==>
      && (TrueBefore(p, tape, side, k) <==> TapeTells(p, tape[..k], side))
      && (TrueAfter(p, tape, side, k) <==> TapeTells(p, tape[..k + 1], side))
    ensures (forall k :: 0 <= k <= upTo ==> ExactTo(p, tape, side, k)) <==>
      (forall k :: 0 <= k < upTo ==> !DisplacedBy(p, tape, side, k))
  {
    hide ExactTo, DisplacedBy, TrueBefore, TrueAfter, TapeTells, AcceptableTo;
    if upTo == 0 {
      StartTouches(p, tape, side);
    } else {
      TouchesAlongTape(p, tape, side, upTo - 1);
      TouchStep(p, tape, side, upTo - 1);
    }
  }

  lemma StartTouches(p: Setup, tape: seq<BookEvent>, side: Side)
    ensures ExactTo(p, tape, side, 0)
  {
    NothingYet(p, side);
    assert tape[..0] == [];
  }

  /** What a touch can tell: an exact tick tells the best price, and so does any tick if that price lies outside the
      window. */
  lemma TapeTellsMeans(p: Setup, tape: seq<BookEvent>, side: Side)
    requires Aligned(p.w) && AcceptableTo(p.room, tape)
    ensures var l := HeldAlong(p.room, tape).ledger;
      !ZeroAsk(l, side) ==> (TapeTells(p, tape, side) <==> TapeExact(p, tape, side) || BestOutside(p.w, l, side))
  {
    hide KnownTick, Live, Tells, CachedTicks.Exact, ZeroAsk, BestOutside, HeldAlong, AcceptableTo;
    TapeLive(p, tape, side);
    TellsMeans(p.w, TapeHints(p, tape), HeldAlong(p.room, tape).ledger, side);
  }
}
