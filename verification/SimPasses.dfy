/** The simulator that sets the queue-aware market maker beside a naive pass of its own. */
module SimulationPasses {

  // The naive pass keeps a book and two bare quotes. It knows no sweep: an execution through a quote, which takes
  // the quote in the market maker, leaves it here. It looks best prices up after an event only.

  import opened Ledgers
  import opened Ranking
  import opened PriceGrid
  import opened CachedTicks
  import opened Refusals
  import opened HybridBooks
  import opened QueueModel
  import opened Quoting
  import opened MarketMaking
  import opened StrategyEvaluation

  datatype BareQuote = BareQuote(active: bool, px: nat, remaining: nat)

  const NO_QUOTE := BareQuote(false, 0, 0)

  /** An execution at the quote's price fills it as far as both allow; also the shares filled. */
  function Hit(q: BareQuote, side: Side, named: seq<Resting>, e: BookEvent): (BareQuote, nat) {
    if named == [] || !e.kind.Execute? || !q.active || named[0].side != side || named[0].px != q.px then (q, 0)
    else
      var f := Min(q.remaining, e.shares);
      if f == 0 then (q, 0) else (q.(remaining := q.remaining - f, active := q.remaining > f), f)
  }

  function Requoted(q: BareQuote, target: nat, size: nat): BareQuote {
    if q.active && q.px == target then q else BareQuote(true, target, size)
  }

  // ---- the pass along a tape ----

  /** The book's cached ticks when best prices are read after each event only. */
  ghost function SimHints(p: Setup, tape: seq<BookEvent>): Hints {
    if tape == [] then NO_HINTS
    else
      var l, t := HeldAlong(p.room, tape[..|tape| - 1]).ledger, LastTaken(p, tape);
      HintsRead(p.w, HintsAfter(p.w, PerLevel, SimHints(p, tape[..|tape| - 1]), l, t), HeldAlong(p.room, tape).ledger)
  }

  /** The touch read after the last event. */
  ghost function SimTouch(p: Setup, tape: seq<BookEvent>): Touch
    requires tape != []
  {
    var l, t := HeldAlong(p.room, tape[..|tape| - 1]).ledger, LastTaken(p, tape);
    TouchAt(p.w, HintsAfter(p.w, PerLevel, SimHints(p, tape[..|tape| - 1]), l, t), HeldAlong(p.room, tape).ledger)
  }

  /** The last event meets a quote. */
  ghost function HitLast(p: Setup, side: Side, q: BareQuote, tape: seq<BookEvent>): (BareQuote, nat)
    requires tape != []
  {
    var e := tape[|tape| - 1];
    Hit(q, side, Recalled(HeldAlong(p.room, tape[..|tape| - 1]), e), e)
  }

  ghost function SimQuote(p: Setup, side: Side, size: nat, tape: seq<BookEvent>): BareQuote {
    if tape == [] then NO_QUOTE
    else
      var q := HitLast(p, side, SimQuote(p, side, size, tape[..|tape| - 1]), tape).0;
      if TwoSided(SimTouch(p, tape)) then Requoted(q, At(SimTouch(p, tape), side), size) else q
  }

  ghost function LastHit(p: Setup, side: Side, size: nat, tape: seq<BookEvent>): (BareQuote, nat)
    requires tape != []
  {
    HitLast(p, side, SimQuote(p, side, size, tape[..|tape| - 1]), tape)
  }

  /** Shares the pass has filled on a side. */
  ghost function SimVolume(p: Setup, side: Side, size: nat, tape: seq<BookEvent>): nat {
    if tape == [] then 0 else SimVolume(p, side, size, tape[..|tape| - 1]) + LastHit(p, side, size, tape).1
  }

  // ---- the pass as written ----

  ghost predicate SimOnTrack(d: HybridBook, p: Setup, size: nat, tape: seq<BookEvent>, bid: BareQuote, ask: BareQuote,
                             o: Outcome)
    reads d, d.ids
  {
    && d.win == p.w && d.Capacity() == p.room && d.Holding() == HeldAlong(p.room, tape)
      && d.Cached() == SimHints(p, tape)
    && d.rejected == RejectionsAlong(p.room, tape)
    && bid == SimQuote(p, Buy, size, tape) && ask == SimQuote(p, Sell, size, tape)
    && o.bought == SimVolume(p, Buy, size, tape) && o.sold == SimVolume(p, Sell, size, tape)
  }

  method SimStep(d: HybridBook, ghost p: Setup, size: nat, ghost tape: seq<BookEvent>, e: BookEvent, bid: BareQuote,
                 ask: BareQuote, o: Outcome)
    returns (bid': BareQuote, ask': BareQuote, o': Outcome)
    requires d.Valid() && tape != [] && e == tape[|tape| - 1] && SimOnTrack(d, p, size, tape[..|tape| - 1], bid, ask, o)
    requires AcceptableTo(p.room, tape)
    modifies d, d.ids, d.ids.slots
    ensures d.Valid() && SimOnTrack(d, p, size, tape, bid', ask', o')
  {
    hide HybridBook.Valid, HybridBook.Shaped, HybridBook.Cached, Hit, Requoted, Recalled, Taken, HeldAfter, Rejections,
      HintsAfter, HintsRead, TouchAt, Quotes, After, Acceptable, AcceptableTo, Sound;
    ghost var before := tape[..|tape| - 1];
    Shorter(p.room, tape);
    TakenLedger(p.room, HeldAlong(p.room, before), e);
    RefGiven(HeldAlong(p.room, before).ledger, e);
    var named := Resolve(d, e);
    d.Apply(e);
    var hitBid, hitAsk := Hit(bid, Buy, named, e), Hit(ask, Sell, named, e);
    o' := o.(bought := o.bought + hitBid.1, sold := o.sold + hitAsk.1);
    var t := ReadTouch(d);
    bid', ask' := hitBid.0, hitAsk.0;
    if TwoSided(t) {
      bid', ask' := Requoted(bid', t.bid, size), Requoted(ask', t.ask, size);
    }
  }

  lemma RefGiven(l: Ledger, e: BookEvent)
    requires Acceptable(l, e)
    ensures e.ref != 0
  {
  }

  /** The naive pass over a tape. */
  method NaivePass(tape: seq<BookEvent>, lo: nat, hi: nat, size: nat, maxOrders: nat, maxLevels: nat, hash: nat -> nat)
    returns (o: Outcome)
    requires lo - lo % TICK <= hi && maxOrders > 0
    requires AcceptableTo(SetupOf(lo, hi, maxOrders, maxLevels).room, tape)
    ensures o == SimOutcome(SetupOf(lo, hi, maxOrders, maxLevels), size, tape)
  {
    hide HybridBook.Valid, AcceptableTo, RejectionsAlong, SimVolume, SimQuote;
    var d := new HybridBook(lo, hi, maxOrders, maxLevels, hash);
    var bid, ask := NO_QUOTE, NO_QUOTE;
    o := Outcome(0, 0, 0);
    ghost var p := SetupOf(lo, hi, maxOrders, maxLevels);
    SimStarts(d, p, size, tape);
    for i := 0 to |tape|
      invariant d.Valid() && SimOnTrack(d, p, size, tape[..i], bid, ask, o)
    {
      Prefix(p.room, tape, i + 1);
      assert tape[..i + 1][..i] == tape[..i];
      bid, ask, o := SimStep(d, p, size, tape[..i + 1], tape[i], bid, ask, o);
    }
    assert tape[..|tape|] == tape;
    o := o.(rejected := d.rejected);
  }

  ghost function SimOutcome(p: Setup, size: nat, tape: seq<BookEvent>): Outcome {
    Outcome(SimVolume(p, Buy, size, tape), SimVolume(p, Sell, size, tape), RejectionsAlong(p.room, tape))
  }

  lemma SimStarts(d: HybridBook, p: Setup, size: nat, tape: seq<BookEvent>)
    requires d.win == p.w && d.Capacity() == p.room && d.Holding() == NOTHING_HELD && d.Cached() == NO_HINTS
    requires d.rejected == 0
    ensures SimOnTrack(d, p, size, tape[..0], NO_QUOTE, NO_QUOTE, Outcome(0, 0, 0))
  {
  }

  // ---- against the naive market maker ----

  /** The maker's extra lookups before each event leave both books with the same cached ticks. */
  lemma {:induction false} SameHints(p: Setup, tape: seq<BookEvent>)
    requires AcceptableTo(p.room, tape)
    ensures SimHints(p, tape) == TapeHints(p, tape)
    ensures var l := HeldAlong(p.room, tape).ledger; HintsRead(p.w, TapeHints(p, tape), l) == TapeHints(p, tape)
  {
    hide HintsRead, HintsAfter, Taken, HeldAfter, Sound, Acceptable, AcceptableTo, After;
    if tape == [] {
      NothingToRead(p.w);
    } else {
      Shorter(p.room, tape);
      SameHints(p, tape[..|tape| - 1]);
      TakenLedger(p.room, HeldAlong(p.room, tape[..|tape| - 1]), tape[|tape| - 1]);
      var l, hs := HeldAlong(p.room, tape[..|tape| - 1]).ledger, TapeHints(p, tape[..|tape| - 1]);
      ReadTwice(p.w, HintsAfter(p.w, PerLevel, hs, l, LastTaken(p, tape)), HeldAlong(p.room, tape).ledger);
    }
  }

  lemma NothingToRead(w: Window)
    ensures HintsRead(w, NO_HINTS, START) == NO_HINTS
  {
    assert GridPrices(w, Prices(START.live, Buy)) == {} == GridPrices(w, Prices(START.live, Sell));
  }

  lemma SameTouch(p: Setup, tape: seq<BookEvent>)
    requires AcceptableTo(p.room, tape) && tape != []
    ensures SimTouch(p, tape) == LastTick(p, tape).after
  {
    hide HintsRead, HintsAfter, Taken, HeldAfter, Sound, Acceptable, AcceptableTo, After, TouchAt;
    Shorter(p.room, tape);
    SameHints(p, tape[..|tape| - 1]);
    TakenLedger(p.room, HeldAlong(p.room, tape[..|tape| - 1]), tape[|tape| - 1]);
  }

  function Bare(d: Desk): BareQuote {
    BareQuote(d.q.active, d.q.px, d.q.remaining)
  }

  /** The execution goes through the quote and takes some of it. */
  predicate Sweeps(d: Desk, side: Side, named: seq<Resting>, e: BookEvent) {
    && named != [] && e.kind.Execute? && d.q.active && named[0].side == side && Better(side, d.q.px, named[0].px)
    && Min(e.shares, d.q.remaining) > 0
  }

  /** On any other event the two rules do the same to a quote; on this one only the maker fills it. */
  lemma HitOrSwept(c: Config, d: Desk, side: Side, named: seq<Resting>, e: BookEvent)
    requires c.model.Naive? && Settled(d, c.size)
    ensures var (d', fills) := Met(c, d, side, named, e); var (q, f) := Hit(Bare(d), side, named, e);
      if Sweeps(d, side, named, e) then f == 0 < Volume(fills) else q == Bare(d') && f == Volume(fills)
    ensures Settled(Met(c, d, side, named, e).0, c.size)
  {
    hide Volume;
    if named != [] {
      var f := Min(e.shares, d.q.remaining);
      FillVolume(d, e, side, f, true);
      FillVolume(d, e, side, f, false);
      StepTakes(c, d, side, named[0], e);
    }
    EmptyVolume();
  }

  /** The maker's desk before the last event. */
  ghost function DeskBefore(p: Setup, c: Config, side: Side, tape: seq<BookEvent>): Desk
    requires tape != []
  {
    DeskAfter(c, side, TapeTicks(p, tape[..|tape| - 1]))
  }

  /** The last event sweeps the naive maker's quote. */
  ghost predicate LastSweeps(p: Setup, c: Config, side: Side, tape: seq<BookEvent>)
    requires tape != []
  {
    Sweeps(DeskBefore(p, c, side, tape), side, Recalled(HeldAlong(p.room, tape[..|tape| - 1]), tape[|tape| - 1]),
      tape[|tape| - 1])
  }

  ghost function MakerVolume(p: Setup, c: Config, side: Side, tape: seq<BookEvent>): nat {
    Volume(FillsAfter(c, side, TapeTicks(p, tape)))
  }

  lemma DeskSettled(p: Setup, c: Config, side: Side, tape: seq<BookEvent>)
    requires c.latency == 0
    ensures Settled(DeskAfter(c, side, TapeTicks(p, tape)), c.size)
  {
    hide Settled, DeskAfter, FillsAfter, Volume, TapeTicks;
    RunDominates(c, side, TapeTicks(p, tape));
  }

  /** From equal quotes the last event leads to equal quotes and fills, unless it sweeps: then the maker fills
      shares that the pass does not. */
  lemma LastAgrees(p: Setup, c: Config, side: Side, tape: seq<BookEvent>)
    requires c.model.Naive? && c.latency == 0 && p.policy == ALWAYS && AcceptableTo(p.room, tape) && tape != []
    requires SimQuote(p, side, c.size, tape[..|tape| - 1]) == Bare(DeskBefore(p, c, side, tape))
    ensures var before := tape[..|tape| - 1];
      var maker := MakerVolume(p, c, side, tape) - MakerVolume(p, c, side, before);
      var pass := LastHit(p, side, c.size, tape).1;
      if LastSweeps(p, c, side, tape) then pass == 0 < maker
      else pass == maker && SimQuote(p, side, c.size, tape) == Bare(DeskAfter(c, side, TapeTicks(p, tape)))
  {
    hide AcceptableTo, Sound, Acceptable, Recalled, Met, Hit, Sweeps, Settled, Volume, FillsAfter, TapeTicks, SimTouch,
      LastTick, Taken, HeldAlong, After, Traded, Opening, Closing, TwoSided, HeldAfter, DeskAfter;
    var before, e := tape[..|tape| - 1], tape[|tape| - 1];
    Shorter(p.room, tape);
    DeskSettled(p, c, side, before);
    RunOneMore(c, side, p, tape);
    SameTouch(p, tape);
    LastTickIs(p, tape);
    AlwaysBoth(p, before);
    var h, d, k := HeldAlong(p.room, before), DeskBefore(p, c, side, tape), LastTick(p, tape);
    OpeningSettled(c, d, side, h.ledger, k);
    MetIsTraded(c, d, side, p.room, h, k, e);
    var named := Recalled(h, e);
    HitOrSwept(c, d, side, named, e);
    var d2 := Met(c, d, side, named, e).0;
    ClosingJoins(c, d2, side, After(h.ledger, k.e), k);
  }

  ghost predicate SameTo(p: Setup, c: Config, side: Side, tape: seq<BookEvent>, k: nat)
    requires k <= |tape|
  {
    SimVolume(p, side, c.size, tape[..k]) == MakerVolume(p, c, side, tape[..k])
  }

  ghost predicate SweptBy(p: Setup, c: Config, side: Side, tape: seq<BookEvent>, k: nat)
    requires k < |tape|
  {
    LastSweeps(p, c, side, tape[..k + 1])
  }

  ghost predicate QuoteSameTo(p: Setup, c: Config, side: Side, tape: seq<BookEvent>, k: nat)
    requires k <= |tape|
  {
    SimQuote(p, side, c.size, tape[..k]) == Bare(DeskAfter(c, side, TapeTicks(p, tape[..k])))
  }

  lemma AgreeStep(p: Setup, c: Config, side: Side, tape: seq<BookEvent>, k: nat)
    requires c.model.Naive? && c.latency == 0 && p.policy == ALWAYS && AcceptableTo(p.room, tape) && k < |tape|
    requires QuoteSameTo(p, c, side, tape, k) && SameTo(p, c, side, tape, k)
    ensures SameTo(p, c, side, tape, k + 1) <==> !SweptBy(p, c, side, tape, k)
    ensures !SweptBy(p, c, side, tape, k) ==> QuoteSameTo(p, c, side, tape, k + 1)
  {
    hide AcceptableTo, LastSweeps, LastHit, MakerVolume, SimQuote, SimVolume, DeskAfter, TapeTicks;
    Prefix(p.room, tape, k + 1);
    assert tape[..k + 1][..k] == tape[..k];
    LastAgrees(p, c, side, tape[..k + 1]);
    SimOneMore(p, c, side, tape[..k + 1]);
  }

  /** The two naive rules report the same shares at every point of a tape if and only if no execution sweeps the
      maker's quote. */
  lemma {:induction false} PassesAgree(p: Setup, c: Config, side: Side, tape: seq<BookEvent>, upTo: nat)
    requires c.model.Naive? && c.latency == 0 && p.policy == ALWAYS && AcceptableTo(p.room, tape) && upTo <= |tape|
    ensures (forall k :: 0 <= k <= upTo ==> SameTo(p, c, side, tape, k)) <==>
      (forall k :: 0 <= k < upTo ==> !SweptBy(p, c, side, tape, k))
    ensures (forall k :: 0 <= k < upTo ==> !SweptBy(p, c, side, tape, k)) ==> QuoteSameTo(p, c, side, tape, upTo)
  {
    hide AcceptableTo, SweptBy, SameTo, QuoteSameTo;
    if upTo == 0 {
      NoneYet(p, c, side, tape);
    } else {
      PassesAgree(p, c, side, tape, upTo - 1);
      if forall k :: 0 <= k < upTo - 1 ==> !SweptBy(p, c, side, tape, k) {
        assert SameTo(p, c, side, tape, upTo - 1);
        AgreeStep(p, c, side, tape, upTo - 1);
      }
    }
  }

  lemma SimOneMore(p: Setup, c: Config, side: Side, tape: seq<BookEvent>)
    requires tape != []
    ensures var q, t := LastHit(p, side, c.size, tape).0, SimTouch(p, tape);
      SimQuote(p, side, c.size, tape) == if TwoSided(t) then Requoted(q, At(t, side), c.size) else q
    ensures SimVolume(p, side, c.size, tape) ==
      SimVolume(p, side, c.size, tape[..|tape| - 1]) + LastHit(p, side, c.size, tape).1
  {
  }

  lemma NoneYet(p: Setup, c: Config, side: Side, tape: seq<BookEvent>)
    ensures QuoteSameTo(p, c, side, tape, 0) && SameTo(p, c, side, tape, 0)
  {
    assert tape[..0] == [];
  }

  // ---- against either maker, sweeps counted ----

  /** A bare quote as a desk that knows no queue and never has a change in flight. */
  function AsDesk(q: BareQuote): Desk {
    Desk(IDLE.(active := q.active, px := q.px, remaining := q.remaining), AWAY)
  }

  /** Fills taken off the quote by executions through its price. */
  function SweptFills(fills: seq<Fill>): nat {
    if fills == [] then 0 else SweptFills(fills[..|fills| - 1]) + if fills[|fills| - 1].swept then 1 else 0
  }

  lemma {:induction false} SweptConcat(a: seq<Fill>, b: seq<Fill>)
    ensures SweptFills(a + b) == SweptFills(a) + SweptFills(b)
  {
    if b == [] {
      assert a + b == a;
    } else {
      SweptConcat(a, b[..|b| - 1]);
      assert (a + b)[..|a + b| - 1] == a + b[..|b| - 1];
    }
  }

  lemma SweptOne(d: Desk, e: BookEvent, side: Side, f: nat, swept: bool)
    ensures SweptFills(FillOf(d, e, side, f, swept)) == if f > 0 && swept then 1 else 0
  {
    assert f > 0 ==> FillOf(d, e, side, f, swept)[..0] == [];
  }

  lemma MetSwept(c: Config, d: Desk, side: Side, named: seq<Resting>, e: BookEvent)
    ensures SweptFills(Met(c, d, side, named, e).1) == if Sweeps(d, side, named, e) then 1 else 0
  {
    hide SweptFills, FillOf;
    var all, reached := Min(e.shares, d.q.remaining), Reached(d.pos, e.shares, d.q.remaining);
    SweptOne(d, e, side, all, true);
    SweptOne(d, e, side, all, false);
    SweptOne(d, e, side, reached, false);
    assert SweptFills([]) == 0 by {
      SweptOne(d, e, side, 0, false);
      NoFill(d, e, side);
    }
  }

  lemma NoFill(d: Desk, e: BookEvent, side: Side)
    ensures FillOf(d, e, side, 0, false) == []
  {
  }

  /** An event meets both quotes. A sweep of the maker's is made up for by one full quote. */
  lemma HitDominates(c: Config, q: BareQuote, v: nat, d: Desk, a: nat, side: Side, named: seq<Resting>, e: BookEvent)
    requires Dominates(AsDesk(q), v, d, a, c.size)
    ensures var (q', f) := Hit(q, side, named, e); var (d', fills) := Met(c, d, side, named, e);
      && Dominates(AsDesk(q'), v + f + (if Sweeps(d, side, named, e) then c.size else 0), d', a + Volume(fills), c.size)
      && Settled(AsDesk(q'), c.size) && Settled(d', c.size)
  {
    hide Volume, Quoting.Step;
    EmptyVolume();
    if named != [] {
      StepTakes(c, d, side, named[0], e);
    }
  }

  lemma RequoteMoves(q: BareQuote, decides: bool, target: nat, size: nat)
    requires Settled(AsDesk(q), size)
    ensures var q' := if decides then Requoted(q, target, size) else q;
      Settled(AsDesk(q'), size) && Moves(AsDesk(q), AsDesk(q'), decides, true, target, size)
  {
  }

  function Credit(size: nat, sweeps: nat): nat {
    size * sweeps
  }

  /** The pass, credited with a full quote for each sweep, is never behind the maker. */
  ghost predicate Abreast(p: Setup, c: Config, side: Side, tape: seq<BookEvent>) {
    var fills := FillsAfter(c, side, TapeTicks(p, tape));
    Dominates(AsDesk(SimQuote(p, side, c.size, tape)),
      SimVolume(p, side, c.size, tape) + Credit(c.size, SweptFills(fills)),
      DeskAfter(c, side, TapeTicks(p, tape)), Volume(fills), c.size)
  }

  lemma AbreastStep(p: Setup, c: Config, side: Side, tape: seq<BookEvent>)
    requires c.latency == 0 && p.policy == ALWAYS && AcceptableTo(p.room, tape) && tape != []
    requires Abreast(p, c, side, tape[..|tape| - 1])
    ensures Abreast(p, c, side, tape)
  {
    hide AcceptableTo, Sound, Acceptable, Recalled, Met, Hit, Sweeps, Settled, Volume, FillsAfter, TapeTicks, SimTouch,
      LastTick, Taken, HeldAlong, After, Traded, Opening, Closing, TwoSided, HeldAfter, DeskAfter, SweptFills, Requoted,
      AsDesk, Moves, AllowedAfter, Credit, Dominates, SimVolume, SimQuote, TapeHints;
    SimOneMore(p, c, side, tape);
    var before, e := tape[..|tape| - 1], tape[|tape| - 1];
    Shorter(p.room, tape);
    DeskSettled(p, c, side, before);
    RunOneMore(c, side, p, tape);
    SameTouch(p, tape);
    LastTickIs(p, tape);
    AlwaysBoth(p, before);
    var h, d, k := HeldAlong(p.room, before), DeskBefore(p, c, side, tape), LastTick(p, tape);
    var q, named := SimQuote(p, side, c.size, before), Recalled(h, e);
    OpeningSettled(c, d, side, h.ledger, k);
    MetIsTraded(c, d, side, p.room, h, k, e);
    var fills := FillsAfter(c, side, TapeTicks(p, before));
    var v := SimVolume(p, side, c.size, before) + Credit(c.size, SweptFills(fills));
    HitDominates(c, q, v, d, Volume(fills), side, named, e);
    var (q2, f) := Hit(q, side, named, e);
    var (d2, more) := Met(c, d, side, named, e);
    MetSwept(c, d, side, named, e);
    SweptConcat(fills, more);
    ClosingJoins(c, d2, side, After(h.ledger, k.e), k);
    RequoteMoves(q2, TwoSided(k.after), At(k.after, side), c.size);
    JoinDominates(AsDesk(q2), v + f + (if Sweeps(d, side, named, e) then c.size else 0), d2,
      Volume(fills) + Volume(more), AsDesk(SimQuote(p, side, c.size, tape)), DeskAfter(c, side, TapeTicks(p, tape)),
      TwoSided(k.after), true, At(k.after, side), c.size);
    OneMoreSweep(c.size, SweptFills(fills));
  }

  lemma OneMoreSweep(size: nat, n: nat)
    ensures Credit(size, n + 1) == Credit(size, n) + size
  {
  }

  lemma {:induction false} AlwaysAbreast(p: Setup, c: Config, side: Side, tape: seq<BookEvent>)
    requires c.latency == 0 && p.policy == ALWAYS && AcceptableTo(p.room, tape)
    ensures Abreast(p, c, side, tape)
  {
    hide Abreast, AcceptableTo;
    if tape == [] {
      StartsAbreast(p, c, side);
    } else {
      Shorter(p.room, tape);
      AlwaysAbreast(p, c, side, tape[..|tape| - 1]);
      AbreastStep(p, c, side, tape);
    }
  }

  lemma StartsAbreast(p: Setup, c: Config, side: Side)
    ensures Abreast(p, c, side, [])
  {
  }

  /** Without latency a maker of either model has reported no more shares of a side than the naive pass and a full
      quote for each of its fills that was swept. */
  lemma SweepBound(p: Setup, c: Config, side: Side, tape: seq<BookEvent>)
    requires c.latency == 0 && p.policy == ALWAYS && AcceptableTo(p.room, tape)
    ensures var fills := FillsAfter(c, side, TapeTicks(p, tape));
      Volume(fills) <= SimVolume(p, side, c.size, tape) + c.size * SweptFills(fills)
  {
    hide AcceptableTo, SimVolume, Volume, FillsAfter, TapeTicks, DeskAfter, SimQuote, SweptFills, AsDesk, Dominates;
    AlwaysAbreast(p, c, side, tape);
    var fills := FillsAfter(c, side, TapeTicks(p, tape));
    DominatesMeans(AsDesk(SimQuote(p, side, c.size, tape)),
      SimVolume(p, side, c.size, tape) + Credit(c.size, SweptFills(fills)), DeskAfter(c, side, TapeTicks(p, tape)),
      Volume(fills), c.size);
  }

  /** Both passes of the simulator. Without latency the queue-aware maker reports, of either side, at most what the
      naive pass does and a full quote for each of its swept fills; and no more than the pass where no execution sweeps
      the quote of a naive maker. */
  method Simulate(tape: seq<BookEvent>, lo: nat, hi: nat, size: nat, latency: nat, maxOrders: nat, maxLevels: nat,
                  hash: nat -> nat)
    returns (naive: Outcome, aware: Outcome)
    requires lo - lo % TICK <= hi && maxOrders > 0
    requires AcceptableTo(SetupOf(lo, hi, maxOrders, maxLevels).room, tape)
    ensures var p := SetupOf(lo, hi, maxOrders, maxLevels);
      naive == SimOutcome(p, size, tape) && aware == OutcomeOf(p, Config(size, latency, QueueAware), tape)
    ensures var p := SetupOf(lo, hi, maxOrders, maxLevels);
      var ks, c := TapeTicks(p, tape), Config(size, 0, QueueAware);
      latency == 0 ==>
        && aware.bought <= naive.bought + size * SweptFills(FillsAfter(c, Buy, ks))
        && aware.sold <= naive.sold + size * SweptFills(FillsAfter(c, Sell, ks))
    ensures var p, c := SetupOf(lo, hi, maxOrders, maxLevels), Config(size, 0, Naive);
      latency == 0 ==>
        && ((forall k :: 0 <= k < |tape| ==> !SweptBy(p, c, Buy, tape, k)) ==> aware.bought <= naive.bought)
        && ((forall k :: 0 <= k < |tape| ==> !SweptBy(p, c, Sell, tape, k)) ==> aware.sold <= naive.sold)
  {
    hide AcceptableTo, SweptBy, SimVolume, Volume, FillsAfter, TapeTicks, RejectionsAlong, SweptFills;
    aware := Run(tape, lo, hi, size, latency, QueueAware, ALWAYS, maxOrders, maxLevels, hash);
    naive := NaivePass(tape, lo, hi, size, maxOrders, maxLevels, hash);
    ghost var p, c := SetupOf(lo, hi, maxOrders, maxLevels), Config(size, 0, QueueAware);
    if latency == 0 {
      SweepBound(p, c, Buy, tape);
      SweepBound(p, c, Sell, tape);
      UnsweptDominates(p, size, Buy, tape);
      UnsweptDominates(p, size, Sell, tape);
    }
  }

  lemma UnsweptDominates(p: Setup, size: nat, side: Side, tape: seq<BookEvent>)
    requires AcceptableTo(p.room, tape) && p.policy == ALWAYS
    ensures (forall k :: 0 <= k < |tape| ==> !SweptBy(p, Config(size, 0, Naive), side, tape, k)) ==>
      Volume(FillsAfter(Config(size, 0, QueueAware), side, TapeTicks(p, tape))) <= SimVolume(p, side, size, tape)
  {
    hide AcceptableTo, SweptBy, SimVolume, Volume, FillsAfter, TapeTicks, DeskAfter, SimQuote, Allowed, QuoteSameTo;
    var c, ks := Config(size, 0, Naive), TapeTicks(p, tape);
    PassesAgree(p, c, side, tape, |tape|);
    assert tape[..|tape|] == tape;
    TicksFollowTape(p, tape);
    assert ks[..|ks|] == ks;
    NaiveOverstates(Config(size, 0, QueueAware), side, ks, |ks|);
    assert (forall k :: 0 <= k <= |tape| ==> SameTo(p, c, side, tape, k)) ==> SameTo(p, c, side, tape, |tape|);
  }

  // ---- a sweep ----

  // Bids at 1001 and 901, an ask at 1101, all off the window's ticks; then the lower bid is executed.

  const BID := BookEvent(0, 1, 0, 1001, 7, Add, Buy)
  const LOW_BID := BookEvent(0, 2, 0, 901, 7, Add, Buy)
  const ASK := BookEvent(0, 3, 0, 1101, 7, Add, Sell)
  const HIT_LOW := BookEvent(0, 2, 0, 0, 5, Execute, Buy)

  const SWEPT: seq<BookEvent> := [BID, LOW_BID, ASK, HIT_LOW]
  const ROOMY := Setup(Window(0, 64), Room(64, 64, 44), ALWAYS)

  const LOW := Resting(2, Buy, 901, 7, 2)
  const BOOK1 := Ledger([Resting(1, Buy, 1001, 7, 1)], 2)
  const BOOK2 := Ledger([Resting(1, Buy, 1001, 7, 1), LOW], 3)
  const BOOK3 := Ledger([Resting(1, Buy, 1001, 7, 1), LOW, Resting(3, Sell, 1101, 7, 3)], 4)

  /** An add while the quote is settled: nothing trades, and a two-sided market has the maker at its touch. */
  lemma AddStep(p: Setup, c: Config, side: Side, tape: seq<BookEvent>)
    requires c.latency == 0 && p.policy == ALWAYS && AcceptableTo(p.room, tape)
    requires tape != [] && LastTaken(p, tape).kind.Add?
    requires Settled(DeskBefore(p, c, side, tape), c.size)
    ensures var d, d' := DeskBefore(p, c, side, tape), DeskAfter(c, side, TapeTicks(p, tape));
      var t := LastTick(p, tape).after;
      && Settled(d', c.size) && MakerVolume(p, c, side, tape) == MakerVolume(p, c, side, tape[..|tape| - 1])
      && if TwoSided(t) && !(d.q.active && d.q.px == At(t, side))
         then d'.q.px == At(t, side) && d'.q.remaining == c.size && d'.q.active
         else d' == d
  {
    hide AcceptableTo, Volume, FillsAfter, TapeTicks, LastTick, LastTaken, HeldAlong, After, Opening, Closing, TwoSided,
      DeskAfter, Settled;
    EmptyVolume();
    RunOneMore(c, side, p, tape);
    LastTickIs(p, tape);
    AlwaysBoth(p, tape[..|tape| - 1]);
    var l, d, k := HeldAlong(p.room, tape[..|tape| - 1]).ledger, DeskBefore(p, c, side, tape), LastTick(p, tape);
    OpeningSettled(c, d, side, l, k);
    ClosingJoins(c, d, side, After(l, k.e), k);
  }

  lemma SweptSteps()
    ensures Acceptable(START, BID) && After(START, BID) == BOOK1 && Acceptable(BOOK1, LOW_BID)
    ensures After(BOOK1, LOW_BID) == BOOK2
    ensures Acceptable(BOOK2, ASK) && After(BOOK2, ASK) == BOOK3 && Acceptable(BOOK3, HIT_LOW)
    ensures Has(BOOK3.live, 2) && BOOK3.live[IndexOf(BOOK3.live, 2)] == LOW
  {
    assert BOOK1.live[1..] == [] && BOOK2.live[1..] == [LOW] && BOOK2.live[1..][1..] == [];
    assert BOOK3.live[1..][0] == LOW;
  }

  /** What the tape says up to each of its events. */
  lemma SweptTape()
    ensures AcceptableTape(START, SWEPT) && Replay(START, SWEPT[..0]) == START && Replay(START, SWEPT[..1]) == BOOK1
    ensures Replay(START, SWEPT[..2]) == BOOK2 && Replay(START, SWEPT[..3]) == BOOK3
  {
    SweptSteps();
    hide After, Acceptable;
    assert SWEPT[..1][..0] == SWEPT[..0] && SWEPT[..2][..1] == SWEPT[..1] && SWEPT[..3][..2] == SWEPT[..2];
  }

  /** The roomy book takes every event as it is. */
  lemma SweptTaken(k: nat)
    requires 0 < k <= 4
    ensures AcceptableTo(ROOMY.room, SWEPT[..k])
    ensures HeldAlong(ROOMY.room, SWEPT[..k]) == Known(Replay(START, SWEPT[..k]))
    ensures HeldAlong(ROOMY.room, SWEPT[..k - 1]) == Known(Replay(START, SWEPT[..k - 1]))
    ensures LastTaken(ROOMY, SWEPT[..k]) == SWEPT[k - 1]
  {
    hide HeldAlong, Rejections, Taken, Replay, Known, AcceptableTape, AcceptableTo, Acceptable, WellFormed, Has;
    SweptTape();
    SweptSteps();
    FrontTape(k);
    ShortTape(ROOMY.room, SWEPT[..k]);
    ShortTape(ROOMY.room, SWEPT[..k - 1]);
    assert SWEPT[..k][..k - 1] == SWEPT[..k - 1];
    AmpleRoom(ROOMY.room, Replay(START, SWEPT[..k - 1]), SWEPT[k - 1]);
    TakenAsIs(ROOMY.room, Replay(START, SWEPT[..k - 1]), SWEPT[k - 1]);
  }

  lemma FrontTape(k: nat)
    requires 0 < k <= 4 && AcceptableTape(START, SWEPT)
    ensures AcceptableTape(START, SWEPT[..k]) && AcceptableTape(START, SWEPT[..k - 1])
    ensures Acceptable(Replay(START, SWEPT[..k - 1]), SWEPT[k - 1])
  {
    hide Replay, Acceptable;
    assert forall j :: 0 <= j < k ==> SWEPT[..k][..j] == SWEPT[..j];
    assert forall j :: 0 <= j < k - 1 ==> SWEPT[..k - 1][..j] == SWEPT[..j];
  }

  /** Off the window's ticks nothing is cached, and every touch is the true one. */
  lemma OffWindow(l: Ledger)
    requires 0 !in Prices(l.live, Sell)
    requires forall px :: px in Prices(l.live, Buy) || px in Prices(l.live, Sell) ==> !InGrid(ROOMY.w, px)
    ensures HintsRead(ROOMY.w, NO_HINTS, l) == NO_HINTS
    ensures TrueBest(TouchAt(ROOMY.w, NO_HINTS, l).bid, l, Buy) && TrueBest(TouchAt(ROOMY.w, NO_HINTS, l).ask, l, Sell)
  {
    hide TrueBest;
    assert GridPrices(ROOMY.w, Prices(l.live, Buy)) == {} == GridPrices(ROOMY.w, Prices(l.live, Sell));
    ExactReports(ROOMY.w, NO_HINTS, l, Buy);
    ExactReports(ROOMY.w, NO_HINTS, l, Sell);
  }

  lemma SweptPrices()
    ensures Prices(START.live, Buy) == Prices(START.live, Sell) == Prices(BOOK1.live, Sell) ==
      Prices(BOOK2.live, Sell) == {}
    ensures Prices(BOOK1.live, Buy) == {1001} && Prices(BOOK2.live, Buy) == Prices(BOOK3.live, Buy) == {901, 1001}
    ensures Prices(BOOK3.live, Sell) == {1101}
  {
    assert BOOK1.live[0] in BOOK1.live && BOOK2.live[0] in BOOK2.live && LOW in BOOK2.live;
    assert BOOK3.live[0] in BOOK3.live && LOW in BOOK3.live && BOOK3.live[2] in BOOK3.live;
  }

  lemma SweptTouches()
    ensures forall l :: l in {START, BOOK1, BOOK2, BOOK3} ==> HintsRead(ROOMY.w, NO_HINTS, l) == NO_HINTS
    ensures TouchAt(ROOMY.w, NO_HINTS, BOOK1).ask == 0 && TouchAt(ROOMY.w, NO_HINTS, BOOK2).ask == 0
    ensures TouchAt(ROOMY.w, NO_HINTS, BOOK3) == Touch(1001, 1101)
  {
    hide TouchAt, HintsRead, Prices;
    SweptPrices();
    OffWindow(START);
    OffWindow(BOOK1);
    OffWindow(BOOK2);
    OffWindow(BOOK3);
  }

  lemma AddOffWindow(l: Ledger, e: BookEvent)
    requires e.kind.Add? && !InGrid(ROOMY.w, e.px)
    ensures HintsAfter(ROOMY.w, PerLevel, NO_HINTS, l, e) == NO_HINTS
  {
  }

  /** The maker reads no ticks on the way, and a two-sided touch after the third event only. */
  lemma SweptTicks()
    ensures LastTick(ROOMY, SWEPT[..1]).after.ask == 0 && LastTick(ROOMY, SWEPT[..2]).after.ask == 0
    ensures LastTick(ROOMY, SWEPT[..3]).after == Touch(1001, 1101)
  {
    hide TouchAt, HintsRead, HintsAfter, HeldAlong, After, LastTaken, Taken, Replay, AcceptableTo;
    SweptTape();
    SweptSteps();
    SweptTouches();
    SweptTaken(1);
    SweptTaken(2);
    SweptTaken(3);
    AddOffWindow(START, BID);
    AddOffWindow(BOOK1, LOW_BID);
    AddOffWindow(BOOK2, ASK);
    assert SWEPT[..0] == [] && SWEPT[..1][..0] == [] && SWEPT[..2][..1] == SWEPT[..1] && SWEPT[..3][..2] == SWEPT[..2];
    assert TapeHints(ROOMY, SWEPT[..1]) == NO_HINTS;
    assert TapeHints(ROOMY, SWEPT[..2]) == NO_HINTS;
  }

  /** After three events a maker of either model bids ten shares at 1001 and has filled none. */
  lemma SweptDesk(c: Config)
    requires c.latency == 0 && c.size == 10
    ensures var d := DeskAfter(c, Buy, TapeTicks(ROOMY, SWEPT[..3]));
      Settled(d, 10) && d.q.active && d.q.px == 1001 && d.q.remaining == 10
        && MakerVolume(ROOMY, c, Buy, SWEPT[..3]) == 0
  {
    hide DeskAfter, TapeTicks, LastTick, LastTaken, HeldAlong, FillsAfter, Volume, AcceptableTo;
    SweptTicks();
    SweptTaken(1);
    SweptTaken(2);
    SweptTaken(3);
    assert SWEPT[..0] == [] && SWEPT[..1][..0] == [] && SWEPT[..2][..1] == SWEPT[..1] && SWEPT[..3][..2] == SWEPT[..2];
    DeskStarts(c);
    AddStep(ROOMY, c, Buy, SWEPT[..1]);
    AddStep(ROOMY, c, Buy, SWEPT[..2]);
    AddStep(ROOMY, c, Buy, SWEPT[..3]);
  }

  lemma DeskStarts(c: Config)
    ensures DeskAfter(c, Buy, TapeTicks(ROOMY, [])) == START_DESK && MakerVolume(ROOMY, c, Buy, []) == 0
  {
  }

  /** Dominance fails for the simulator's own naive pass: the lower bid is executed, the queue-aware maker's quote
      above it is swept for five shares, and the pass has filled none. */
  lemma SweepOvertakes()
    ensures AcceptableTo(ROOMY.room, SWEPT)
    ensures OutcomeOf(ROOMY, Config(10, 0, QueueAware), SWEPT).bought == 5 && SimOutcome(ROOMY, 10, SWEPT).bought == 0
  {
    hide Volume, FillsAfter, TapeTicks, SimVolume, RejectionsAlong, AcceptableTo, HeldAlong, LastTaken, Replay;
    AwareSwept();
    PassMisses();
    SweptTaken(4);
    assert SWEPT[..4] == SWEPT;
  }

  lemma HitLow(c: Config, d: Desk, k: Tick)
    requires d.q.active && d.q.px == 1001 && d.q.remaining == 10 && k.e == HIT_LOW
    ensures Traded(c, d, Buy, BOOK3, k).1 == FillOf(d, HIT_LOW, Buy, 5, true)
  {
    hide IndexOf, Has, FillOf;
    SweptSteps();
  }

  lemma AwareSwept()
    ensures MakerVolume(ROOMY, Config(10, 0, QueueAware), Buy, SWEPT) == 5
  {
    hide DeskAfter, TapeTicks, LastTick, LastTaken, HeldAlong, FillsAfter, Volume, AcceptableTo, Closing, Opening,
      Replay, Traded, Named, Known, AllowedAfter, FillOf, Settled, After;
    var c := Config(10, 0, QueueAware);
    SweptDesk(c);
    SweptTaken(4);
    SweptTape();
    assert SWEPT[..4] == SWEPT && SWEPT[..|SWEPT| - 1] == SWEPT[..3];
    RunOneMore(c, Buy, ROOMY, SWEPT);
    LastTickIs(ROOMY, SWEPT);
    var d, k := DeskAfter(c, Buy, TapeTicks(ROOMY, SWEPT[..3])), LastTick(ROOMY, SWEPT);
    OpeningSettled(c, d, Buy, BOOK3, k);
    FillVolume(d, HIT_LOW, Buy, 5, true);
    HitLow(c, d, k);
    KnownLedger(BOOK3);
  }

  lemma KnownLedger(l: Ledger)
    ensures Known(l).ledger == l
  {
  }

  lemma PassMisses()
    ensures SimVolume(ROOMY, Buy, 10, SWEPT) == 0
  {
    hide DeskAfter, TapeTicks, LastTick, LastTaken, HeldAlong, FillsAfter, Volume, AcceptableTo, SimQuote, SimVolume,
      Replay, IndexOf, Has;
    var c := Config(10, 0, Naive);
    SweptDesk(c);
    SweptTaken(4);
    SweptTape();
    SweptSteps();
    RefsAre(BOOK3.live);
    assert SWEPT[..4] == SWEPT && SWEPT[..|SWEPT| - 1] == SWEPT[..3];
    forall k: nat | k < 3 ensures !SweptBy(ROOMY, c, Buy, SWEPT, k) {
      assert SWEPT[..k + 1][k] == SWEPT[k];
    }
    Prefix(ROOMY.room, SWEPT, 4);
    PassesAgree(ROOMY, c, Buy, SWEPT, 3);
    assert SameTo(ROOMY, c, Buy, SWEPT, 3);
    LastAgrees(ROOMY, c, Buy, SWEPT);
    SimOneMore(ROOMY, c, Buy, SWEPT);
  }
}
