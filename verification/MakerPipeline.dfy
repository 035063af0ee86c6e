/** The market maker as the stage of the pipeline. */
module MakerPipelines {
  import opened Ledgers
  import opened PriceGrid
  import opened CachedTicks
  import opened Refusals
  import opened HybridBooks
  import opened MarketMaking
  import opened StrategyEvaluation
  import Quoting
  import Pipelines
  import SpscRings

  /** What a maker's behaviour depends on: its book, the book's cached ticks, and its two desks. */
  datatype Maker = Maker(held: Held, hints: Hints, bid: Quoting.Desk, ask: Quoting.Desk)

  const START_MAKER := Maker(NOTHING_HELD, NO_HINTS, Quoting.START_DESK, Quoting.START_DESK)

  /** One event through the maker, quoting always allowed. */
  ghost function Stage(c: Quoting.Config, p: Setup, m: Maker, e: BookEvent): (Maker, seq<Quoting.Fill>) {
    var t := Taken(p.room, m.held, e);
    var k := TickAt(p.w, m.hints, m.held.ledger, t, true, true);
    var (b, bought) := Quoting.OnEvent(c, m.bid, Buy, m.held.ledger, k);
    var (a, sold) := Quoting.OnEvent(c, m.ask, Sell, m.held.ledger, k);
    (Maker(HeldAfter(p.room, m.held, e), HintsOver(p.w, m.hints, m.held.ledger, t), b, a), bought + sold)
  }

  ghost function StageOf(c: Quoting.Config, p: Setup): (Maker, BookEvent) -> (Maker, seq<Quoting.Fill>) {
    (m, e) => Stage(c, p, m, e)
  }

  /** The maker and its fills after the tape, on one thread. */
  ghost function Made(c: Quoting.Config, p: Setup, tape: seq<BookEvent>): (Maker, seq<Quoting.Fill>) {
    Pipelines.Serial(StageOf(c, p), START_MAKER, tape)
  }

  /** The stage keeps the book of the tape. */
  lemma {:induction false} MadeHeld(c: Quoting.Config, p: Setup, tape: seq<BookEvent>)
    ensures Made(c, p, tape).0.held == HeldAlong(p.room, tape)
  {
    hide Quoting.OnEvent, TickAt, HintsOver, HeldAfter, Taken;
    if tape != [] {
      MadeHeld(c, p, tape[..|tape| - 1]);
    }
  }

  /** The fills of one side, in order. */
  function OnSide(fills: seq<Quoting.Fill>, side: Side): seq<Quoting.Fill> {
    if fills == [] then []
    else OnSide(fills[..|fills| - 1], side) + if fills[|fills| - 1].side == side then [fills[|fills| - 1]] else []
  }

  lemma {:induction false} OnSideConcat(a: seq<Quoting.Fill>, b: seq<Quoting.Fill>, side: Side)
    ensures OnSide(a + b, side) == OnSide(a, side) + OnSide(b, side)
  {
    if b == [] {
      assert a + b == a;
    } else {
      OnSideConcat(a, b[..|b| - 1], side);
      assert (a + b)[..|a + b| - 1] == a + b[..|b| - 1];
    }
  }

  lemma {:induction false} OnSideOwn(fills: seq<Quoting.Fill>, own: Side, side: Side)
    requires forall i :: 0 <= i < |fills| ==> fills[i].side == own
    ensures OnSide(fills, side) == if side == own then fills else []
  {
    if fills != [] {
      OnSideOwn(fills[..|fills| - 1], own, side);
      assert fills[..|fills| - 1] + [fills[|fills| - 1]] == fills;
    }
  }

  lemma StageSides(c: Quoting.Config, b: Quoting.Desk, a: Quoting.Desk, l: Ledger, k: Quoting.Tick)
    ensures var fb, fa := Quoting.OnEvent(c, b, Buy, l, k).1, Quoting.OnEvent(c, a, Sell, l, k).1;
      OnSide(fb + fa, Buy) == fb && OnSide(fb + fa, Sell) == fa
  {
    hide Quoting.OnEvent;
    OnEventSide(c, b, Buy, l, k);
    OnEventSide(c, a, Sell, l, k);
    var fb, fa := Quoting.OnEvent(c, b, Buy, l, k).1, Quoting.OnEvent(c, a, Sell, l, k).1;
    OnSideConcat(fb, fa, Buy);
    OnSideConcat(fb, fa, Sell);
    OnSideOwn(fb, Buy, Buy);
    OnSideOwn(fb, Buy, Sell);
    OnSideOwn(fa, Sell, Buy);
    OnSideOwn(fa, Sell, Sell);
  }

  /** The stage is the market maker of the quoting rules: its fills are those the rules give either desk along the
      tape. */
  lemma {:induction false} MadeIsRules(c: Quoting.Config, p: Setup, tape: seq<BookEvent>)
    requires AcceptableTo(p.room, tape) && p.policy.mode.Always?
    ensures var (m, fills) := Made(c, p, tape); var ks := TapeTicks(p, tape);
      && m.hints == TapeHints(p, tape)
      && m.bid == Quoting.DeskAfter(c, Buy, ks) && m.ask == Quoting.DeskAfter(c, Sell, ks)
      && OnSide(fills, Buy) == Quoting.FillsAfter(c, Buy, ks) && OnSide(fills, Sell) == Quoting.FillsAfter(c, Sell, ks)
  {
    hide Quoting.OnEvent, TickAt, HintsOver, HeldAfter, Taken, AcceptableTo, Sound, Acceptable, AllowedAfter,
      Quoting.DeskAfter, Quoting.FillsAfter, TapeTicks, Quoting.Volume;
    if tape == [] {
      MadeNothing(c, p);
    } else {
      var before := tape[..|tape| - 1];
      Shorter(p.room, tape);
      MadeIsRules(c, p, before);
      MadeHeld(c, p, before);
      RunOneMore(c, Buy, p, tape);
      RunOneMore(c, Sell, p, tape);
      AlwaysBoth(p, before);
      var (m, fills) := Made(c, p, before);
      var k := LastTick(p, tape);
      StageSides(c, m.bid, m.ask, m.held.ledger, k);
      var more := Stage(c, p, m, tape[|tape| - 1]).1;
      OnSideConcat(fills, more, Buy);
      OnSideConcat(fills, more, Sell);
    }
  }

  lemma MadeNothing(c: Quoting.Config, p: Setup)
    ensures Made(c, p, []) == (START_MAKER, []) && TapeHints(p, []) == NO_HINTS
    ensures forall side :: Quoting.DeskAfter(c, side, TapeTicks(p, [])) == Quoting.START_DESK
    ensures forall side :: Quoting.FillsAfter(c, side, TapeTicks(p, [])) == []
  {
  }

  lemma MadeOneMore(c: Quoting.Config, p: Setup, tape: seq<BookEvent>, i: nat)
    requires i < |tape|
    ensures var (m, fills) := Made(c, p, tape[..i]); var (m', more) := Stage(c, p, m, tape[i]);
      Made(c, p, tape[..i + 1]) == (m', fills + more)
  {
    hide Stage;
    assert tape[..i + 1][..i] == tape[..i];
  }

  ghost predicate Stands(mm: MarketMaker, p: Setup, m: Maker)
    reads mm, mm.posBid, mm.posAsk, mm.book, mm.book.ids
  {
    && mm.book.win == p.w && mm.book.Capacity() == p.room
    && mm.book.Holding() == m.held && mm.Cached() == m.hints && mm.BidDesk() == m.bid && mm.AskDesk() == m.ask
  }

  method FeedAll<D>(feed: (D, Quoting.Fill) -> D, d: D, fills: seq<Quoting.Fill>) returns (d': D)
    ensures d' == Pipelines.Digest(feed, d, fills)
  {
    d' := d;
    for i := 0 to |fills|
      invariant d' == Pipelines.Digest(feed, d, fills[..i])
    {
      d' := feed(d', fills[i]);
      assert fills[..i + 1][..i] == fills[..i];
    }
    assert fills[..|fills|] == fills;
  }

  /** One event through the real maker and its book. */
  method Step<D>(mm: MarketMaker, ghost p: Setup, ghost m: Maker, e: BookEvent, feed: (D, Quoting.Fill) -> D, d: D)
    returns (d': D, n: nat)
    requires mm.Valid() && Stands(mm, p, m) && mm.allowBid && mm.allowAsk
    requires Acceptable(m.held.ledger, e)
    modifies mm`bid, mm`ask, mm.posBid, mm.posAsk, mm.book, mm.book.ids, mm.book.ids.slots
    ensures mm.Valid() && Stands(mm, p, Stage(mm.Conf(), p, m, e).0)
    ensures var fills := Stage(mm.Conf(), p, m, e).1; d' == Pipelines.Digest(feed, d, fills) && n == |fills|
  {
    hide MarketMaker.Valid, HybridBook.Cached, Quoting.OnEvent, TickAt, HintsOver, HeldAfter, Taken, Acceptable,
      Pipelines.Digest;
    var fills := mm.OnEvent(e);
    d' := FeedAll(feed, d, fills);
    n := |fills|;
  }

  /** `run_single`: the maker over its book, the fills digested as they come. */
  method RunSingle<D>(tape: seq<BookEvent>, lo: nat, hi: nat, size: nat, maxOrders: nat, maxLevels: nat,
                      hash: nat -> nat,
                      zero: D, feed: (D, Quoting.Fill) -> D) returns (digest: D, fills: nat)
    requires lo - lo % TICK <= hi && maxOrders > 0
    requires AcceptableTo(SetupOf(lo, hi, maxOrders, maxLevels).room, tape)
    ensures
      var made := Made(Quoting.Config(size, 0, Quoting.QueueAware), SetupOf(lo, hi, maxOrders, maxLevels), tape).1;
      digest == Pipelines.Digest(feed, zero, made) && fills == |made|
  {
    hide MarketMaker.Valid, HybridBook.Cached, Acceptable, Pipelines.Digest, Stage, Made, Stands, HeldAlong;
    var mm := new MarketMaker(lo, hi, size, 0, Quoting.QueueAware, maxOrders, maxLevels, hash);
    ghost var c, p := Quoting.Config(size, 0, Quoting.QueueAware), SetupOf(lo, hi, maxOrders, maxLevels);
    digest, fills := zero, 0;
    Begun(mm, c, p, tape, zero, feed);
    for i := 0 to |tape|
      invariant mm.Valid() && Stands(mm, p, Made(c, p, tape[..i]).0) && mm.allowBid && mm.allowAsk
      invariant digest == Pipelines.Digest(feed, zero, Made(c, p, tape[..i]).1) && fills == |Made(c, p, tape[..i]).1|
    {
      ghost var m, before := Made(c, p, tape[..i]).0, Made(c, p, tape[..i]).1;
      MadeHeld(c, p, tape[..i]);
      MadeOneMore(c, p, tape, i);
      var n;
      digest, n := Step(mm, p, m, tape[i], feed, digest);
      fills := fills + n;
      Pipelines.DigestConcat(feed, zero, before, Stage(c, p, m, tape[i]).1);
    }
    assert tape[..|tape|] == tape;
  }

  lemma Begun<D>(mm: MarketMaker, c: Quoting.Config, p: Setup, tape: seq<BookEvent>, zero: D,
                 feed: (D, Quoting.Fill) -> D)
    requires mm.BidDesk() == mm.AskDesk() == Quoting.START_DESK && mm.book.Holding() == NOTHING_HELD
    requires mm.Cached() == NO_HINTS
    requires mm.book.win == p.w && mm.book.Capacity() == p.room
    ensures Stands(mm, p, Made(c, p, tape[..0]).0) && Made(c, p, tape[..0]).1 == []
    ensures Pipelines.Digest(feed, zero, []) == zero
  {
  }

  /** The three-thread run of the same maker on the same tape. */
  ghost function Pipelined<D>(tape: seq<BookEvent>, c: Quoting.Config, p: Setup, zero: D, feed: (D, Quoting.Fill) -> D,
                              ring: SpscRings.Config, blankEvent: BookEvent, blankFill: Quoting.Fill)
    : Pipelines.Program<Maker, BookEvent, Quoting.Fill, D>
  {
    Pipelines.Program(tape, START_MAKER, StageOf(c, p), zero, feed, ring, blankEvent, blankFill)
  }

  /** Whatever the interleaving, the gateway digests a prefix of the fills of the single-threaded maker, and when
      it has seen the end marker digest and count are those `RunSingle` returns. */
  lemma PipelinedIsSingle<D>(tape: seq<BookEvent>, c: Quoting.Config, p: Setup, zero: D, feed: (D, Quoting.Fill) -> D,
                             ring: SpscRings.Config, blankEvent: BookEvent, blankFill: Quoting.Fill,
                             moves: seq<Pipelines.Move>)
    requires ring.capacity >= 2 && ring.ordering == SpscRings.AcqRel
    ensures var q := Pipelined(tape, c, p, zero, feed, ring, blankEvent, blankFill);
      var st := Pipelines.Schedule(q, Pipelines.Launch(q), moves); var made := Made(c, p, tape).1;
      && st.out <= made && st.digest == Pipelines.Digest(feed, zero, st.out) && st.fills == |st.out|
      && (st.closed ==> st.digest == Pipelines.Digest(feed, zero, made) && st.fills == |made|)
  {
    hide Pipelines.Schedule, Pipelines.Launch, Pipelines.Digest;
    Pipelines.GatewayIsSerial(Pipelined(tape, c, p, zero, feed, ring, blankEvent, blankFill), moves);
  }
}
