/** The aggregate grid design: totals and order counts per tick, a bitmap over the ticks, a map for every
    other price, and the open-addressing id table. */
module FlatBooks {
  import opened Ledgers
  import opened Ranking
  import opened Bitmap
  import opened PriceGrid
  import opened CachedTicks
  import opened OpenHash
  import opened MapBooks

  datatype Grid = Grid(qty: seq<nat>, cnt: seq<nat>, bits: seq<Word>, hint: int)

  /** `deposit` with delta +1 inside the window. */
  function GridPlus(g: Grid, side: Side, t: nat, qty: nat): Grid
    requires t < |g.qty| && t < |g.cnt| && t / 64 < |g.bits|
  {
    Grid(g.qty[t := g.qty[t] + qty], g.cnt[t := g.cnt[t] + 1],
         if g.cnt[t] == 0 then SetBit(g.bits, t) else g.bits, HintAfterAdd(side, g.hint, t))
  }

  /** `deposit` with delta -1 inside the window. */
  function GridMinus(g: Grid, t: nat, qty: nat): Grid
    requires t < |g.qty| && t < |g.cnt| && t / 64 < |g.bits| && g.qty[t] >= qty && g.cnt[t] >= 1
  {
    var g' := Grid(g.qty[t := g.qty[t] - qty], g.cnt[t := g.cnt[t] - 1], g.bits, g.hint);
    if g'.cnt[t] > 0 then g' else g'.(bits := ClearBit(g.bits, t), hint := HintAfterDrop(g.hint, t))
  }

  function GridShrunk(g: Grid, t: nat, take: nat): Grid
    requires t < |g.qty| && g.qty[t] >= take
  {
    g.(qty := g.qty[t := g.qty[t] - take])
  }

  ghost predicate TickAt(w: Window, g: Grid, live: seq<Resting>, side: Side, t: nat)
    requires |g.qty| == |g.cnt| == w.ticks && |g.bits| == Words(w) && t < w.ticks
  {
    && g.qty[t] == Shares(live, side, PriceOf(w, t))
    && g.cnt[t] == Orders(live, side, PriceOf(w, t))
    && (Test(g.bits, t) <==> g.cnt[t] > 0)
  }

  ghost predicate FlatOver(w: Window, m: map<nat, Agg>, live: seq<Resting>, side: Side, px: nat) {
    if InGrid(w, px) then px !in m else AggregateAt(m, live, side, px)
  }

  /** Grid and overflow map of one side hold exactly its levels; a bit is set iff its count is positive. */
  ghost predicate FlatSide(w: Window, g: Grid, m: map<nat, Agg>, live: seq<Resting>, side: Side) {
    && |g.qty| == |g.cnt| == w.ticks && |g.bits| == Words(w)
    && (forall t: nat :: t < w.ticks ==> TickAt(w, g, live, side, t))
    && (forall t: nat :: w.ticks <= t && t / 64 < |g.bits| ==> !Test(g.bits, t))
    && (forall px :: FlatOver(w, m, live, side, px))
    && HintLive(w, Prices(live, side), g.hint)
  }

  lemma FlatIndexed(w: Window, g: Grid, m: map<nat, Agg>, live: seq<Resting>, side: Side)
    requires Aligned(w) && FlatSide(w, g, m, live, side)
    ensures Indexed(w, g.bits, m.Keys, Prices(live, side))
  {
    PricesLive(live, side);
    forall t: nat | t / 64 < |g.bits| ensures Test(g.bits, t) <==> t < w.ticks && PriceOf(w, t) in Prices(live, side) {
      if t < w.ticks {
        assert TickAt(w, g, live, side, t);
      }
    }
    forall px ensures px in m.Keys <==> px in Prices(live, side) && !InGrid(w, px) {
      assert FlatOver(w, m, live, side, px);
    }
  }

  /** A side on which nothing changed keeps its tables. */
  lemma FlatElsewhere(w: Window, g: Grid, m: map<nat, Agg>, live: seq<Resting>, live': seq<Resting>, side: Side)
    requires FlatSide(w, g, m, live, side)
    requires forall px ::
               Shares(live', side, px) == Shares(live, side, px) && Orders(live', side, px) == Orders(live, side, px)
    ensures FlatSide(w, g, m, live', side)
  {
    PricesLive(live, side);
    PricesLive(live', side);
    assert Prices(live', side) == Prices(live, side);
    forall t: nat | t < w.ticks ensures TickAt(w, g, live', side, t) {
      assert TickAt(w, g, live, side, t);
    }
    forall px ensures FlatOver(w, m, live', side, px) {
      assert FlatOver(w, m, live, side, px);
    }
  }

  /** `deposit` of an arriving order. */
  lemma FlatArrives(w: Window, g: Grid, m: map<nat, Agg>, live: seq<Resting>, x: Resting)
    requires Aligned(w) && FlatSide(w, g, m, live, x.side)
    ensures InGrid(w, x.px) ==> TickOf(w, x.px) < w.ticks == |g.qty| == |g.cnt| && TickOf(w, x.px) / 64 < |g.bits|
    ensures FlatSide(w, if InGrid(w, x.px) then GridPlus(g, x.side, TickOf(w, x.px), x.qty) else g,
                     if InGrid(w, x.px) then m else Deposited(m, x.px, x.qty), live + [x], x.side)
  {
    if InGrid(w, x.px) {
      TickOfPrice(w, x.px);
    }
    var side, live' := x.side, live + [x];
    var g' := if InGrid(w, x.px) then GridPlus(g, side, TickOf(w, x.px), x.qty) else g;
    var m' := if InGrid(w, x.px) then m else Deposited(m, x.px, x.qty);
    forall t: nat | t < w.ticks ensures TickAt(w, g', live', side, t) {
      assert TickAt(w, g, live, side, t);
      LevelAppend(live, x, side, PriceOf(w, t));
      PriceOfTick(w, t);
    }
    forall px ensures FlatOver(w, m', live', side, px) {
      assert FlatOver(w, m, live, side, px);
      LevelAppend(live, x, side, px);
      LevelEmpty(live, side, px);
    }
    PricesAppend(live, x, side);
    if InGrid(w, x.px) {
      HintAddExactly(side, w, Prices(live, side), g.hint, TickOf(w, x.px));
    }
  }

  /** `deposit` of a departing order. */
  lemma FlatDeparts(w: Window, g: Grid, m: map<nat, Agg>, live: seq<Resting>, i: nat)
    requires Aligned(w) && i < |live| && FlatSide(w, g, m, live, live[i].side)
    ensures var x := live[i];
            if InGrid(w, x.px) then
              TickOf(w, x.px) < w.ticks == |g.qty| == |g.cnt| && TickOf(w, x.px) / 64 < |g.bits|
              && g.qty[TickOf(w, x.px)] >= x.qty && g.cnt[TickOf(w, x.px)] == Orders(live, x.side, x.px) >= 1
              && FlatSide(w, GridMinus(g, TickOf(w, x.px), x.qty), m, RemoveAt(live, i), x.side)
            else
              x.px in m && m[x.px].qty >= x.qty && m[x.px].orders >= 1
              && FlatSide(w, g, Withdrawn(m, x.px, x.qty), RemoveAt(live, i), x.side)
  {
    var x := live[i];
    var side, live' := x.side, RemoveAt(live, i);
    LevelOfMember(live, i);
    assert FlatOver(w, m, live, side, x.px);
    if InGrid(w, x.px) {
      TickOfPrice(w, x.px);
      assert TickAt(w, g, live, side, TickOf(w, x.px));
    }
    var g' := if InGrid(w, x.px) then GridMinus(g, TickOf(w, x.px), x.qty) else g;
    var m' := if InGrid(w, x.px) then m else Withdrawn(m, x.px, x.qty);
    forall t: nat | t < w.ticks ensures TickAt(w, g', live', side, t) {
      assert TickAt(w, g, live, side, t);
      LevelRemove(live, i, side, PriceOf(w, t));
      PriceOfTick(w, t);
    }
    forall px ensures FlatOver(w, m', live', side, px) {
      assert FlatOver(w, m, live, side, px);
      LevelRemove(live, i, side, px);
    }
    PricesRemove(live, i, side);
    if InGrid(w, x.px) {
      HintDropKeeps(side, w, Prices(live, side), g.hint, TickOf(w, x.px));
    }
  }

  /** A partial fill or cancel. */
  lemma FlatShrinks(w: Window, g: Grid, m: map<nat, Agg>, live: seq<Resting>, i: nat, take: nat)
    requires Aligned(w) && i < |live| && FlatSide(w, g, m, live, live[i].side) && take < live[i].qty
    ensures var x := live[i];
            var live' := live[i := x.(qty := x.qty - take)];
            if InGrid(w, x.px) then
              TickOf(w, x.px) < w.ticks == |g.qty| && g.qty[TickOf(w, x.px)] >= take
              && FlatSide(w, GridShrunk(g, TickOf(w, x.px), take), m, live', x.side)
            else
              x.px in m && m[x.px].qty >= take && FlatSide(w, g, Shrunk(m, x.px, take), live', x.side)
  {
    var x := live[i];
    var side, live' := x.side, live[i := x.(qty := x.qty - take)];
    LevelOfMember(live, i);
    assert FlatOver(w, m, live, side, x.px);
    if InGrid(w, x.px) {
      TickOfPrice(w, x.px);
      assert TickAt(w, g, live, side, TickOf(w, x.px));
    }
    var g' := if InGrid(w, x.px) then GridShrunk(g, TickOf(w, x.px), take) else g;
    var m' := if InGrid(w, x.px) then m else Shrunk(m, x.px, take);
    forall t: nat | t < w.ticks ensures TickAt(w, g', live', side, t) {
      assert TickAt(w, g, live, side, t);
      LevelResize(live, i, x.qty - take, side, PriceOf(w, t));
      PriceOfTick(w, t);
    }
    forall px ensures FlatOver(w, m', live', side, px) {
      assert FlatOver(w, m, live, side, px);
      LevelResize(live, i, x.qty - take, side, px);
    }
    PricesResize(live, i, x.qty - take, side);
  }

  ghost predicate FlatSides(w: Window, grids: seq<Grid>, over: seq<map<nat, Agg>>, live: seq<Resting>) {
    && |grids| == |over| == 2
    && FlatSide(w, grids[0], over[0], live, Buy)
    && FlatSide(w, grids[1], over[1], live, Sell)
  }

  lemma FlatOpposite(w: Window, grids: seq<Grid>, over: seq<map<nat, Agg>>, live: seq<Resting>, live': seq<Resting>,
                     side: Side)
    requires FlatSides(w, grids, over, live)
    requires forall px :: Shares(live', Opposite(side), px) == Shares(live, Opposite(side), px)
                       && Orders(live', Opposite(side), px) == Orders(live, Opposite(side), px)
    ensures FlatSide(w, grids[1 - Index(side)], over[1 - Index(side)], live', Opposite(side))
  {
    hide FlatSide;
    FlatElsewhere(w, grids[1 - Index(side)], over[1 - Index(side)], live, live', Opposite(side));
  }

  function EmptyGrid(w: Window): Grid {
    Grid(seq(w.ticks, _ => 0), seq(w.ticks, _ => 0), seq((w.ticks + 63) / 64, _ => ZERO), UNKNOWN)
  }

  lemma EmptySides(w: Window)
    ensures FlatSides(w, [EmptyGrid(w), EmptyGrid(w)], [map[], map[]], START.live)
  {
  }

  class FlatBook {
    const win: Window
    const ids: OpenHashMap<Rec>
    var grids: seq<Grid>
    var over: seq<map<nat, Agg>>
    var rejected: nat
    ghost var ledger: Ledger

    ghost predicate Valid()
      reads this, ids, ids.slots
    {
      && Aligned(win)
      && ids.Valid() && Records(ids.Contents, ledger.live)
      && WellFormed(ledger)
      && FlatSides(win, grids, over, ledger.live)
    }

    ghost function Cached(): Hints
      reads this
    {
      FlatHints(grids)
    }

    /** The id table has no entry left for the order that the event adds. */
    ghost predicate Refuses(e: BookEvent)
      reads this, ids
    {
      e.kind.Add? && e.shares > 0 && |ids.Contents| + 1 > ids.Limit()
    }

    constructor (lo: nat, hi: nat, maxOrders: nat, hash: nat -> nat)
      requires lo - lo % TICK <= hi && maxOrders > 0
      ensures Valid() && ledger == START && rejected == 0 && fresh(ids) && fresh(ids.slots)
      ensures win == WindowOf(lo, hi) && ids.slots.Length == maxOrders && Cached() == NO_HINTS
    {
      hide FlatSides, TableOk;
      win := WindowOf(lo, hi);
      ids := new OpenHashMap(maxOrders, hash, Rec(0, 0, Buy));
      var empty := EmptyGrid(WindowOf(lo, hi));
      grids, over := [empty, empty], [map[], map[]];
      EmptySides(WindowOf(lo, hi));
      rejected, ledger := 0, START;
    }

    /** `deposit` with delta +1. */
    method Arrive(ghost x: Resting, side: Side, px: nat, qty: nat)
      requires Aligned(win) && FlatSides(win, grids, over, ledger.live)
      requires x.side == side && x.px == px && x.qty == qty
      modifies `grids, `over
      ensures FlatSides(win, grids, over, ledger.live + [x]) && Cached() == Entered(win, old(Cached()), side, px)
    {
      hide FlatSide;
      var s := Index(side);
      FlatArrives(win, grids[s], over[s], ledger.live, x);
      forall p { LevelAppend(ledger.live, x, Opposite(side), p); }
      FlatOpposite(win, grids, over, ledger.live, ledger.live + [x], side);
      if InGrid(win, px) {
        grids := grids[s := GridPlus(grids[s], side, TickOf(win, px), qty)];
      } else {
        over := over[s := Deposited(over[s], px, qty)];
      }
    }

    /** `deposit` with delta -1. */
    method Depart(ghost i: nat, side: Side, px: nat, qty: nat)
      requires Aligned(win) && FlatSides(win, grids, over, ledger.live)
      requires i < |ledger.live| && ledger.live[i].side == side && ledger.live[i].px == px && ledger.live[i].qty == qty
      modifies `grids, `over
      ensures FlatSides(win, grids, over, RemoveAt(ledger.live, i))
      ensures Cached() == if Orders(RemoveAt(ledger.live, i), side, px) > 0 then old(Cached())
        else Vacated(win, old(Cached()), side, px)
    {
      hide FlatSide, Orders;
      var s := Index(side);
      LevelRemove(ledger.live, i, side, px);
      FlatDeparts(win, grids[s], over[s], ledger.live, i);
      forall p { LevelRemove(ledger.live, i, Opposite(side), p); }
      FlatOpposite(win, grids, over, ledger.live, RemoveAt(ledger.live, i), side);
      if InGrid(win, px) {
        grids := grids[s := GridMinus(grids[s], TickOf(win, px), qty)];
      } else {
        over := over[s := Withdrawn(over[s], px, qty)];
      }
    }

    /** A table that refuses the order leaves the book as it was. */
    method Add(ref: nat, side: Side, px: nat, qty: nat)
      requires Valid() && ref != 0 && !Has(ledger.live, ref)
      modifies this, ids, ids.slots
      ensures Valid()
      ensures var refused := qty > 0 && |old(ids.Contents)| + 1 > ids.Limit();
              ledger == (if refused then old(ledger) else Enlist(old(ledger), ref, side, px, qty))
              && rejected == old(rejected) + (if refused then 1 else 0)
              && Cached() == if qty == 0 || refused then old(Cached())
                             else HintsEnter(win, PerOrder, old(Cached()), old(ledger).live, side, px)
    {
      hide Distinct, Stamped, Records, FlatSides, TableOk, FlatHints, Entered, Vacated, Orders, RemoveAt;
      if qty == 0 {
        return;
      }
      RecordsAt(ids.Contents, ledger.live, ref);
      var ok := ids.Insert(ref, Rec(px, qty, side));
      if !ok {
        rejected := rejected + 1;
        return;
      }
      ghost var x := Resting(ref, side, px, qty, ledger.clock);
      EnlistWellFormed(ledger, ref, side, px, qty);
      RecordsAppend(old(ids.Contents), ledger.live, x);
      Arrive(x, side, px, qty);
      ledger := Enlist(ledger, ref, side, px, qty);
    }

    /** `deposit(..., -1)` followed by `ids_.erase`. */
    method Retire(ref: nat, r: Rec)
      requires Valid() && ref != 0 && ref in ids.Contents && r == ids.Contents[ref]
      modifies this, ids, ids.slots
      ensures Valid() && ledger == Delist(old(ledger), ref) && rejected == old(rejected)
      ensures ids.Contents == old(ids.Contents) - {ref} && Cached() == HintsDelist(win, old(Cached()), old(ledger), ref)
    {
      hide Distinct, Stamped, Records, FlatSides, TableOk, FlatHints, Entered, Vacated, Orders, RemoveAt;
      RecordsAt(ids.Contents, ledger.live, ref);
      ghost var i := IndexOf(ledger.live, ref);
      DelistWellFormed(ledger, ref);
      RecordsRemove(ids.Contents, ledger.live, i);
      Depart(i, r.side, r.px, r.qty);
      var found := ids.Erase(ref);
      ledger := Delist(ledger, ref);
    }

    method Remove(ref: nat)
      requires Valid() && ref != 0
      modifies this, ids, ids.slots
      ensures Valid() && ledger == Delist(old(ledger), ref) && rejected == old(rejected)
      ensures Cached() == HintsDelist(win, old(Cached()), old(ledger), ref)
    {
      hide Distinct, Stamped, Records, FlatSides, TableOk, FlatHints, Entered, Vacated, Orders, RemoveAt;
      RecordsAt(ids.Contents, ledger.live, ref);
      var at := ids.Find(ref);
      if at < 0 {
        return;
      }
      Retire(ref, ids.slots[at].value);
    }

    /** A replace never runs into the table's limit: it has just given a slot back. */
    method Replace(oldRef: nat, newRef: nat, px: nat, qty: nat)
      requires Valid() && oldRef != 0 && newRef != 0 && (newRef == oldRef || !Has(ledger.live, newRef))
      modifies this, ids, ids.slots
      ensures Valid() && ledger == Requeue(old(ledger), oldRef, newRef, px, qty) && rejected == old(rejected)
      ensures Cached() == HintsRequeue(win, PerOrder, old(Cached()), old(ledger), oldRef, px, qty)
    {
      hide Distinct, Stamped, Records, FlatSides, TableOk, FlatHints, Entered, Vacated, Orders, RemoveAt;
      RecordsAt(ids.Contents, ledger.live, oldRef);
      var at := ids.Find(oldRef);
      if at < 0 {
        return;
      }
      var r := ids.slots[at].value;
      DelistWellFormed(ledger, oldRef);
      Retire(oldRef, r);
      Add(newRef, r.side, px, qty);
    }

    method Reduce(ref: nat, qty: nat)
      requires Valid() && ref != 0
      modifies this, ids, ids.slots
      ensures Valid() && ledger == Shrink(old(ledger), ref, qty) && rejected == old(rejected)
      ensures Cached() == HintsReduce(win, old(Cached()), old(ledger), ref, qty)
    {
      hide Distinct, Stamped, Records, FlatSides, TableOk, FlatHints, Entered, Vacated, Orders, RemoveAt;
      RecordsAt(ids.Contents, ledger.live, ref);
      var at := ids.Find(ref);
      if at < 0 {
        return;
      }
      var r := ids.slots[at].value;
      var take := if qty < r.qty then qty else r.qty;
      if take == r.qty {
        Retire(ref, r);
        return;
      }
      ghost var i := IndexOf(ledger.live, ref);
      ShrinkWellFormed(ledger, ref, qty);
      RecordsResize(ids.Contents, ledger.live, i, r.qty - take);
      Take(i, r, take);
      ids.Assign(at, r.(qty := r.qty - take));
      ledger := Shrink(ledger, ref, qty);
    }

    /** The level's share of a partial fill or cancel. */
    method Take(ghost i: nat, r: Rec, take: nat)
      requires Aligned(win) && FlatSides(win, grids, over, ledger.live) && i < |ledger.live| && take < r.qty
      requires ledger.live[i].side == r.side && ledger.live[i].px == r.px && ledger.live[i].qty == r.qty
      modifies `grids, `over
      ensures FlatSides(win, grids, over, ledger.live[i := ledger.live[i].(qty := r.qty - take)])
      ensures Cached() == old(Cached())
    {
      hide FlatSide;
      var s := Index(r.side);
      FlatShrinks(win, grids[s], over[s], ledger.live, i, take);
      forall p { LevelResize(ledger.live, i, r.qty - take, Opposite(r.side), p); }
      FlatOpposite(win, grids, over, ledger.live, ledger.live[i := ledger.live[i].(qty := r.qty - take)], r.side);
      if InGrid(win, r.px) {
        grids := grids[s := GridShrunk(grids[s], TickOf(win, r.px), take)];
      } else {
        over := over[s := Shrunk(over[s], r.px, take)];
      }
    }

    method Apply(e: BookEvent)
      requires Valid() && Acceptable(ledger, e)
      modifies this, ids, ids.slots
      ensures Valid() && rejected == old(rejected) + if old(Refuses(e)) then 1 else 0
      ensures ledger == if old(Refuses(e)) then old(ledger) else After(old(ledger), e)
      ensures Cached() == if old(Refuses(e)) then old(Cached())
        else HintsAfter(win, PerOrder, old(Cached()), old(ledger), e)
    {
      hide Valid, Enlist, Shrink, Delist, Requeue, Orders, IndexOf, Cached, HintsEnter, HintsDelist, HintsReduce,
        HintsRequeue;
      match e.kind {
        case Add => Add(e.ref, e.side, e.px, e.shares);
        case Execute => Reduce(e.ref, e.shares);
        case Cancel => Reduce(e.ref, e.shares);
        case Delete => Remove(e.ref);
        case Replace => Replace(e.ref, e.newRef, e.px, e.shares);
      }
    }

    /** `collect` for one side. */
    method Top(side: Side) returns (out: seq<LevelView>)
      requires Valid()
      ensures TopLevels(ledger.live, side, out)
    {
      hide WellFormed, Records, TableOk, FlatSide, Indexed, TopPrices, TopLevels, LivePrices, Prices, FlatViewable,
        FlatView, Shares, Orders;
      var s := Index(side);
      var g, m := grids[s], over[s];
      ghost var live := ledger.live;
      ghost var keys := Prices(live, side);
      FlatIndexed(win, g, m, live, side);
      var ps := MergePrices(side, win, g.bits, Ranked(side, m.Keys), keys, m.Keys);
      TopPricesIn(side, keys, ps);
      out := [];
      while |out| < |ps|
        invariant |out| <= |ps|
        invariant forall i :: 0 <= i < |out| ==>
          out[i] == LevelView(ps[i], Shares(live, side, ps[i]), Orders(live, side, ps[i]))
      {
        var px := ps[|out|];
        ViewAt(win, g, m, live, side, px);
        out := out + [FlatView(win, g, m, px)];
      }
      PricesLive(live, side);
      TopPricesGiveLevels(live, side, keys, ps, out);
    }

    method Snapshot() returns (bid: seq<LevelView>, ask: seq<LevelView>)
      requires Valid()
      ensures TopLevels(ledger.live, Buy, bid) && TopLevels(ledger.live, Sell, ask)
    {
      bid := Top(Buy);
      ask := Top(Sell);
    }

    /** `best_bid` and `best_ask`: the query refreshes an unknown hint. */
    method BestPrice(side: Side) returns (r: nat)
      requires Valid()
      modifies `grids
      ensures Valid()
      ensures Quotes(r, ledger, side) && (TrueBest(r, ledger, side) <==> Tells(win, old(Cached()), ledger, side))
      ensures r == Reported(side, win, Prices(ledger.live, side), HintFor(old(Cached()), side))
      ensures Cached() == HintsLookup(win, old(Cached()), ledger, side)
      ensures grids == old(grids)[Index(side) := old(grids[Index(side)]).(hint := grids[Index(side)].hint)]
    {
      hide WellFormed, Records, FlatSide, TableOk, Indexed, HintExact, HintLive, Reported, HintAfterLookup, Prices,
        Quotes, TrueBest, Tells, Answerable;
      var s := Index(side);
      ghost var keys := Prices(ledger.live, side);
      FlatIndexed(win, grids[s], over[s], ledger.live, side);
      FlatHintLive(win, grids[s], over[s], ledger.live, side);
      ReportsIff(win, Cached(), ledger, side);
      var h;
      r, h := BestOf(side, win, grids[s].bits, grids[s].hint, over[s].Keys, keys);
      FlatHint(win, grids[s], over[s], ledger.live, side, h);
      grids := grids[s := grids[s].(hint := h)];
    }
  }

  ghost function FlatHints(grids: seq<Grid>): Hints {
    if |grids| == 2 then Hints(grids[0].hint, grids[1].hint) else NO_HINTS
  }

  lemma FlatHintLive(w: Window, g: Grid, m: map<nat, Agg>, live: seq<Resting>, side: Side)
    requires FlatSide(w, g, m, live, side)
    ensures HintLive(w, Prices(live, side), g.hint)
  {
  }

  lemma FlatHint(w: Window, g: Grid, m: map<nat, Agg>, live: seq<Resting>, side: Side, h: int)
    requires FlatSide(w, g, m, live, side) && HintLive(w, Prices(live, side), h)
    ensures FlatSide(w, g.(hint := h), m, live, side)
  {
    forall t: nat | t < w.ticks ensures TickAt(w, g.(hint := h), live, side, t) {
      assert TickAt(w, g, live, side, t);
    }
  }

  predicate FlatViewable(w: Window, g: Grid, m: map<nat, Agg>, px: nat) {
    if InGrid(w, px) then TickOf(w, px) < |g.qty| && TickOf(w, px) < |g.cnt| else px in m
  }

  /** The entry `collect` writes for a price. */
  function FlatView(w: Window, g: Grid, m: map<nat, Agg>, px: nat): LevelView
    requires FlatViewable(w, g, m, px)
  {
    if InGrid(w, px) then LevelView(px, g.qty[TickOf(w, px)], g.cnt[TickOf(w, px)])
    else LevelView(px, m[px].qty, m[px].orders)
  }

  /** What the tables say of a live price. */
  lemma ViewAt(w: Window, g: Grid, m: map<nat, Agg>, live: seq<Resting>, side: Side, px: nat)
    requires Aligned(w) && FlatSide(w, g, m, live, side) && px in Prices(live, side)
    ensures FlatViewable(w, g, m, px)
    ensures FlatView(w, g, m, px) == LevelView(px, Shares(live, side, px), Orders(live, side, px))
  {
    PricesLive(live, side);
    assert FlatOver(w, m, live, side, px);
    if InGrid(w, px) {
      TickOfPrice(w, px);
      assert TickAt(w, g, live, side, TickOf(w, px));
    }
  }
}
