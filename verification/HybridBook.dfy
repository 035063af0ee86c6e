/** The hybrid order book. */
module HybridBooks {

  // The price grid of the aggregate design over the pooled FIFO lists.

  import opened Ledgers
  import opened Ranking
  import opened Bitmap
  import opened PriceGrid
  import opened CachedTicks
  import opened Refusals
  import opened OpenHash
  import opened Pools

  datatype SideGrid = SideGrid(slot: seq<int>, bits: seq<Word>, hint: int)

  function EmptyGrid(w: Window): SideGrid {
    SideGrid(seq(w.ticks, _ => NONE), seq(Words(w), _ => ZERO), UNKNOWN)
  }

  lemma EmptySides(w: Window)
    ensures HybridSides(w, [EmptyGrid(w), EmptyGrid(w)], [map[], map[]], map[])
  {
  }

  /** Entering level `li` at tick `t`. */
  function GridEnter(g: SideGrid, side: Side, t: nat, li: nat): SideGrid
    requires t < |g.slot| && t / 64 < |g.bits|
  {
    SideGrid(g.slot[t := li], SetBit(g.bits, t), HintAfterAdd(side, g.hint, t))
  }

  function MapEnter(m: map<nat, nat>, px: nat, li: nat): map<nat, nat> {
    m[px := li]
  }

  function GridLeave(g: SideGrid, t: nat): SideGrid
    requires t < |g.slot| && t / 64 < |g.bits|
  {
    SideGrid(g.slot[t := NONE], ClearBit(g.bits, t), HintAfterDrop(g.hint, t))
  }

  ghost predicate SlotAt(w: Window, g: SideGrid, reg: map<Key, nat>, side: Side, t: nat)
    requires |g.slot| == w.ticks && |g.bits| == Words(w) && t < w.ticks
  {
    var key := Key(side, PriceOf(w, t));
    && g.slot[t] == (if key in reg then reg[key] else NONE)
    && (Test(g.bits, t) <==> g.slot[t] >= 0)
  }

  ghost predicate HybridOver(w: Window, m: map<nat, nat>, reg: map<Key, nat>, side: Side, px: nat) {
    if InGrid(w, px) then px !in m
    else (px in m <==> Key(side, px) in reg) && (px in m ==> m[px] == reg[Key(side, px)])
  }

  /** Slots, bitmap and overflow map of one side find exactly its registered levels. */
  ghost predicate HybridSide(w: Window, g: SideGrid, m: map<nat, nat>, reg: map<Key, nat>, side: Side) {
    && |g.slot| == w.ticks && |g.bits| == Words(w)
    && (forall t: nat :: t < w.ticks ==> SlotAt(w, g, reg, side, t))
    && (forall t: nat :: w.ticks <= t && t / 64 < |g.bits| ==> !Test(g.bits, t))
    && (forall px :: HybridOver(w, m, reg, side, px))
    && HintLive(w, RegPrices(reg, side), g.hint)
  }

  ghost predicate HybridSides(w: Window, grids: seq<SideGrid>, over: seq<map<nat, nat>>, reg: map<Key, nat>) {
    && |grids| == |over| == 2
    && HybridSide(w, grids[0], over[0], reg, Buy)
    && HybridSide(w, grids[1], over[1], reg, Sell)
  }

  lemma SideIndexed(w: Window, g: SideGrid, m: map<nat, nat>, reg: map<Key, nat>, side: Side)
    requires Aligned(w) && HybridSide(w, g, m, reg, side)
    ensures Indexed(w, g.bits, m.Keys, RegPrices(reg, side))
  {
    RegPricesMean(reg, side);
    forall t: nat | t / 64 < |g.bits|
      ensures Test(g.bits, t) <==> t < w.ticks && PriceOf(w, t) in RegPrices(reg, side) {
      if t < w.ticks {
        assert SlotAt(w, g, reg, side, t);
      }
    }
    forall px ensures px in m.Keys <==> px in RegPrices(reg, side) && !InGrid(w, px) {
      assert HybridOver(w, m, reg, side, px);
    }
  }

  /** `lookup_level`: the registered level of a price, or -1. */
  function Lookup(w: Window, g: SideGrid, m: map<nat, nat>, px: nat): int
    requires InGrid(w, px) ==> TickOf(w, px) < |g.slot|
  {
    if InGrid(w, px) then g.slot[TickOf(w, px)] else if px in m then m[px] else NONE
  }

  lemma LookupFinds(w: Window, g: SideGrid, m: map<nat, nat>, reg: map<Key, nat>, side: Side, px: nat)
    requires Aligned(w) && HybridSide(w, g, m, reg, side)
    ensures InGrid(w, px) ==> TickOf(w, px) < w.ticks == |g.slot| && TickOf(w, px) / 64 < |g.bits|
    ensures Lookup(w, g, m, px) == if Key(side, px) in reg then reg[Key(side, px)] else NONE
  {
    assert HybridOver(w, m, reg, side, px);
    if InGrid(w, px) {
      TickOfPrice(w, px);
      assert SlotAt(w, g, reg, side, TickOf(w, px));
    }
  }

  lemma SideEnters(w: Window, g: SideGrid, m: map<nat, nat>, reg: map<Key, nat>, side: Side, px: nat, li: nat)
    requires Aligned(w) && HybridSide(w, g, m, reg, side) && Key(side, px) !in reg
    ensures if InGrid(w, px) then
              TickOf(w, px) < |g.slot| && TickOf(w, px) / 64 < |g.bits|
              && HybridSide(w, GridEnter(g, side, TickOf(w, px), li), m, reg[Key(side, px) := li], side)
            else HybridSide(w, g, MapEnter(m, px, li), reg[Key(side, px) := li], side)
  {
    var reg' := reg[Key(side, px) := li];
    LookupFinds(w, g, m, reg, side, px);
    var g' := if InGrid(w, px) then GridEnter(g, side, TickOf(w, px), li) else g;
    var m' := if InGrid(w, px) then m else MapEnter(m, px, li);
    if InGrid(w, px) {
      TickOfPrice(w, px);
    }
    forall t: nat | t < w.ticks ensures SlotAt(w, g', reg', side, t) {
      assert SlotAt(w, g, reg, side, t);
      PriceOfTick(w, t);
    }
    forall p ensures HybridOver(w, m', reg', side, p) {
      assert HybridOver(w, m, reg, side, p);
    }
    RegPricesMean(reg, side);
    RegPricesMean(reg', side);
    assert RegPrices(reg', side) == RegPrices(reg, side) + {px};
    if InGrid(w, px) {
      HintAddExactly(side, w, RegPrices(reg, side), g.hint, TickOf(w, px));
    }
  }

  lemma SideLeaves(w: Window, g: SideGrid, m: map<nat, nat>, reg: map<Key, nat>, side: Side, px: nat)
    requires Aligned(w) && HybridSide(w, g, m, reg, side) && Key(side, px) in reg
    ensures if InGrid(w, px) then
              TickOf(w, px) < |g.slot| && TickOf(w, px) / 64 < |g.bits|
              && HybridSide(w, GridLeave(g, TickOf(w, px)), m, reg - {Key(side, px)}, side)
            else HybridSide(w, g, m - {px}, reg - {Key(side, px)}, side)
  {
    var reg' := reg - {Key(side, px)};
    LookupFinds(w, g, m, reg, side, px);
    var g' := if InGrid(w, px) then GridLeave(g, TickOf(w, px)) else g;
    var m' := if InGrid(w, px) then m else m - {px};
    if InGrid(w, px) {
      TickOfPrice(w, px);
    }
    forall t: nat | t < w.ticks ensures SlotAt(w, g', reg', side, t) {
      assert SlotAt(w, g, reg, side, t);
      PriceOfTick(w, t);
    }
    forall p ensures HybridOver(w, m', reg', side, p) {
      assert HybridOver(w, m, reg, side, p);
    }
    RegPricesMean(reg, side);
    RegPricesMean(reg', side);
    assert RegPrices(reg', side) == RegPrices(reg, side) - {px};
    if InGrid(w, px) {
      HintDropKeeps(side, w, RegPrices(reg, side), g.hint, TickOf(w, px));
    } else if g.hint != UNKNOWN {
      PriceOfTick(w, g.hint);
    }
  }

  /** A side on which no level came or went keeps its tables. */
  lemma SideElsewhere(w: Window, g: SideGrid, m: map<nat, nat>, reg: map<Key, nat>, reg': map<Key, nat>, side: Side)
    requires HybridSide(w, g, m, reg, side)
    requires forall px ::
               (Key(side, px) in reg' <==> Key(side, px) in reg)
               && (Key(side, px) in reg ==> reg'[Key(side, px)] == reg[Key(side, px)])
    ensures HybridSide(w, g, m, reg', side)
  {
    RegPricesMean(reg, side);
    RegPricesMean(reg', side);
    assert RegPrices(reg', side) == RegPrices(reg, side);
    forall t: nat | t < w.ticks ensures SlotAt(w, g, reg', side, t) {
      assert SlotAt(w, g, reg, side, t);
    }
    forall p ensures HybridOver(w, m, reg', side, p) {
      assert HybridOver(w, m, reg, side, p);
    }
  }

  // ---- the whole book ----

  /** Lists, pools of levels and price tables agree with the live orders. */
  ghost predicate Core(w: Window, orders: seq<Order>, levels: seq<Level>, freeLevels: seq<nat>, grids: seq<SideGrid>,
                       over: seq<map<nat, nat>>, fifo: seq<nat>, live: seq<Resting>, reg: map<Key, nat>) {
    && Aligned(w)
    && Nodes(orders, fifo, live, reg)
    && Levels(orders, levels, fifo, live, reg)
    && FreeLevels(reg, freeLevels, |levels|)
    && HybridSides(w, grids, over, reg)
  }

  /** The pool's stamps are the arrival stamps. */
  ghost predicate StampsKept(orders: seq<Order>, fifo: seq<nat>, live: seq<Resting>) {
    && |fifo| == |live|
    && (forall i :: 0 <= i < |live| ==> fifo[i] < |orders| && orders[fifo[i]].stamp == live[i].stamp)
  }

  lemma EmptyBook(w: Window, orders: seq<Order>, levels: seq<Level>)
    requires Aligned(w)
    ensures Core(w, orders, levels, Countdown(|levels|), [EmptyGrid(w), EmptyGrid(w)], [map[], map[]], [], [], map[])
    ensures FreeOrders([], Countdown(|orders|), |orders|)
  {
    hide Nodes, Levels, HybridSide;
    EmptySides(w);
    EmptyPools(orders, levels);
  }

  /** A fresh level enters the tables of its side. */
  lemma EnterSides(w: Window, grids: seq<SideGrid>, over: seq<map<nat, nat>>, reg: map<Key, nat>, key: Key, li: nat)
    requires Aligned(w) && HybridSides(w, grids, over, reg) && key !in reg
    ensures var s := Index(key.side);
      if InGrid(w, key.px) then
        TickOf(w, key.px) < |grids[s].slot| && TickOf(w, key.px) / 64 < |grids[s].bits|
        && HybridSides(w, grids[s := GridEnter(grids[s], key.side, TickOf(w, key.px), li)], over, reg[key := li])
      else HybridSides(w, grids, over[s := MapEnter(over[s], key.px, li)], reg[key := li])
  {
    hide HybridSide;
    var s := Index(key.side);
    SideEnters(w, grids[s], over[s], reg, key.side, key.px, li);
    SideElsewhere(w, grids[1 - s], over[1 - s], reg, reg[key := li], Opposite(key.side));
  }

  /** An emptied level leaves the tables of its side. */
  lemma LeaveSides(w: Window, grids: seq<SideGrid>, over: seq<map<nat, nat>>, reg: map<Key, nat>, key: Key)
    requires Aligned(w) && HybridSides(w, grids, over, reg) && key in reg
    ensures var s := Index(key.side);
      if InGrid(w, key.px) then
        TickOf(w, key.px) < |grids[s].slot| && TickOf(w, key.px) / 64 < |grids[s].bits|
        && HybridSides(w, grids[s := GridLeave(grids[s], TickOf(w, key.px))], over, reg - {key})
      else HybridSides(w, grids, over[s := over[s] - {key.px}], reg - {key})
  {
    hide HybridSide;
    var s := Index(key.side);
    SideLeaves(w, grids[s], over[s], reg, key.side, key.px);
    SideElsewhere(w, grids[1 - s], over[1 - s], reg, reg - {key}, Opposite(key.side));
  }

  lemma AppendCore(w: Window, orders: seq<Order>, levels: seq<Level>, freeLevels: seq<nat>, grids: seq<SideGrid>,
                   over: seq<map<nat, nat>>, fifo: seq<nat>, live: seq<Resting>, reg: map<Key, nat>, oi: nat,
                   x: Resting)
    requires Core(w, orders, levels, freeLevels, grids, over, fifo, live, reg) && StampsKept(orders, fifo, live)
    requires oi < |orders| && oi !in fifo && KeyOf(x) in reg
    ensures var li: nat := reg[KeyOf(x)];
      li < |levels| && levels[li].tail < |orders|
      && var o := Order(x.ref, x.stamp, x.qty, NONE, NONE, li, x.side);
      var orders' := Appended(orders, oi, o, levels[li].tail);
      Core(w, orders', levels[li := LevelPlus(levels[li], oi, x.qty)], freeLevels, grids, over, fifo + [oi],
        live + [x], reg)
      && StampsKept(orders', fifo + [oi], live + [x])
  {
    hide Levels, FreeLevels, HybridSides;
    var o := Order(x.ref, x.stamp, x.qty, NONE, NONE, reg[KeyOf(x)], x.side);
    AppendLevels(orders, levels, fifo, live, reg, oi, x, o);
    var L := levels[reg[KeyOf(x)]];
    AppendNodes(orders, fifo, live, reg, oi, x, o, L.tail);
    forall i | 0 <= i < |live| ensures fifo[i] != oi {
      assert fifo[i] in fifo;
    }
  }

  lemma TakeSlot(w: Window, orders: seq<Order>, levels: seq<Level>, freeLevels: seq<nat>, grids: seq<SideGrid>,
                 over: seq<map<nat, nat>>, fifo: seq<nat>, live: seq<Resting>, reg: map<Key, nat>, free: seq<nat>)
    requires Core(w, orders, levels, freeLevels, grids, over, fifo, live, reg)
    requires FreeOrders(fifo, free, |orders|) && free != []
    ensures free[|free| - 1] < |orders| && free[|free| - 1] !in fifo
    ensures FreeOrders(fifo + [free[|free| - 1]], free[..|free| - 1], |orders|)
  {
    FreeOrdersTake(fifo, free, |orders|);
  }

  lemma UnlinkCore(w: Window, orders: seq<Order>, levels: seq<Level>, freeLevels: seq<nat>, grids: seq<SideGrid>,
                   over: seq<map<nat, nat>>, fifo: seq<nat>, live: seq<Resting>, reg: map<Key, nat>, i: nat)
    requires Core(w, orders, levels, freeLevels, grids, over, fifo, live, reg) && i < |live|
    ensures |fifo| == |live| && fifo[i] < |orders| && KeyOf(live[i]) in reg && reg[KeyOf(live[i])] < |levels|
    ensures orders[fifo[i]].prev < |orders| && orders[fifo[i]].next < |orders|
    ensures orders[fifo[i]].side == live[i].side && orders[fifo[i]].level == reg[KeyOf(live[i])]
    ensures var o, L := orders[fifo[i]], levels[reg[KeyOf(live[i])]];
      L.qty >= o.qty && L.orders >= 1 && L.price == live[i].px && L.orders == Orders(live, live[i].side, live[i].px)
      && Core(w, Unlinked(orders, fifo[i]), levels[reg[KeyOf(live[i])] := LevelMinus(L, o)], freeLevels, grids, over,
              RemoveAt(fifo, i), RemoveAt(live, i), reg)
  {
    assert NodeAt(orders, fifo, live, reg, i);
    assert LevelAt(orders, levels, fifo, live, reg[KeyOf(live[i])], KeyOf(live[i]));
    hide Nodes, Levels, FreeLevels, HybridSides;
    UnlinkNodes(orders, levels, fifo, live, reg, i);
    UnlinkLevels(orders, levels, fifo, live, reg, i);
  }

  lemma UnlinkStamps(orders: seq<Order>, levels: seq<Level>, fifo: seq<nat>, live: seq<Resting>, reg: map<Key, nat>,
                     i: nat)
    requires Nodes(orders, fifo, live, reg) && Levels(orders, levels, fifo, live, reg) && StampsKept(orders, fifo, live)
    requires i < |live|
    ensures fifo[i] < |orders| && orders[fifo[i]].prev < |orders| && orders[fifo[i]].next < |orders|
    ensures StampsKept(Unlinked(orders, fifo[i]), RemoveAt(fifo, i), RemoveAt(live, i))
  {
    UnlinkNodes(orders, levels, fifo, live, reg, i);
    var f, m := RemoveAt(fifo, i), RemoveAt(live, i);
    forall j | 0 <= j < |m| ensures f[j] < |orders| && Unlinked(orders, fifo[i])[f[j]].stamp == m[j].stamp {
      var k := if j < i then j else j + 1;
      assert f[j] == fifo[k] && m[j] == live[k];
    }
  }

  lemma ResizeCore(w: Window, orders: seq<Order>, levels: seq<Level>, freeLevels: seq<nat>, grids: seq<SideGrid>,
                   over: seq<map<nat, nat>>, fifo: seq<nat>, live: seq<Resting>, reg: map<Key, nat>, i: nat, take: nat)
    requires Core(w, orders, levels, freeLevels, grids, over, fifo, live, reg) && StampsKept(orders, fifo, live)
    requires i < |live| && take <= live[i].qty
    ensures |fifo| == |live| && fifo[i] < |orders| && KeyOf(live[i]) in reg && reg[KeyOf(live[i])] < |levels|
    ensures orders[fifo[i]].qty == live[i].qty && orders[fifo[i]].level == reg[KeyOf(live[i])]
    ensures levels[reg[KeyOf(live[i])]].qty >= take
    ensures var li: nat := reg[KeyOf(live[i])];
      var orders' := orders[fifo[i] := orders[fifo[i]].(qty := live[i].qty - take)];
      var live' := live[i := live[i].(qty := live[i].qty - take)];
      Core(w, orders', levels[li := levels[li].(qty := levels[li].qty - take)], freeLevels, grids, over, fifo, live',
        reg)
      && StampsKept(orders', fifo, live')
  {
    assert NodeAt(orders, fifo, live, reg, i);
    hide Nodes, Levels, FreeLevels, HybridSides;
    ResizeKeeps(orders, levels, fifo, live, reg, i, take);
  }

  predicate HybridViewable(w: Window, g: SideGrid, m: map<nat, nat>, levels: seq<Level>, px: nat) {
    && (InGrid(w, px) ==> TickOf(w, px) < |g.slot|)
    && 0 <= Lookup(w, g, m, px) < |levels|
  }

  /** The entry `collect` writes for a price. */
  function HybridView(w: Window, g: SideGrid, m: map<nat, nat>, levels: seq<Level>, px: nat): LevelView
    requires HybridViewable(w, g, m, levels, px)
  {
    var L := levels[Lookup(w, g, m, px)];
    LevelView(L.price, L.qty, L.orders)
  }

  method Views(w: Window, g: SideGrid, m: map<nat, nat>, levels: seq<Level>, ps: seq<nat>) returns (out: seq<LevelView>)
    requires forall i :: 0 <= i < |ps| ==> HybridViewable(w, g, m, levels, ps[i])
    ensures |out| == |ps| && forall i :: 0 <= i < |ps| ==> out[i] == HybridView(w, g, m, levels, ps[i])
  {
    out := [];
    while |out| < |ps|
      invariant |out| <= |ps|
      invariant forall i :: 0 <= i < |out| ==> out[i] == HybridView(w, g, m, levels, ps[i])
    {
      out := out + [HybridView(w, g, m, levels, ps[|out|])];
    }
  }

  lemma SideHint(w: Window, g: SideGrid, m: map<nat, nat>, reg: map<Key, nat>, side: Side, h: int)
    requires HybridSide(w, g, m, reg, side) && HintLive(w, RegPrices(reg, side), h)
    ensures HybridSide(w, g.(hint := h), m, reg, side)
  {
    forall t: nat | t < w.ticks ensures SlotAt(w, g.(hint := h), reg, side, t) {
      assert SlotAt(w, g, reg, side, t);
    }
  }

  // ---- what the tables say of the live orders ----

  /** Bitmap and overflow map index the live prices of each side, and the hint is not stale. */
  lemma PricesFound(w: Window, orders: seq<Order>, grids: seq<SideGrid>, over: seq<map<nat, nat>>, fifo: seq<nat>,
                    live: seq<Resting>, reg: map<Key, nat>, side: Side)
    requires Aligned(w) && HybridSides(w, grids, over, reg) && Nodes(orders, fifo, live, reg) && NoneEmpty(reg, live)
    ensures Indexed(w, grids[Index(side)].bits, over[Index(side)].Keys, Prices(live, side))
    ensures HintLive(w, Prices(live, side), grids[Index(side)].hint)
  {
    RegMeans(orders, fifo, live, reg);
    SideIndexed(w, grids[Index(side)], over[Index(side)], reg, side);
  }

  lemma HintKept(w: Window, orders: seq<Order>, grids: seq<SideGrid>, over: seq<map<nat, nat>>, fifo: seq<nat>,
                 live: seq<Resting>, reg: map<Key, nat>, side: Side, h: int)
    requires HybridSides(w, grids, over, reg) && Nodes(orders, fifo, live, reg) && NoneEmpty(reg, live)
    requires HintLive(w, Prices(live, side), h)
    ensures HybridSides(w, grids[Index(side) := grids[Index(side)].(hint := h)], over, reg)
  {
    RegMeans(orders, fifo, live, reg);
    SideHint(w, grids[Index(side)], over[Index(side)], reg, side, h);
  }

  /** `level_for`: the pool entry of a live price carries its total and order count, and no other price has one. */
  lemma LevelFound(w: Window, orders: seq<Order>, levels: seq<Level>, g: SideGrid, m: map<nat, nat>, fifo: seq<nat>,
                   live: seq<Resting>, reg: map<Key, nat>, side: Side, px: nat)
    requires Aligned(w) && HybridSide(w, g, m, reg, side)
    requires Nodes(orders, fifo, live, reg) && NoneEmpty(reg, live) && Levels(orders, levels, fifo, live, reg)
    ensures InGrid(w, px) ==> TickOf(w, px) < |g.slot|
    ensures Lookup(w, g, m, px) < |levels|
    ensures Lookup(w, g, m, px) >= 0 <==> px in Prices(live, side)
    ensures Shares(live, side, px) == if Lookup(w, g, m, px) < 0 then 0 else levels[Lookup(w, g, m, px)].qty
    ensures px in Prices(live, side) ==>
      HybridView(w, g, m, levels, px) == LevelView(px, Shares(live, side, px), Orders(live, side, px))
  {
    hide Nodes, NoneEmpty, HybridSide;
    RegMeans(orders, fifo, live, reg);
    RegPricesMean(reg, side);
    LookupFinds(w, g, m, reg, side, px);
    LevelEmpty(live, side, px);
    if Key(side, px) in reg {
      assert LevelAt(orders, levels, fifo, live, reg[Key(side, px)], Key(side, px));
    }
  }

  lemma LevelsFound(w: Window, orders: seq<Order>, levels: seq<Level>, g: SideGrid, m: map<nat, nat>, fifo: seq<nat>,
                    live: seq<Resting>, reg: map<Key, nat>, side: Side, ps: seq<nat>)
    requires Aligned(w) && HybridSide(w, g, m, reg, side)
    requires Nodes(orders, fifo, live, reg) && NoneEmpty(reg, live) && Levels(orders, levels, fifo, live, reg)
    requires forall i :: 0 <= i < |ps| ==> ps[i] in Prices(live, side)
    ensures forall i :: 0 <= i < |ps| ==> HybridViewable(w, g, m, levels, ps[i])
    ensures forall i :: 0 <= i < |ps| ==>
      HybridView(w, g, m, levels, ps[i]) == LevelView(ps[i], Shares(live, side, ps[i]), Orders(live, side, ps[i]))
  {
    hide HybridSide, Nodes, Levels, NoneEmpty, Prices, HybridView;
    forall i | 0 <= i < |ps|
      ensures HybridViewable(w, g, m, levels, ps[i])
      ensures HybridView(w, g, m, levels, ps[i]) ==
        LevelView(ps[i], Shares(live, side, ps[i]), Orders(live, side, ps[i]))
    {
      LevelFound(w, orders, levels, g, m, fifo, live, reg, side, ps[i]);
    }
  }

  /** The pool slot of the `i`-th live order shows its side, stamp, size and price. */
  lemma OrderFound(orders: seq<Order>, levels: seq<Level>, fifo: seq<nat>, live: seq<Resting>, reg: map<Key, nat>,
                   i: nat)
    requires Nodes(orders, fifo, live, reg) && Levels(orders, levels, fifo, live, reg) && StampsKept(orders, fifo, live)
    requires i < |live|
    ensures fifo[i] < |orders| && 0 <= orders[fifo[i]].level < |levels|
    ensures var r := live[i]; var o := orders[fifo[i]];
      o.side == r.side && o.stamp == r.stamp && o.qty == r.qty && levels[o.level].price == r.px
  {
    var key := KeyOf(live[i]);
    SlotInPool(orders, fifo, live, reg, i);
    assert LevelAt(orders, levels, fifo, live, reg[key], key);
  }

  /** The list of the `i`-th live order, as a walk from the head meets it. */
  lemma QueueFound(orders: seq<Order>, levels: seq<Level>, fifo: seq<nat>, live: seq<Resting>, reg: map<Key, nat>,
                   i: nat)
    requires Nodes(orders, fifo, live, reg) && Levels(orders, levels, fifo, live, reg) && i < |live|
    requires forall a, b :: 0 <= a < b < |live| ==> live[a].stamp < live[b].stamp
    ensures |fifo| == |live| && fifo[i] < |orders| && 0 <= orders[fifo[i]].level < |levels|
    ensures var r := live[i]; var c, rank := Chain(fifo, live, KeyOf(r)), Rank(fifo, live, i);
      rank < |c| && c[rank] == fifo[i] && levels[orders[fifo[i]].level].head == c[0]
      && (forall k :: 0 <= k < |c| ==> LinkAt(orders, c, k))
      && (forall k :: 0 <= k < rank ==> c[k] != fifo[i])
      && ChainQty(orders, c[..rank]) == Ahead(live, r.side, r.px, r.stamp)
  {
    hide Nodes;
    var key := KeyOf(live[i]);
    SlotInPool(orders, fifo, live, reg, i);
    ListAhead(orders, fifo, live, reg, i);
    ChainUnique(fifo, live, key);
    assert LevelAt(orders, levels, fifo, live, reg[key], key);
  }

  lemma Follow(orders: seq<Order>, c: seq<nat>, k: nat)
    requires k < |c| && forall j :: 0 <= j < |c| ==> LinkAt(orders, c, j)
    ensures c[k] < |orders| && orders[c[k]].next == if k + 1 == |c| then NONE else c[k + 1]
  {
    assert LinkAt(orders, c, k);
  }

  /** The sizes met on the way along a list, before `target`. */
  method WalkAhead(orders: seq<Order>, head: int, target: nat, ghost c: seq<nat>, ghost rank: nat) returns (ahead: nat)
    requires rank < |c| && c[rank] == target && head == c[0]
    requires (forall k :: 0 <= k < |c| ==> LinkAt(orders, c, k)) && forall k :: 0 <= k < rank ==> c[k] != target
    ensures ahead == ChainQty(orders, c[..rank])
  {
    hide LinkAt;
    var cursor := head;
    ahead := 0;
    ghost var k := 0;
    while cursor >= 0 && cursor != target
      invariant 0 <= k <= rank && cursor == c[k]
      invariant ahead == ChainQty(orders, c[..k])
      decreases rank - k
    {
      Follow(orders, c, k);
      assert c[..k + 1][..k] == c[..k];
      ahead := ahead + orders[cursor].qty;
      cursor := orders[cursor].next;
      k := k + 1;
    }
  }

  class HybridBook {
    const win: Window
    const ids: OpenHashMap<nat>
    var grids: seq<SideGrid>
    var over: seq<map<nat, nat>>
    var orders: seq<Order>
    var levels: seq<Level>
    var freeOrders: seq<nat>
    var freeLevels: seq<nat>
    var rejected: nat
    var nextSeq: nat
    ghost var ledger: Ledger
    ghost var fifo: seq<nat>
    ghost var reg: map<Key, nat>

    ghost predicate Tables()
      reads this
    {
      Core(win, orders, levels, freeLevels, grids, over, fifo, ledger.live, reg)
        && StampsKept(orders, fifo, ledger.live)
    }

    /** The list shape: what the pools and tables hold is exactly the ledger. */
    ghost predicate Shaped()
      reads this
    {
      && Tables()
      && NoneEmpty(reg, ledger.live)
      && FreeOrders(fifo, freeOrders, |orders|)
      && WellFormed(ledger) && nextSeq == ledger.clock
    }

    /** The id table leads to live orders; those it has refused are live without a name. */
    ghost predicate Valid()
      reads this, ids, ids.slots
    {
      Shaped() && ids.Valid() && Located(ids.Contents, fifo, ledger.live)
    }

    ghost function Capacity(): Room
      reads this
    {
      Room(|orders|, |levels|, ids.Limit())
    }

    /** The linked orders and the names known for them. */
    ghost function Holding(): Held
      reads this, ids
    {
      Held(ledger, ids.Contents.Keys)
    }

    ghost function Cached(): Hints
      reads this
    {
      HybridHints(grids)
    }

    lemma ValidIsShaped()
      requires Valid()
      ensures Shaped() && Sound(Capacity(), Holding())
    {
      assert |ids.Contents.Keys| == |ids.Contents|;
    }

    /** A level is registered if it has orders, and the free lists run out exactly with the capacity. */
    lemma RoomLeft(side: Side, px: nat)
      requires Shaped()
      ensures Key(side, px) in reg <==> Orders(ledger.live, side, px) > 0
      ensures NoRoom(Capacity(), ledger.live, side, px)
          <==> freeOrders == [] || (Orders(ledger.live, side, px) == 0 && freeLevels == [])
    {
      hide HybridSides, Levels, NodeAt;
      RegSize(orders, fifo, ledger.live, reg);
      Registered(orders, fifo, ledger.live, reg, side, px);
    }

    constructor (lo: nat, hi: nat, maxOrders: nat, maxLevels: nat, hash: nat -> nat)
      requires lo - lo % TICK <= hi && maxOrders > 0
      ensures Valid() && Holding() == NOTHING_HELD && rejected == 0 && fresh(ids) && fresh(ids.slots)
      ensures win == WindowOf(lo, hi) && Cached() == NO_HINTS
      ensures Capacity() == Room(maxOrders, maxLevels, maxOrders * 7 / 10)
    {
      win := WindowOf(lo, hi);
      ids := new OpenHashMap(maxOrders, hash, 0);
      grids, over := [EmptyGrid(WindowOf(lo, hi)), EmptyGrid(WindowOf(lo, hi))], [map[], map[]];
      orders := seq(maxOrders, _ => BLANK_ORDER);
      levels := seq(maxLevels, _ => BLANK_LEVEL);
      freeOrders, freeLevels := Countdown(maxOrders), Countdown(maxLevels);
      rejected, nextSeq := 0, 1;
      ledger, fifo, reg := START, [], map[];
      new;
      EmptyBook(win, orders, levels);
      hide Core, FreeOrders, NoneEmpty, HybridHints;
    }

    /** `find_or_create_level`: -1 when a new level is needed and none is free. */
    method FindOrCreateLevel(side: Side, px: nat) returns (li: int)
      requires Tables()
      modifies `levels, `freeLevels, `grids, `over, `reg
      ensures Tables() && |levels| == old(|levels|)
      ensures var key := Key(side, px);
        if key in old(reg) then reg == old(reg) && li == reg[key] && grids == old(grids)
        else if old(freeLevels) == [] then li == NONE && reg == old(reg) && grids == old(grids)
        else li >= 0 && reg == old(reg)[key := li] && Cached() == Entered(win, old(Cached()), side, px)
    {
      hide Nodes, Levels, FreeLevels, StampsKept, HybridSide;
      var s := Index(side);
      LookupFinds(win, grids[s], over[s], reg, side, px);
      li := Lookup(win, grids[s], over[s], px);
      if li >= 0 {
        return;
      }
      if |freeLevels| == 0 {
        return;
      }
      FreeLevelsTake(reg, freeLevels, |levels|, Key(side, px));
      var at: nat := freeLevels[|freeLevels| - 1];
      CreateKeeps(orders, levels, fifo, ledger.live, reg, Key(side, px), at);
      EnterSides(win, grids, over, reg, Key(side, px), at);
      freeLevels := freeLevels[..|freeLevels| - 1];
      levels := levels[at := Level(px, 0, 0, NONE, NONE)];
      if InGrid(win, px) {
        grids := grids[s := GridEnter(grids[s], side, TickOf(win, px), at)];
      } else {
        over := over[s := MapEnter(over[s], px, at)];
      }
      reg := reg[Key(side, px) := at];
      li := at;
    }

    /** `drop_level`: the emptied level goes back to the pool and out of the price tables. */
    method DropLevel(side: Side, li: nat, ghost key: Key)
      requires Tables() && key in reg && li == reg[key] && key.side == side
      requires Orders(ledger.live, key.side, key.px) == 0
      modifies `freeLevels, `grids, `over, `reg
      ensures Tables() && reg == old(reg) - {key} && Cached() == Vacated(win, old(Cached()), side, key.px)
    {
      hide Nodes, Levels, FreeLevels, StampsKept, HybridSide, Orders;
      LevelPriced(orders, levels, fifo, ledger.live, reg, key);
      FreeLevelsReturn(reg, freeLevels, |levels|, key);
      DropKeeps(orders, levels, fifo, ledger.live, reg, key);
      LeaveSides(win, grids, over, reg, key);
      var s, px := Index(side), levels[li].price;
      if InGrid(win, px) {
        grids := grids[s := GridLeave(grids[s], TickOf(win, px))];
      } else {
        over := over[s := over[s] - {px}];
      }
      freeLevels := freeLevels + [li];
      reg := reg - {key};
    }

    /** `unlink`: the order leaves its list and its level's totals; with the last order the level leaves the tables. */
    method Unlink(oi: nat, ghost i: nat)
      requires Tables() && NoneEmpty(reg, ledger.live) && i < |ledger.live| && fifo[i] == oi
      modifies `orders, `levels, `freeLevels, `grids, `over, `reg, `fifo, `ledger
      ensures Tables() && NoneEmpty(reg, ledger.live) && |orders| == old(|orders|) && |levels| == old(|levels|)
      ensures ledger == old(ledger).(live := RemoveAt(old(ledger).live, i)) && fifo == RemoveAt(old(fifo), i)
      ensures var r := old(ledger).live[i];
        Cached() == if Orders(ledger.live, r.side, r.px) > 0 then old(Cached())
          else Vacated(win, old(Cached()), r.side, r.px)
    {
      hide Nodes, Levels, FreeLevels, StampsKept, HybridSides, NoneEmpty, HybridHints, Vacated, Orders;
      ghost var live := ledger.live;
      RemoveNoneEmpty(reg, live, i);
      UnlinkStamps(orders, levels, fifo, live, reg, i);
      UnlinkCore(win, orders, levels, freeLevels, grids, over, fifo, live, reg, i);
      var o := orders[oi];
      var L := levels[o.level];
      orders := Unlinked(orders, oi);
      levels := levels[o.level := LevelMinus(L, o)];
      ledger, fifo := ledger.(live := RemoveAt(live, i)), RemoveAt(fifo, i);
      if levels[o.level].orders == 0 {
        DropLevel(o.side, o.level, KeyOf(live[i]));
      }
    }

    /** The second half of `add`: takes a pool slot, stamps the order and hangs it behind the level's tail. */
    method Append(ref: nat, side: Side, px: nat, qty: nat, li: nat) returns (oi: nat)
      requires Tables() && FreeOrders(fifo, freeOrders, |orders|) && freeOrders != [] && qty > 0
      requires Key(side, px) in reg && reg[Key(side, px)] == li && nextSeq == ledger.clock
      modifies `orders, `levels, `freeOrders, `nextSeq, `fifo, `ledger
      ensures Tables() && FreeOrders(fifo, freeOrders, |orders|) && nextSeq == ledger.clock
      ensures ledger == Enlist(old(ledger), ref, side, px, qty) && fifo == old(fifo) + [oi]
      ensures |orders| == old(|orders|) && |levels| == old(|levels|)
    {
      hide Core, StampsKept, FreeOrders;
      ghost var x := Resting(ref, side, px, qty, ledger.clock);
      ghost var live := ledger.live;
      TakeSlot(win, orders, levels, freeLevels, grids, over, fifo, live, reg, freeOrders);
      oi := freeOrders[|freeOrders| - 1];
      freeOrders := freeOrders[..|freeOrders| - 1];
      AppendCore(win, orders, levels, freeLevels, grids, over, fifo, live, reg, oi, x);
      orders := Appended(orders, oi, Order(ref, nextSeq, qty, NONE, NONE, li, side), levels[li].tail);
      levels := levels[li := LevelPlus(levels[li], oi, qty)];
      nextSeq := nextSeq + 1;
      ledger, fifo := Enlist(ledger, ref, side, px, qty), fifo + [oi];
    }

    /** The pools' part of `add`: -1 when there is no order slot or no level for the order. */
    method Link(ref: nat, side: Side, px: nat, qty: nat) returns (oi: int)
      requires Shaped() && ref != 0 && !Has(ledger.live, ref) && qty > 0
      modifies `levels, `freeLevels, `grids, `over, `reg, `orders, `freeOrders, `nextSeq, `fifo, `ledger
      ensures Shaped() && Capacity() == old(Capacity())
      ensures oi < 0 <==> NoRoom(Capacity(), old(ledger).live, side, px)
      ensures if oi < 0 then ledger == old(ledger) && fifo == old(fifo) && Cached() == old(Cached())
              else ledger == Enlist(old(ledger), ref, side, px, qty) && fifo == old(fifo) + [oi]
                   && Cached() == HintsEnter(win, PerLevel, old(Cached()), old(ledger).live, side, px)
    {
      hide Core, StampsKept, FreeOrders, NoneEmpty, WellFormed, NoRoom, HybridHints, Entered;
      RoomLeft(side, px);
      oi := NONE;
      EnlistWellFormed(ledger, ref, side, px, qty);
      ghost var x := Resting(ref, side, px, qty, ledger.clock);
      if |freeOrders| > 0 {
        var li := FindOrCreateLevel(side, px);
        if li >= 0 {
          AppendNoneEmpty(old(reg), ledger.live, x, li);
          oi := Append(ref, side, px, qty, li);
        }
      }
    }

    /** Without a pool slot or level for it the order is dropped; refused by the id table it stays linked but
        can no longer be named. Either way the refusal is counted. */
    method Add(ref: nat, side: Side, px: nat, qty: nat)
      requires Valid() && ref != 0 && !Has(ledger.live, ref)
      modifies this, ids, ids.slots
      ensures Valid() && Capacity() == old(Capacity())
      ensures Holding() == Placed(Capacity(), old(Holding()), ref, side, px, qty)
      ensures rejected == old(rejected) + Refused(Capacity(), old(Holding()), side, px, qty)
      ensures Cached() == if qty == 0 || NoRoom(Capacity(), old(ledger).live, side, px) then old(Cached())
                          else HintsEnter(win, PerLevel, old(Cached()), old(ledger).live, side, px)
    {
      hide Shaped, Located, TableOk, NoRoom, HintsEnter, HybridHints, Distinct, Has;
      ShapedWellFormed();
      if qty == 0 {
        return;
      }
      PlacedCases(Capacity(), Holding(), ref, side, px, qty);
      hide Placed, Refused, Enlist, Recorded, Unrecorded;
      ghost var l, f := ledger, fifo;
      assert ref !in ids.Contents by {
        Unknown(ref);
      }
      var oi := Link(ref, side, px, qty);
      if oi < 0 {
        CountRefusal();
        return;
      }
      Enter(ref, oi, l.live, f);
    }

    /** The id table's part of `add`: a reference it refuses stays unnamed, and the refusal is counted. */
    method Enter(ref: nat, oi: nat, ghost live: seq<Resting>, ghost f: seq<nat>)
      requires Shaped() && ids.Valid() && ref != 0 && ref !in ids.Contents && Distinct(live) && !Has(live, ref)
      requires |ledger.live| == |live| + 1 && ledger.live[..|live|] == live && ledger.live[|live|].ref == ref
      requires Located(ids.Contents, f, live) && fifo == f + [oi]
      modifies `rejected, ids, ids.slots
      ensures Valid() && Capacity() == old(Capacity())
      ensures Holding() == Recorded(Capacity(), old(Holding()), ref)
      ensures rejected == old(rejected) + Unrecorded(Capacity(), old(Holding()))
    {
      hide Shaped, Located, TableOk, Distinct, Has, Enlist, Recorded, Unrecorded;
      ghost var names := ids.Contents.Keys;
      assert ledger.live == live + [ledger.live[|live|]];
      LocatedAppend(ids.Contents, f, live, ledger.live[|live|], oi);
      RecordedCases(Capacity(), Holding(), ref);
      assert |names| == |ids.Contents|;
      var ok := ids.Insert(ref, oi);
      assert ids.Contents.Keys == if ok then names + {ref} else names;
      if !ok {
        CountRefusal();
      }
    }

    method CountRefusal()
      requires Shaped()
      modifies `rejected
      ensures Shaped() && rejected == old(rejected) + 1
    {
      rejected := rejected + 1;
    }

    lemma ShapedWellFormed()
      requires Shaped()
      ensures WellFormed(ledger)
    {
    }

    /** No name leads to an order that is not live. */
    lemma Unknown(ref: nat)
      requires Valid() && !Has(ledger.live, ref)
      ensures ref !in ids.Contents
    {
    }

    lemma SlotOf(i: nat)
      requires Shaped() && i < |ledger.live|
      ensures |fifo| == |ledger.live| && fifo[i] < |orders| && Unique(fifo)
    {
      SlotInPool(orders, fifo, ledger.live, reg, i);
    }

    /** `unlink` and return of the pool slot. */
    method Release(oi: nat, ghost i: nat)
      requires Shaped() && i < |ledger.live| && fifo[i] == oi
      modifies `orders, `levels, `freeLevels, `grids, `over, `reg, `fifo, `ledger, `freeOrders
      ensures Shaped() && Capacity() == old(Capacity())
      ensures ledger == old(ledger).(live := RemoveAt(old(ledger).live, i)) && fifo == RemoveAt(old(fifo), i)
      ensures var r := old(ledger).live[i];
        Cached() == if Orders(ledger.live, r.side, r.px) > 0 then old(Cached())
          else Vacated(win, old(Cached()), r.side, r.px)
    {
      hide Core, StampsKept, FreeOrders, NoneEmpty, WellFormed, Unique, HybridHints, Vacated, Orders;
      SlotOf(i);
      FreeOrdersReturn(fifo, freeOrders, |orders|, i);
      RemoveWellFormed(ledger, i);
      Unlink(oi, i);
      freeOrders := freeOrders + [oi];
    }

    /** `unlink`, return of the pool slot and `ids_.erase`. */
    method Retire(ref: nat, oi: nat)
      requires Valid() && ref != 0 && ref in ids.Contents && oi == ids.Contents[ref]
      modifies this, ids, ids.slots
      ensures Valid() && Capacity() == old(Capacity())
      ensures Holding() == Dropped(old(Holding()), ref) && rejected == old(rejected)
      ensures Cached() == HintsDelist(win, old(Cached()), old(ledger), ref)
    {
      hide Tables, FreeOrders, NoneEmpty, Located, TableOk, Distinct, Stamped, Unique, HybridHints, Vacated;
      ghost var i := IndexOf(ledger.live, ref);
      InPool(ref);
      LocatedRemove(ids.Contents, fifo, ledger.live, i);
      Release(oi, i);
      var found := ids.Erase(ref);
    }

    /** A reference the table does not know changes nothing, even where an order of that name is live. */
    method Remove(ref: nat)
      requires Valid() && ref != 0
      modifies this, ids, ids.slots
      ensures Valid() && Capacity() == old(Capacity())
      ensures Holding() == Dropped(old(Holding()), ref) && rejected == old(rejected)
      ensures Cached() == if ref in old(ids.Contents) then HintsDelist(win, old(Cached()), old(ledger), ref)
        else old(Cached())
    {
      hide Shaped, Located, TableOk, Delist, HintsDelist, HybridHints;
      var at := ids.Find(ref);
      if at < 0 {
        return;
      }
      Retire(ref, ids.slots[at].value);
    }

    /** A replacement of a known order can only fail for want of a level: it has just given back an order slot
        and a table entry. */
    method Replace(oldRef: nat, newRef: nat, px: nat, qty: nat)
      requires Valid() && oldRef != 0 && newRef != 0 && (newRef == oldRef || !Has(ledger.live, newRef))
      modifies this, ids, ids.slots
      ensures Valid() && Capacity() == old(Capacity())
      ensures Holding() == Replaced(Capacity(), old(Holding()), oldRef, newRef, px, qty)
      ensures var h := old(Holding()); var left, at := Dropped(h, oldRef), SideOf(h.ledger.live, oldRef);
        if oldRef !in h.names then rejected == old(rejected) && Cached() == old(Cached())
        else
          && rejected == old(rejected) + Refused(Capacity(), left, at, px, qty)
          && Cached() == if qty > 0 && NoRoom(Capacity(), left.ledger.live, at, px)
                         then HintsDelist(win, old(Cached()), h.ledger, oldRef)
                         else HintsRequeue(win, PerLevel, old(Cached()), h.ledger, oldRef, px, qty)
    {
      hide Shaped, Located, TableOk, Placed, Refused, NoRoom, HintsEnter, HintsDelist, HybridHints, Delist;
      var at := ids.Find(oldRef);
      if at < 0 {
        return;
      }
      var oi := ids.slots[at].value;
      InPool(oldRef);
      var side := orders[oi].side;
      ValidIsShaped();
      DroppedSound(Capacity(), Holding(), oldRef);
      Retire(oldRef, oi);
      Add(newRef, side, px, qty);
    }

    /** The pool slot a known reference leads to. */
    lemma InPool(ref: nat)
      requires Valid() && ref in ids.Contents
      ensures var r := ledger.live[IndexOf(ledger.live, ref)]; var oi: nat := ids.Contents[ref];
        Has(ledger.live, ref) && oi == fifo[IndexOf(ledger.live, ref)] && oi < |orders|
        && orders[oi].side == r.side && orders[oi].qty == r.qty && Unique(fifo)
    {
      SlotInPool(orders, fifo, ledger.live, reg, IndexOf(ledger.live, ref));
    }

    method Reduce(ref: nat, qty: nat)
      requires Valid() && ref != 0
      modifies this, ids, ids.slots
      ensures Valid() && Capacity() == old(Capacity())
      ensures Holding() == Reduced(old(Holding()), ref, qty) && rejected == old(rejected)
      ensures Cached() == if ref in old(ids.Contents) then HintsReduce(win, old(Cached()), old(ledger), ref, qty)
        else old(Cached())
    {
      hide Shaped, Located, TableOk, Delist, Shrink, HintsDelist, HybridHints;
      var at := ids.Find(ref);
      if at < 0 {
        return;
      }
      var oi := ids.slots[at].value;
      InPool(ref);
      var o := orders[oi];
      var take := if qty < o.qty then qty else o.qty;
      if take == o.qty {
        Retire(ref, oi);
        return;
      }
      TakeShares(ref, oi, take);
    }

    /** A part of an order taken: it keeps its place. */
    method TakeShares(ref: nat, oi: nat, take: nat)
      requires Valid() && ref in ids.Contents && oi == ids.Contents[ref] && oi < |orders| && take < orders[oi].qty
      modifies `orders, `levels, `ledger
      ensures Valid() && Capacity() == old(Capacity())
      ensures Holding() == old(Holding()).(ledger := Shrink(old(ledger), ref, take))
    {
      hide Core, StampsKept, FreeOrders, NoneEmpty, Located, TableOk, Distinct, Stamped;
      InPool(ref);
      ghost var i := IndexOf(ledger.live, ref);
      var o := orders[oi];
      ShrinkWellFormed(ledger, ref, take);
      ResizeCore(win, orders, levels, freeLevels, grids, over, fifo, ledger.live, reg, i, take);
      ResizeNoneEmpty(reg, ledger.live, i, o.qty - take);
      LocatedResize(ids.Contents, fifo, ledger.live, i, o.qty - take);
      orders := orders[oi := o.(qty := o.qty - take)];
      levels := levels[o.level := levels[o.level].(qty := levels[o.level].qty - take)];
      ledger := Shrink(ledger, ref, take);
    }

    /** Any acceptable event, in any run, refused or not. */
    method Apply(e: BookEvent)
      requires Valid() && Acceptable(ledger, e)
      modifies this, ids, ids.slots
      ensures Valid() && Capacity() == old(Capacity())
      ensures Holding() == HeldAfter(Capacity(), old(Holding()), e)
      ensures rejected == old(rejected) + Rejections(Capacity(), old(Holding()), e)
      ensures Cached() == HintsAfter(win, PerLevel, old(Cached()), old(ledger), Taken(Capacity(), old(Holding()), e))
      ensures AllNamed(old(Holding())) && rejected == old(rejected) ==>
        AllNamed(Holding()) && ledger == After(old(ledger), e)
    {
      hide Valid, Shaped, Cached, Sound, AllNamed, After, HintsAfter, Taken, HintsEnter, HintsDelist, HintsReduce,
        HintsRequeue, Placed, Dropped, Reduced, Replaced, Refused, NoRoom, Delist;
      ValidIsShaped();
      HeldSound(Capacity(), Holding(), e);
      HintsTaken(win, Cached(), Capacity(), Holding(), e);
      match e.kind {
        case Add => Add(e.ref, e.side, e.px, e.shares);
        case Execute => Reduce(e.ref, e.shares);
        case Cancel => Reduce(e.ref, e.shares);
        case Delete => Remove(e.ref);
        case Replace => Replace(e.ref, e.newRef, e.px, e.shares);
      }
    }

    /** `collect` for one side. */
    method Top(side: Side) returns (out: seq<LevelView>)
      requires Shaped()
      ensures TopLevels(ledger.live, side, out)
    {
      hide Nodes, Levels, FreeLevels, HybridSide, StampsKept, WellFormed, FreeOrders, NoneEmpty, Indexed, HintLive,
        TopPrices, TopLevels, LivePrices, Prices, HybridViewable, HybridView;
      PricesFound(win, orders, grids, over, fifo, ledger.live, reg, side);
      var s := Index(side);
      ghost var keys := Prices(ledger.live, side);
      var ps := MergePrices(side, win, grids[s].bits, Ranked(side, over[s].Keys), keys, over[s].Keys);
      TopPricesIn(side, keys, ps);
      LevelsFound(win, orders, levels, grids[s], over[s], fifo, ledger.live, reg, side, ps);
      out := Views(win, grids[s], over[s], levels, ps);
      PricesLive(ledger.live, side);
      TopPricesGiveLevels(ledger.live, side, keys, ps, out);
    }

    method Snapshot() returns (bid: seq<LevelView>, ask: seq<LevelView>)
      requires Shaped()
      ensures TopLevels(ledger.live, Buy, bid) && TopLevels(ledger.live, Sell, ask)
    {
      bid := Top(Buy);
      ask := Top(Sell);
    }

    /** The queue of the `i`-th live order, as a walk from the head of its level meets it. */
    lemma QueueOf(i: nat)
      requires Shaped() && i < |ledger.live|
      ensures |fifo| == |ledger.live| && fifo[i] < |orders| && 0 <= orders[fifo[i]].level < |levels|
      ensures var r := ledger.live[i]; var c, rank := Chain(fifo, ledger.live, KeyOf(r)), Rank(fifo, ledger.live, i);
        rank < |c| && c[rank] == fifo[i] && levels[orders[fifo[i]].level].head == c[0]
        && (forall k :: 0 <= k < |c| ==> LinkAt(orders, c, k))
        && (forall k :: 0 <= k < rank ==> c[k] != fifo[i])
        && ChainQty(orders, c[..rank]) == Ahead(ledger.live, r.side, r.px, r.stamp)
    {
      QueueFound(orders, levels, fifo, ledger.live, reg, i);
    }

    /** `shares_ahead_of`: the walk from the head of the order's list finds the shares stamped before it. */
    method SharesAheadOf(ref: nat) returns (ahead: nat)
      requires Valid() && ref != 0
      ensures ref !in ids.Contents ==> ahead == 0
      ensures ref in ids.Contents ==> (
        Has(ledger.live, ref)
        && var r := ledger.live[IndexOf(ledger.live, ref)]; ahead == Ahead(ledger.live, r.side, r.px, r.stamp))
    {
      hide Core, StampsKept, FreeOrders, NoneEmpty, Located, WellFormed, TableOk, Chain, Rank, LinkAt, ChainQty, Ahead;
      var at := ids.Find(ref);
      if at < 0 {
        return 0;
      }
      InPool(ref);
      var target := ids.slots[at].value;
      ghost var i := IndexOf(ledger.live, ref);
      QueueOf(i);
      ghost var c, rank := Chain(fifo, ledger.live, KeyOf(ledger.live[i])), Rank(fifo, ledger.live, i);
      ahead := WalkAhead(orders, levels[orders[target].level].head, target, c, rank);
    }

    /** `find_order`: the pool slot of a known order, which shows its stamp, size, side and level; -1 if none. */
    method FindOrder(ref: nat) returns (oi: int)
      requires Valid() && ref != 0
      ensures oi < 0 <==> ref !in ids.Contents
      ensures oi >= 0 ==> (
        Has(ledger.live, ref) && oi < |orders| && 0 <= orders[oi].level < |levels|
        && var r := ledger.live[IndexOf(ledger.live, ref)]; var o := orders[oi];
           o.side == r.side && o.stamp == r.stamp && o.qty == r.qty && levels[o.level].price == r.px)
    {
      hide Nodes, Levels, FreeLevels, HybridSides, StampsKept, FreeOrders, NoneEmpty, Located, WellFormed, TableOk;
      var at := ids.Find(ref);
      if at < 0 {
        return NONE;
      }
      InPool(ref);
      OrderFound(orders, levels, fifo, ledger.live, reg, IndexOf(ledger.live, ref));
      oi := ids.slots[at].value;
    }

    /** Resting shares that `level_for` shows at a price, none without a level. */
    method LevelQty(side: Side, px: nat) returns (qty: nat)
      requires Shaped()
      ensures qty == Shares(ledger.live, side, px)
    {
      hide Nodes, Levels, FreeLevels, HybridSide, StampsKept, WellFormed, FreeOrders, NoneEmpty, Prices;
      LevelFound(win, orders, levels, grids[Index(side)], over[Index(side)], fifo, ledger.live, reg, side, px);
      var li := Lookup(win, grids[Index(side)], over[Index(side)], px);
      qty := if li < 0 then 0 else levels[li].qty;
    }

    method BestPrice(side: Side) returns (r: nat)
      requires Shaped()
      modifies `grids
      ensures Shaped() && (old(Valid()) ==> Valid() && Holding() == old(Holding()) && Capacity() == old(Capacity()))
      ensures Quotes(r, ledger, side) && (TrueBest(r, ledger, side) <==> Tells(win, old(Cached()), ledger, side))
      ensures r == Reported(side, win, Prices(ledger.live, side), HintFor(old(Cached()), side))
      ensures Cached() == HintsLookup(win, old(Cached()), ledger, side)
      ensures grids == old(grids)[Index(side) := old(grids[Index(side)]).(hint := grids[Index(side)].hint)]
    {
      hide Nodes, Levels, FreeLevels, HybridSide, StampsKept, WellFormed, FreeOrders, NoneEmpty, Indexed, HintExact,
        HintLive, Prices, Reported, HintAfterLookup, Quotes, TrueBest, Tells, Answerable;
      PricesFound(win, orders, grids, over, fifo, ledger.live, reg, side);
      var s := Index(side);
      ghost var keys := Prices(ledger.live, side);
      ReportsIff(win, Cached(), ledger, side);
      var h;
      r, h := BestOf(side, win, grids[s].bits, grids[s].hint, over[s].Keys, keys);
      HintKept(win, orders, grids, over, fifo, ledger.live, reg, side, h);
      grids := grids[s := grids[s].(hint := h)];
    }
  }

  ghost function HybridHints(grids: seq<SideGrid>): Hints {
    if |grids| == 2 then Hints(grids[0].hint, grids[1].hint) else NO_HINTS
  }

  /** The cached ticks after the event a book takes, operation by operation. */
  lemma HintsTaken(w: Window, hs: Hints, room: Room, h: Held, e: BookEvent)
    requires Sound(room, h)
    ensures HintsAfter(w, PerLevel, hs, h.ledger, Taken(room, h, e)) ==
      match e.kind {
        case Add => if e.shares == 0 || NoRoom(room, h.ledger.live, e.side, e.px) then hs
                    else HintsEnter(w, PerLevel, hs, h.ledger.live, e.side, e.px)
        case Execute => if e.ref in h.names then HintsReduce(w, hs, h.ledger, e.ref, e.shares) else hs
        case Cancel => if e.ref in h.names then HintsReduce(w, hs, h.ledger, e.ref, e.shares) else hs
        case Delete => if e.ref in h.names then HintsDelist(w, hs, h.ledger, e.ref) else hs
        case Replace =>
          var left, at := Dropped(h, e.ref), SideOf(h.ledger.live, e.ref);
          if e.ref !in h.names then hs
          else if e.shares > 0 && NoRoom(room, left.ledger.live, at, e.px) then HintsDelist(w, hs, h.ledger, e.ref)
          else HintsRequeue(w, PerLevel, hs, h.ledger, e.ref, e.px, e.shares)
      }
  {
    hide NoRoom, HintsEnter, HintsDelist, Delist;
  }
}
