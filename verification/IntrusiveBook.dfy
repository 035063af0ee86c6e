/** The textbook design: pooled FIFO lists, and per side a vector of level indices sorted best price first, searched
    by halving. A level is entered where the search for its price ends and dropped where the search finds it. */
module IntrusiveBooks {
  import opened Ledgers
  import opened Ranking
  import opened Refusals
  import opened OpenHash
  import opened Pools

  // ---- the sorted index vectors ----

  function InsertAt<T>(s: seq<T>, i: nat, x: T): (r: seq<T>)
    requires i <= |s|
    ensures |r| == |s| + 1
  {
    s[..i] + [x] + s[i..]
  }

  ghost predicate IdxAt(v: seq<nat>, levels: seq<Level>, reg: map<Key, nat>, side: Side, i: nat)
    requires i < |v|
  {
    v[i] < |levels| && Key(side, levels[v[i]].price) in reg && reg[Key(side, levels[v[i]].price)] == v[i]
  }

  /** Prices get strictly worse along the vector. */
  ghost predicate Descends(v: seq<nat>, levels: seq<Level>, side: Side) {
    && (forall i :: 0 <= i < |v| ==> v[i] < |levels|)
    && (forall i, j :: 0 <= i < j < |v| ==> Better(side, levels[v[i]].price, levels[v[j]].price))
  }

  /** The vector has exactly one entry per registered level of the side, best price first. */
  ghost predicate IdxOk(v: seq<nat>, levels: seq<Level>, reg: map<Key, nat>, side: Side) {
    && Descends(v, levels, side)
    && (forall i :: 0 <= i < |v| ==> IdxAt(v, levels, reg, side, i))
    && (forall key :: key in reg && key.side == side ==> reg[key] in v)
  }

  /** Where `px` belongs: everything before it is better, nothing from it on is. */
  ghost predicate Bound(v: seq<nat>, levels: seq<Level>, side: Side, px: nat, pos: nat) {
    && pos <= |v|
    && (forall i :: 0 <= i < |v| ==> v[i] < |levels|)
    && (forall i :: 0 <= i < pos ==> Better(side, levels[v[i]].price, px))
    && (forall i :: pos <= i < |v| ==> !Better(side, levels[v[i]].price, px))
  }

  /** `lower_bound_pos`: binary search. */
  method LowerBound(v: seq<nat>, levels: seq<Level>, side: Side, px: nat) returns (lo: nat)
    requires Descends(v, levels, side)
    ensures Bound(v, levels, side, px, lo)
  {
    var hi := |v|;
    lo := 0;
    while lo < hi
      invariant 0 <= lo <= hi <= |v|
      invariant forall i :: 0 <= i < lo ==> Better(side, levels[v[i]].price, px)
      invariant forall i :: hi <= i < |v| ==> !Better(side, levels[v[i]].price, px)
    {
      var mid := (lo + hi) / 2;
      if Better(side, levels[v[mid]].price, px) {
        lo := mid + 1;
      } else {
        hi := mid;
      }
    }
  }

  lemma Within(v: seq<nat>, levels: seq<Level>, side: Side, px: nat, pos: nat)
    requires Bound(v, levels, side, px, pos)
    ensures pos <= |v|
  {
  }

  /** The search finds a registered price at its bound and an unregistered one nowhere. */
  lemma BoundFinds(v: seq<nat>, levels: seq<Level>, reg: map<Key, nat>, side: Side, px: nat, pos: nat)
    requires IdxOk(v, levels, reg, side) && Bound(v, levels, side, px, pos)
    requires forall key :: key in reg ==> reg[key] < |levels| && levels[reg[key]].price == key.px
    ensures Key(side, px) in reg <==> pos < |v| && levels[v[pos]].price == px
    ensures Key(side, px) in reg ==> v[pos] == reg[Key(side, px)]
  {
    if pos < |v| {
      assert IdxAt(v, levels, reg, side, pos);
    }
    if Key(side, px) in reg {
      var i :| 0 <= i < |v| && v[i] == reg[Key(side, px)];
      assert levels[v[i]].price == px;
      assert i >= pos;
    }
  }

  lemma InsertDescends(v: seq<nat>, levels: seq<Level>, side: Side, px: nat, pos: nat, li: nat)
    requires (forall i :: 0 <= i < |v| ==> v[i] < |levels|) && Descends(v, levels, side)
      && Bound(v, levels, side, px, pos)
    requires li < |levels| && forall i :: 0 <= i < |v| ==> v[i] != li && levels[v[i]].price != px
    ensures forall i :: 0 <= i < |InsertAt(v, pos, li)| ==> InsertAt(v, pos, li)[i] < |levels|
    ensures Descends(InsertAt(v, pos, li), levels[li := Level(px, 0, 0, NONE, NONE)], side)
  {
    var u, levels' := InsertAt(v, pos, li), levels[li := Level(px, 0, 0, NONE, NONE)];
    forall i, j | 0 <= i < j < |u|
      ensures u[i] < |levels| && u[j] < |levels| && Better(side, levels'[u[i]].price, levels'[u[j]].price) {
      assert i != pos ==> u[i] == v[if i < pos then i else i - 1];
      assert j != pos ==> u[j] == v[if j < pos then j else j - 1];
    }
  }

  lemma InsertKeepsOrder(v: seq<nat>, levels: seq<Level>, reg: map<Key, nat>, side: Side, px: nat, pos: nat, li: nat)
    requires IdxOk(v, levels, reg, side) && Bound(v, levels, side, px, pos) && Key(side, px) !in reg
    requires forall key :: key in reg ==> reg[key] < |levels| && levels[reg[key]].price == key.px
    requires li < |levels| && forall key :: key in reg ==> reg[key] != li
    ensures IdxOk(InsertAt(v, pos, li), levels[li := Level(px, 0, 0, NONE, NONE)], reg[Key(side, px) := li], side)
  {
    var u, levels', reg' := InsertAt(v, pos, li), levels[li := Level(px, 0, 0, NONE, NONE)], reg[Key(side, px) := li];
    BoundFinds(v, levels, reg, side, px, pos);
    forall i | 0 <= i < |v| ensures v[i] != li && levels[v[i]].price != px {
      assert IdxAt(v, levels, reg, side, i);
    }
    forall i | 0 <= i < |u| ensures IdxAt(u, levels', reg', side, i) {
      if i != pos {
        assert u[i] == v[if i < pos then i else i - 1];
        assert IdxAt(v, levels, reg, side, if i < pos then i else i - 1);
      }
    }
    InsertDescends(v, levels, side, px, pos, li);
    hide IdxAt, Descends;
    forall key | key in reg' && key.side == side ensures reg'[key] in u {
      if key == Key(side, px) {
        assert u[pos] == li;
      } else {
        var i :| 0 <= i < |v| && v[i] == reg[key];
        assert u[if i < pos then i else i + 1] == v[i];
      }
    }
  }

  lemma EraseKeepsOrder(v: seq<nat>, levels: seq<Level>, reg: map<Key, nat>, side: Side, px: nat, pos: nat)
    requires IdxOk(v, levels, reg, side) && Key(side, px) in reg && pos < |v| && v[pos] == reg[Key(side, px)]
    requires forall key :: key in reg ==> reg[key] < |levels| && levels[reg[key]].price == key.px
    ensures IdxOk(RemoveAt(v, pos), levels, reg - {Key(side, px)}, side)
  {
    hide RemoveAt;
    var u, reg' := RemoveAt(v, pos), reg - {Key(side, px)};
    RemoveShifts(v, pos);
    forall i | 0 <= i < |u| ensures IdxAt(u, levels, reg', side, i) {
      assert IdxAt(v, levels, reg, side, if i < pos then i else i + 1);
    }
    EraseKeepsAll(v, levels, reg, side, px, pos);
  }

  lemma RemoveShifts(v: seq<nat>, pos: nat)
    requires pos < |v|
    ensures |RemoveAt(v, pos)| == |v| - 1
    ensures forall i :: 0 <= i < |v| - 1 ==> RemoveAt(v, pos)[i] == v[if i < pos then i else i + 1]
  {
  }

  /** Every other level of the side stays in the vector. */
  lemma EraseKeepsAll(v: seq<nat>, levels: seq<Level>, reg: map<Key, nat>, side: Side, px: nat, pos: nat)
    requires pos < |v| && v[pos] < |levels| && levels[v[pos]].price == px
    requires forall i :: 0 <= i < |v| ==> IdxAt(v, levels, reg, side, i)
    requires forall key :: key in reg ==> reg[key] < |levels| && levels[reg[key]].price == key.px
    requires forall key :: key in reg && key.side == side ==> reg[key] in v
    ensures forall key :: key in reg - {Key(side, px)} && key.side == side ==> reg[key] in RemoveAt(v, pos)
  {
    hide RemoveAt;
    var u := RemoveAt(v, pos);
    RemoveShifts(v, pos);
    forall key | key in reg - {Key(side, px)} && key.side == side ensures reg[key] in u {
      var i :| 0 <= i < |v| && v[i] == reg[key];
      assert u[if i < pos then i else i - 1] == v[i];
    }
  }

  /** A vector whose own levels keep their price is unaffected by what else happens to the pool. */
  lemma IdxElsewhere(v: seq<nat>, levels: seq<Level>, levels': seq<Level>, reg: map<Key, nat>, reg': map<Key, nat>,
                     side: Side)
    requires IdxOk(v, levels, reg, side) && |levels'| == |levels|
    requires forall key: Key :: key.side == side ==>
      (key in reg' <==> key in reg) && (key in reg ==> reg'[key] == reg[key])
    requires forall i :: 0 <= i < |v| && v[i] < |levels| ==> levels'[v[i]].price == levels[v[i]].price
    ensures IdxOk(v, levels', reg', side)
  {
    forall i | 0 <= i < |v| ensures IdxAt(v, levels', reg', side, i) {
      assert IdxAt(v, levels, reg, side, i);
    }
  }

  /** The first ten entries name the best ten prices. */
  lemma IdxTop(v: seq<nat>, levels: seq<Level>, reg: map<Key, nat>, side: Side, ps: seq<nat>)
    requires IdxOk(v, levels, reg, side)
    requires forall key :: key in reg ==> reg[key] < |levels| && levels[reg[key]].price == key.px
    requires |ps| == if |v| < DEPTH then |v| else DEPTH
    requires forall i :: 0 <= i < |ps| ==> v[i] < |levels| && ps[i] == levels[v[i]].price
    ensures TopPrices(side, RegPrices(reg, side), ps)
  {
    RegPricesMean(reg, side);
    forall i | 0 <= i < |ps| ensures ps[i] in RegPrices(reg, side) {
      assert IdxAt(v, levels, reg, side, i);
    }
    forall i | 0 <= i < |ps| ensures levels[v[i]].price in ps {
      assert ps[i] in ps;
    }
    forall px | px in RegPrices(reg, side) && px !in ps ensures |ps| == DEPTH && Better(side, ps[DEPTH - 1], px) {
      var i :| 0 <= i < |v| && v[i] == reg[Key(side, px)];
    }
  }

  // ---- the whole book ----

  /** Lists, pools of levels and index vectors agree with the live orders. */
  ghost predicate Core(orders: seq<Order>, levels: seq<Level>, freeLevels: seq<nat>, bidIdx: seq<nat>, askIdx: seq<nat>,
                       fifo: seq<nat>, live: seq<Resting>, reg: map<Key, nat>) {
    && Nodes(orders, fifo, live, reg)
    && Levels(orders, levels, fifo, live, reg)
    && FreeLevels(reg, freeLevels, |levels|)
    && IdxOk(bidIdx, levels, reg, Buy)
    && IdxOk(askIdx, levels, reg, Sell)
  }

  lemma RegPriced(orders: seq<Order>, levels: seq<Level>, fifo: seq<nat>, live: seq<Resting>, reg: map<Key, nat>)
    requires Levels(orders, levels, fifo, live, reg)
    ensures forall key :: key in reg ==> reg[key] < |levels| && levels[reg[key]].price == key.px
  {
    forall key | key in reg ensures reg[key] < |levels| && levels[reg[key]].price == key.px {
      assert LevelAt(orders, levels, fifo, live, reg[key], key);
    }
  }

  lemma VectorSorted(orders: seq<Order>, levels: seq<Level>, freeLevels: seq<nat>, bidIdx: seq<nat>, askIdx: seq<nat>,
                     fifo: seq<nat>, live: seq<Resting>, reg: map<Key, nat>, side: Side)
    requires Core(orders, levels, freeLevels, bidIdx, askIdx, fifo, live, reg)
    ensures Descends(if side == Buy then bidIdx else askIdx, levels, side)
    ensures forall key :: key in reg ==> reg[key] < |levels| && levels[reg[key]].price == key.px
  {
    RegPriced(orders, levels, fifo, live, reg);
  }

  lemma VectorFinds(orders: seq<Order>, levels: seq<Level>, freeLevels: seq<nat>, bidIdx: seq<nat>, askIdx: seq<nat>,
                    fifo: seq<nat>, live: seq<Resting>, reg: map<Key, nat>, side: Side, px: nat, pos: nat)
    requires Core(orders, levels, freeLevels, bidIdx, askIdx, fifo, live, reg)
    requires Bound(if side == Buy then bidIdx else askIdx, levels, side, px, pos)
    ensures var v := if side == Buy then bidIdx else askIdx;
      pos <= |v| && (pos < |v| ==> v[pos] < |levels|)
      && (Key(side, px) in reg <==> pos < |v| && levels[v[pos]].price == px)
      && (Key(side, px) in reg ==> v[pos] == reg[Key(side, px)])
  {
    RegPriced(orders, levels, fifo, live, reg);
    BoundFinds(if side == Buy then bidIdx else askIdx, levels, reg, side, px, pos);
  }

  lemma EnterCore(orders: seq<Order>, levels: seq<Level>, freeLevels: seq<nat>, bidIdx: seq<nat>, askIdx: seq<nat>,
                  fifo: seq<nat>, live: seq<Resting>, reg: map<Key, nat>, key: Key, pos: nat)
    requires Core(orders, levels, freeLevels, bidIdx, askIdx, fifo, live, reg) && key !in reg && freeLevels != []
    requires Bound(if key.side == Buy then bidIdx else askIdx, levels, key.side, key.px, pos)
    ensures var n := |freeLevels| - 1; var li: nat := freeLevels[n];
      li < |levels|
      && Core(orders, levels[li := Level(key.px, 0, 0, NONE, NONE)], freeLevels[..n],
              if key.side == Buy then InsertAt(bidIdx, pos, li) else bidIdx,
              if key.side == Buy then askIdx else InsertAt(askIdx, pos, li), fifo, live, reg[key := li])
  {
    hide Nodes, FreeLevels, IdxOk, Bound, Levels;
    var li: nat := freeLevels[|freeLevels| - 1];
    FreeLevelsTake(reg, freeLevels, |levels|, key);
    var levels' := levels[li := Level(key.px, 0, 0, NONE, NONE)];
    RegPriced(orders, levels, fifo, live, reg);
    CreateKeeps(orders, levels, fifo, live, reg, key, li);
    InsertKeepsOrder(if key.side == Buy then bidIdx else askIdx, levels, reg, key.side, key.px, pos, li);
    OtherVector(if key.side == Buy then askIdx else bidIdx, levels, levels', reg, reg[key := li],
      Opposite(key.side), li);
  }

  lemma OtherVector(v: seq<nat>, levels: seq<Level>, levels': seq<Level>, reg: map<Key, nat>, reg': map<Key, nat>,
                    side: Side, li: nat)
    requires IdxOk(v, levels, reg, side) && |levels'| == |levels| && forall key :: key in reg ==> reg[key] != li
    requires forall key: Key :: key.side == side ==>
      (key in reg' <==> key in reg) && (key in reg ==> reg'[key] == reg[key])
    requires forall x :: 0 <= x < |levels| && x != li ==> levels'[x] == levels[x]
    ensures IdxOk(v, levels', reg', side)
  {
    forall i | 0 <= i < |v| ensures v[i] != li {
      assert IdxAt(v, levels, reg, side, i);
    }
    IdxElsewhere(v, levels, levels', reg, reg', side);
  }

  lemma LeaveCore(orders: seq<Order>, levels: seq<Level>, freeLevels: seq<nat>, bidIdx: seq<nat>, askIdx: seq<nat>,
                  fifo: seq<nat>, live: seq<Resting>, reg: map<Key, nat>, key: Key, pos: nat)
    requires Core(orders, levels, freeLevels, bidIdx, askIdx, fifo, live, reg)
    requires key in reg && Orders(live, key.side, key.px) == 0
    requires Bound(if key.side == Buy then bidIdx else askIdx, levels, key.side, key.px, pos)
    ensures var v := if key.side == Buy then bidIdx else askIdx;
      pos < |v| && v[pos] == reg[key]
      && Core(orders, levels, freeLevels + [v[pos]],
              if key.side == Buy then RemoveAt(bidIdx, pos) else bidIdx,
              if key.side == Buy then askIdx else RemoveAt(askIdx, pos), fifo, live, reg - {key})
  {
    hide Nodes, FreeLevels, IdxOk, Bound;
    var v := if key.side == Buy then bidIdx else askIdx;
    RegPriced(orders, levels, fifo, live, reg);
    BoundFinds(v, levels, reg, key.side, key.px, pos);
    FreeLevelsReturn(reg, freeLevels, |levels|, key);
    DropKeeps(orders, levels, fifo, live, reg, key);
    EraseKeepsOrder(v, levels, reg, key.side, key.px, pos);
    IdxElsewhere(if key.side == Buy then askIdx else bidIdx, levels, levels, reg, reg - {key},
      Opposite(key.side));
  }

  /** A pool update that leaves every price alone leaves both vectors alone. */
  lemma SamePrices(bidIdx: seq<nat>, askIdx: seq<nat>, levels: seq<Level>, levels': seq<Level>, reg: map<Key, nat>)
    requires IdxOk(bidIdx, levels, reg, Buy) && IdxOk(askIdx, levels, reg, Sell)
    requires |levels'| == |levels| && forall x :: 0 <= x < |levels| ==> levels'[x].price == levels[x].price
    ensures IdxOk(bidIdx, levels', reg, Buy) && IdxOk(askIdx, levels', reg, Sell)
  {
    IdxElsewhere(bidIdx, levels, levels', reg, reg, Buy);
    IdxElsewhere(askIdx, levels, levels', reg, reg, Sell);
  }

  lemma AppendCore(orders: seq<Order>, levels: seq<Level>, freeLevels: seq<nat>, bidIdx: seq<nat>, askIdx: seq<nat>,
                   fifo: seq<nat>, live: seq<Resting>, reg: map<Key, nat>, freeOrders: seq<nat>, x: Resting)
    requires Core(orders, levels, freeLevels, bidIdx, askIdx, fifo, live, reg)
    requires FreeOrders(fifo, freeOrders, |orders|) && freeOrders != [] && KeyOf(x) in reg
    ensures var n := |freeOrders| - 1; var oi, li: nat := freeOrders[n], reg[KeyOf(x)];
      oi < |orders| && li < |levels| && levels[li].tail < |orders| && FreeOrders(fifo + [oi], freeOrders[..n], |orders|)
      && Core(Appended(orders, oi, Order(x.ref, 0, x.qty, NONE, NONE, li, x.side), levels[li].tail),
              levels[li := LevelPlus(levels[li], oi, x.qty)], freeLevels, bidIdx, askIdx, fifo + [oi], live + [x], reg)
  {
    hide Levels, FreeLevels, IdxOk;
    FreeOrdersTake(fifo, freeOrders, |orders|);
    var oi: nat, li: nat := freeOrders[|freeOrders| - 1], reg[KeyOf(x)];
    var o := Order(x.ref, 0, x.qty, NONE, NONE, li, x.side);
    AppendLevels(orders, levels, fifo, live, reg, oi, x, o);
    AppendNodes(orders, fifo, live, reg, oi, x, o, levels[li].tail);
    SamePrices(bidIdx, askIdx, levels, levels[li := LevelPlus(levels[li], oi, x.qty)], reg);
  }

  lemma UnlinkCore(orders: seq<Order>, levels: seq<Level>, freeLevels: seq<nat>, bidIdx: seq<nat>, askIdx: seq<nat>,
                   fifo: seq<nat>, live: seq<Resting>, reg: map<Key, nat>, i: nat)
    requires Core(orders, levels, freeLevels, bidIdx, askIdx, fifo, live, reg) && i < |live|
    ensures |fifo| == |live| && fifo[i] < |orders| && KeyOf(live[i]) in reg && reg[KeyOf(live[i])] < |levels|
    ensures orders[fifo[i]].prev < |orders| && orders[fifo[i]].next < |orders|
    ensures orders[fifo[i]].side == live[i].side && orders[fifo[i]].level == reg[KeyOf(live[i])]
    ensures var o, L := orders[fifo[i]], levels[reg[KeyOf(live[i])]];
      L.qty >= o.qty && L.orders >= 1 && L.orders == Orders(live, live[i].side, live[i].px)
      && Core(Unlinked(orders, fifo[i]), levels[reg[KeyOf(live[i])] := LevelMinus(L, o)], freeLevels, bidIdx, askIdx,
              RemoveAt(fifo, i), RemoveAt(live, i), reg)
  {
    assert NodeAt(orders, fifo, live, reg, i);
    assert LevelAt(orders, levels, fifo, live, reg[KeyOf(live[i])], KeyOf(live[i]));
    hide Nodes, Levels, FreeLevels, IdxOk;
    UnlinkNodes(orders, levels, fifo, live, reg, i);
    UnlinkLevels(orders, levels, fifo, live, reg, i);
    var o, li := orders[fifo[i]], reg[KeyOf(live[i])];
    SamePrices(bidIdx, askIdx, levels, levels[li := LevelMinus(levels[li], o)], reg);
  }

  lemma ResizeCore(orders: seq<Order>, levels: seq<Level>, freeLevels: seq<nat>, bidIdx: seq<nat>, askIdx: seq<nat>,
                   fifo: seq<nat>, live: seq<Resting>, reg: map<Key, nat>, i: nat, take: nat)
    requires Core(orders, levels, freeLevels, bidIdx, askIdx, fifo, live, reg) && i < |live| && take <= live[i].qty
    ensures |fifo| == |live| && fifo[i] < |orders| && KeyOf(live[i]) in reg && reg[KeyOf(live[i])] < |levels|
    ensures orders[fifo[i]].qty == live[i].qty && orders[fifo[i]].level == reg[KeyOf(live[i])]
    ensures levels[reg[KeyOf(live[i])]].qty >= take
    ensures var li: nat := reg[KeyOf(live[i])];
      Core(orders[fifo[i] := orders[fifo[i]].(qty := live[i].qty - take)],
           levels[li := levels[li].(qty := levels[li].qty - take)], freeLevels, bidIdx, askIdx, fifo,
           live[i := live[i].(qty := live[i].qty - take)], reg)
  {
    hide Nodes, Levels, FreeLevels, IdxOk;
    NodeIs(orders, fifo, live, reg, i);
    ResizeKeeps(orders, levels, fifo, live, reg, i, take);
    var li := reg[KeyOf(live[i])];
    SamePrices(bidIdx, askIdx, levels, levels[li := levels[li].(qty := levels[li].qty - take)], reg);
  }

  lemma NodeIs(orders: seq<Order>, fifo: seq<nat>, live: seq<Resting>, reg: map<Key, nat>, i: nat)
    requires Nodes(orders, fifo, live, reg) && i < |live|
    ensures |fifo| == |live| && NodeAt(orders, fifo, live, reg, i)
  {
  }

  /** The loop of `snapshot` for one side: the first ten entries of its vector. */
  method Entries(v: seq<nat>, levels: seq<Level>, side: Side) returns (out: seq<LevelView>)
    requires Descends(v, levels, side)
    ensures Copied(v, levels, out)
  {
    out := [];
    while |out| < |v| && |out| < DEPTH
      invariant |out| <= |v| && |out| <= DEPTH
      invariant forall i :: 0 <= i < |out| ==>
        out[i] == LevelView(levels[v[i]].price, levels[v[i]].qty, levels[v[i]].orders)
    {
      var L := levels[v[|out|]];
      out := out + [LevelView(L.price, L.qty, L.orders)];
    }
  }

  ghost predicate Copied(v: seq<nat>, levels: seq<Level>, out: seq<LevelView>) {
    && |out| == (if |v| < DEPTH then |v| else DEPTH)
    && (forall i :: 0 <= i < |out| ==> v[i] < |levels|)
    && (forall i :: 0 <= i < |out| ==> out[i] == LevelView(levels[v[i]].price, levels[v[i]].qty, levels[v[i]].orders))
  }

  lemma EntryAt(orders: seq<Order>, levels: seq<Level>, fifo: seq<nat>, live: seq<Resting>, reg: map<Key, nat>,
                v: seq<nat>, side: Side, i: nat)
    requires Levels(orders, levels, fifo, live, reg) && IdxOk(v, levels, reg, side) && i < |v|
    ensures v[i] < |levels|
    ensures levels[v[i]].qty == Shares(live, side, levels[v[i]].price)
    ensures levels[v[i]].orders == Orders(live, side, levels[v[i]].price)
  {
    assert IdxAt(v, levels, reg, side, i);
    assert LevelAt(orders, levels, fifo, live, v[i], Key(side, levels[v[i]].price));
  }

  lemma EntriesTop(orders: seq<Order>, levels: seq<Level>, freeLevels: seq<nat>, bidIdx: seq<nat>, askIdx: seq<nat>,
                   fifo: seq<nat>, live: seq<Resting>, reg: map<Key, nat>, side: Side, out: seq<LevelView>)
    requires Core(orders, levels, freeLevels, bidIdx, askIdx, fifo, live, reg) && NoneEmpty(reg, live)
    requires Copied(if side == Buy then bidIdx else askIdx, levels, out)
    ensures TopLevels(live, side, out)
  {
    hide Nodes, Levels, FreeLevels, IdxOk, NoneEmpty, RegPrices, Prices;
    var v := if side == Buy then bidIdx else askIdx;
    var ps := seq(|out|, i requires 0 <= i < |out| => out[i].price);
    RegPriced(orders, levels, fifo, live, reg);
    RegMeans(orders, fifo, live, reg);
    IdxTop(v, levels, reg, side, ps);
    hide TopPrices, TopLevels, LivePrices;
    PricesLive(live, side);
    forall i | 0 <= i < |ps| ensures out[i] == LevelView(ps[i], Shares(live, side, ps[i]), Orders(live, side, ps[i])) {
      EntryAt(orders, levels, fifo, live, reg, v, side, i);
    }
    TopPricesGiveLevels(live, side, Prices(live, side), ps, out);
  }

  /** The front of a side's vector is its best price. */
  lemma FrontLeads(orders: seq<Order>, levels: seq<Level>, fifo: seq<nat>, live: seq<Resting>, reg: map<Key, nat>,
                   v: seq<nat>, side: Side)
    requires Nodes(orders, fifo, live, reg) && Levels(orders, levels, fifo, live, reg) && NoneEmpty(reg, live)
    requires IdxOk(v, levels, reg, side)
    ensures if v == [] then Prices(live, side) == {}
            else v[0] < |levels| && IsBest(side, Prices(live, side), levels[v[0]].price)
  {
    hide Nodes, Levels, NoneEmpty, Prices, RegPrices;
    RegMeans(orders, fifo, live, reg);
    RegPricesMean(reg, side);
    RegPriced(orders, levels, fifo, live, reg);
    if v != [] {
      assert IdxAt(v, levels, reg, side, 0);
    }
    forall px | px in Prices(live, side)
      ensures v != [] && (px == levels[v[0]].price || Better(side, levels[v[0]].price, px)) {
      var i :| 0 <= i < |v| && v[i] == reg[Key(side, px)];
      assert levels[v[i]].price == px;
    }
  }

  class IntrusiveBook {
    const ids: OpenHashMap<nat>
    var orders: seq<Order>
    var levels: seq<Level>
    var freeOrders: seq<nat>
    var freeLevels: seq<nat>
    var bidIdx: seq<nat>
    var askIdx: seq<nat>
    var rejected: nat
    var levelCreates: nat
    var levelDestroys: nat
    ghost var ledger: Ledger
    ghost var fifo: seq<nat>
    ghost var reg: map<Key, nat>

    /** Since the start, levels created less levels destroyed are the levels in use. */
    ghost predicate Tables()
      reads this
    {
      && Core(orders, levels, freeLevels, bidIdx, askIdx, fifo, ledger.live, reg)
      && levelCreates - levelDestroys == |reg|
    }

    ghost predicate Shaped()
      reads this
    {
      Tables() && NoneEmpty(reg, ledger.live) && FreeOrders(fifo, freeOrders, |orders|) && WellFormed(ledger)
    }

    /** The id table leads to live orders; those it has refused are live without a name. */
    ghost predicate Valid()
      reads this, ids, ids.slots
    {
      Shaped() && ids.Valid() && Located(ids.Contents, fifo, ledger.live)
    }

    ghost function Capacity(): Room
      reads this
    {
      Room(|orders|, |levels|, ids.Limit())
    }

    /** The linked orders and the names known for them. */
    ghost function Holding(): Held
      reads this, ids
    {
      Held(ledger, ids.Contents.Keys)
    }

    constructor (maxOrders: nat, maxLevels: nat, hash: nat -> nat)
      requires maxOrders > 0
      ensures Valid() && Holding() == NOTHING_HELD && rejected == 0 && fresh(ids) && fresh(ids.slots)
      ensures Capacity() == Room(maxOrders, maxLevels, maxOrders * 7 / 10)
    {
      ids := new OpenHashMap(maxOrders, hash, 0);
      orders := seq(maxOrders, _ => BLANK_ORDER);
      levels := seq(maxLevels, _ => BLANK_LEVEL);
      freeOrders, freeLevels := Countdown(maxOrders), Countdown(maxLevels);
      bidIdx, askIdx := [], [];
      rejected, levelCreates, levelDestroys := 0, 0, 0;
      ledger, fifo, reg := START, [], map[];
      new;
      hide Nodes, Levels;
      EmptyPools(orders, levels);
    }

    lemma ValidIsShaped()
      requires Valid()
      ensures Shaped() && Sound(Capacity(), Holding())
    {
      assert |ids.Contents.Keys| == |ids.Contents|;
    }

    /** A level is registered if it has orders, and the free lists run out exactly with the capacity. */
    lemma RoomLeft(side: Side, px: nat)
      requires Shaped()
      ensures Key(side, px) in reg <==> Orders(ledger.live, side, px) > 0
      ensures NoRoom(Capacity(), ledger.live, side, px)
          <==> freeOrders == [] || (Orders(ledger.live, side, px) == 0 && freeLevels == [])
    {
      RegSize(orders, fifo, ledger.live, reg);
      Registered(orders, fifo, ledger.live, reg, side, px);
    }

    /** `levels_in_use`: equals creations less destructions, and the number of live levels. */
    lemma LevelsInUse()
      requires Shaped()
      ensures |levels| - |freeLevels| == levelCreates - levelDestroys == |reg|
      ensures forall side, px :: Key(side, px) in reg <==> Orders(ledger.live, side, px) > 0
    {
      RegMeans(orders, fifo, ledger.live, reg);
    }

    method FindOrCreateLevel(side: Side, px: nat) returns (li: int)
      requires Tables()
      modifies `levels, `freeLevels, `bidIdx, `askIdx, `levelCreates, `reg
      ensures Tables() && |levels| == old(|levels|)
      ensures var key := Key(side, px);
        if key in old(reg) then reg == old(reg) && li == reg[key]
        else if old(freeLevels) == [] then li == NONE && reg == old(reg)
        else li >= 0 && reg == old(reg)[key := li]
    {
      hide Core, Bound, Descends;
      ghost var live := ledger.live;
      var v := if side == Buy then bidIdx else askIdx;
      VectorSorted(orders, levels, freeLevels, bidIdx, askIdx, fifo, live, reg, side);
      var pos := LowerBound(v, levels, side, px);
      VectorFinds(orders, levels, freeLevels, bidIdx, askIdx, fifo, live, reg, side, px, pos);
      if pos < |v| && levels[v[pos]].price == px {
        return v[pos];
      }
      if |freeLevels| == 0 {
        return NONE;
      }
      li := CreateLevel(side, px, pos);
    }

    /** A fresh level, entered in its side's vector where the search ended. */
    method CreateLevel(side: Side, px: nat, pos: nat) returns (li: int)
      requires Tables() && Key(side, px) !in reg && freeLevels != []
      requires Bound(if side == Buy then bidIdx else askIdx, levels, side, px, pos)
      modifies `levels, `freeLevels, `bidIdx, `askIdx, `levelCreates, `reg
      ensures Tables() && |levels| == old(|levels|) && li >= 0 && reg == old(reg)[Key(side, px) := li]
    {
      hide Core, Bound, InsertAt;
      Within(if side == Buy then bidIdx else askIdx, levels, side, px, pos);
      EnterCore(orders, levels, freeLevels, bidIdx, askIdx, fifo, ledger.live, reg, Key(side, px), pos);
      var at: nat := freeLevels[|freeLevels| - 1];
      freeLevels := freeLevels[..|freeLevels| - 1];
      levels := levels[at := Level(px, 0, 0, NONE, NONE)];
      levelCreates := levelCreates + 1;
      if side == Buy {
        bidIdx := InsertAt(bidIdx, pos, at);
      } else {
        askIdx := InsertAt(askIdx, pos, at);
      }
      reg := reg[Key(side, px) := at];
      li := at;
    }

    /** `drop_level`: the search always finds the level it is to drop, so none is ever leaked. */
    method DropLevel(side: Side, li: nat, ghost key: Key)
      requires Tables() && key in reg && li == reg[key] && key.side == side && li < |levels|
      requires Orders(ledger.live, key.side, key.px) == 0
      modifies `freeLevels, `bidIdx, `askIdx, `levelDestroys, `reg
      ensures Tables() && reg == old(reg) - {key}
    {
      hide Core, Bound, Descends;
      ghost var live := ledger.live;
      var v := if side == Buy then bidIdx else askIdx;
      VectorSorted(orders, levels, freeLevels, bidIdx, askIdx, fifo, live, reg, side);
      var pos := LowerBound(v, levels, side, levels[li].price);
      LeaveCore(orders, levels, freeLevels, bidIdx, askIdx, fifo, live, reg, key, pos);
      if pos < |v| && v[pos] == li {
        levelDestroys := levelDestroys + 1;
        if side == Buy {
          bidIdx := RemoveAt(bidIdx, pos);
        } else {
          askIdx := RemoveAt(askIdx, pos);
        }
        freeLevels := freeLevels + [li];
      }
      reg := reg - {key};
    }

    method Unlink(oi: nat, ghost i: nat)
      requires Tables() && NoneEmpty(reg, ledger.live) && i < |ledger.live| && fifo[i] == oi
      modifies `orders, `levels, `freeLevels, `bidIdx, `askIdx, `levelDestroys, `reg, `fifo, `ledger
      ensures Tables() && NoneEmpty(reg, ledger.live) && |orders| == old(|orders|) && |levels| == old(|levels|)
      ensures ledger == old(ledger).(live := RemoveAt(old(ledger).live, i)) && fifo == RemoveAt(old(fifo), i)
    {
      hide Core, NoneEmpty, Orders;
      ghost var live := ledger.live;
      RemoveNoneEmpty(reg, live, i);
      UnlinkCore(orders, levels, freeLevels, bidIdx, askIdx, fifo, live, reg, i);
      var o := orders[oi];
      var L := levels[o.level];
      orders := Unlinked(orders, oi);
      levels := levels[o.level := LevelMinus(L, o)];
      ledger, fifo := ledger.(live := RemoveAt(live, i)), RemoveAt(fifo, i);
      if levels[o.level].orders == 0 {
        DropLevel(o.side, o.level, KeyOf(live[i]));
      }
    }

    method Append(ref: nat, side: Side, px: nat, qty: nat, li: nat) returns (oi: nat)
      requires Tables() && FreeOrders(fifo, freeOrders, |orders|) && freeOrders != [] && qty > 0
      requires Key(side, px) in reg && reg[Key(side, px)] == li
      modifies `orders, `levels, `freeOrders, `fifo, `ledger
      ensures Tables() && FreeOrders(fifo, freeOrders, |orders|)
      ensures ledger == Enlist(old(ledger), ref, side, px, qty) && fifo == old(fifo) + [oi]
      ensures |orders| == old(|orders|) && |levels| == old(|levels|)
    {
      hide Core, FreeOrders;
      ghost var x := Resting(ref, side, px, qty, ledger.clock);
      AppendCore(orders, levels, freeLevels, bidIdx, askIdx, fifo, ledger.live, reg, freeOrders, x);
      oi := freeOrders[|freeOrders| - 1];
      freeOrders := freeOrders[..|freeOrders| - 1];
      orders := Appended(orders, oi, Order(ref, 0, qty, NONE, NONE, li, side), levels[li].tail);
      levels := levels[li := LevelPlus(levels[li], oi, qty)];
      ledger, fifo := Enlist(ledger, ref, side, px, qty), fifo + [oi];
    }

    /** The pools' part of `add`: -1 when there is no order slot or no level for the order. */
    method Link(ref: nat, side: Side, px: nat, qty: nat) returns (oi: int)
      requires Shaped() && ref != 0 && !Has(ledger.live, ref) && qty > 0
      modifies `levels, `freeLevels, `bidIdx, `askIdx, `levelCreates, `reg, `orders, `freeOrders, `fifo, `ledger
      ensures Shaped() && Capacity() == old(Capacity())
      ensures oi < 0 <==> NoRoom(Capacity(), old(ledger).live, side, px)
      ensures if oi < 0 then ledger == old(ledger) && fifo == old(fifo)
              else ledger == Enlist(old(ledger), ref, side, px, qty) && fifo == old(fifo) + [oi]
    {
      hide Core, FreeOrders, NoneEmpty, WellFormed, NoRoom;
      RoomLeft(side, px);
      if |freeOrders| == 0 {
        return NONE;
      }
      EnlistWellFormed(ledger, ref, side, px, qty);
      ghost var x := Resting(ref, side, px, qty, ledger.clock);
      var li := FindOrCreateLevel(side, px);
      if li < 0 {
        return NONE;
      }
      AppendNoneEmpty(old(reg), ledger.live, x, li);
      oi := Append(ref, side, px, qty, li);
    }

    /** Refusals as in the grid design: dropped without a slot or level, unnamed without a table entry. */
    method Add(ref: nat, side: Side, px: nat, qty: nat)
      requires Valid() && ref != 0 && !Has(ledger.live, ref)
      modifies this, ids, ids.slots
      ensures Valid() && Capacity() == old(Capacity())
      ensures Holding() == Placed(Capacity(), old(Holding()), ref, side, px, qty)
      ensures rejected == old(rejected) + Refused(Capacity(), old(Holding()), side, px, qty)
    {
      hide Shaped, Located, TableOk, NoRoom, Distinct, Has;
      ShapedWellFormed();
      if qty == 0 {
        return;
      }
      PlacedCases(Capacity(), Holding(), ref, side, px, qty);
      hide Placed, Refused, Enlist, Recorded, Unrecorded;
      ghost var l, f := ledger, fifo;
      assert ref !in ids.Contents by {
        Unknown(ref);
      }
      var oi := Link(ref, side, px, qty);
      if oi < 0 {
        CountRefusal();
        return;
      }
      Enter(ref, oi, l.live, f);
    }

    /** The id table's part of `add`: a reference it refuses stays unnamed, and the refusal is counted. */
    method Enter(ref: nat, oi: nat, ghost live: seq<Resting>, ghost f: seq<nat>)
      requires Shaped() && ids.Valid() && ref != 0 && ref !in ids.Contents && Distinct(live) && !Has(live, ref)
      requires |ledger.live| == |live| + 1 && ledger.live[..|live|] == live && ledger.live[|live|].ref == ref
      requires Located(ids.Contents, f, live) && fifo == f + [oi]
      modifies `rejected, ids, ids.slots
      ensures Valid() && Capacity() == old(Capacity())
      ensures Holding() == Recorded(Capacity(), old(Holding()), ref)
      ensures rejected == old(rejected) + Unrecorded(Capacity(), old(Holding()))
    {
      hide Shaped, Located, TableOk, Distinct, Has, Enlist, Recorded, Unrecorded;
      ghost var names := ids.Contents.Keys;
      assert ledger.live == live + [ledger.live[|live|]];
      LocatedAppend(ids.Contents, f, live, ledger.live[|live|], oi);
      RecordedCases(Capacity(), Holding(), ref);
      assert |names| == |ids.Contents|;
      var ok := ids.Insert(ref, oi);
      assert ids.Contents.Keys == if ok then names + {ref} else names;
      if !ok {
        CountRefusal();
      }
    }

    method CountRefusal()
      requires Shaped()
      modifies `rejected
      ensures Shaped() && rejected == old(rejected) + 1
    {
      rejected := rejected + 1;
    }

    lemma ShapedWellFormed()
      requires Shaped()
      ensures WellFormed(ledger)
    {
    }

    /** No name leads to an order that is not live. */
    lemma Unknown(ref: nat)
      requires Valid() && !Has(ledger.live, ref)
      ensures ref !in ids.Contents
    {
    }

    lemma SlotOf(i: nat)
      requires Shaped() && i < |ledger.live|
      ensures |fifo| == |ledger.live| && fifo[i] < |orders| && Unique(fifo)
    {
      SlotInPool(orders, fifo, ledger.live, reg, i);
    }

    method Release(oi: nat, ghost i: nat)
      requires Shaped() && i < |ledger.live| && fifo[i] == oi
      modifies `orders, `levels, `freeLevels, `bidIdx, `askIdx, `levelDestroys, `reg, `fifo, `ledger, `freeOrders
      ensures Shaped() && Capacity() == old(Capacity())
      ensures ledger == old(ledger).(live := RemoveAt(old(ledger).live, i)) && fifo == RemoveAt(old(fifo), i)
    {
      hide Core, FreeOrders, NoneEmpty, WellFormed, Unique;
      SlotOf(i);
      FreeOrdersReturn(fifo, freeOrders, |orders|, i);
      RemoveWellFormed(ledger, i);
      Unlink(oi, i);
      freeOrders := freeOrders + [oi];
    }

    method Retire(ref: nat, oi: nat)
      requires Valid() && ref != 0 && ref in ids.Contents && oi == ids.Contents[ref]
      modifies this, ids, ids.slots
      ensures Valid() && Capacity() == old(Capacity())
      ensures Holding() == Dropped(old(Holding()), ref) && rejected == old(rejected)
    {
      hide Tables, FreeOrders, NoneEmpty, Located, TableOk, Distinct, Stamped, Unique;
      ghost var i := IndexOf(ledger.live, ref);
      InPool(ref);
      LocatedRemove(ids.Contents, fifo, ledger.live, i);
      Release(oi, i);
      var found := ids.Erase(ref);
    }

    /** The pool slot a known reference leads to. */
    lemma InPool(ref: nat)
      requires Valid() && ref in ids.Contents
      ensures var r := ledger.live[IndexOf(ledger.live, ref)]; var oi: nat := ids.Contents[ref];
        Has(ledger.live, ref) && oi == fifo[IndexOf(ledger.live, ref)] && oi < |orders|
        && orders[oi].side == r.side && orders[oi].qty == r.qty
    {
      SlotInPool(orders, fifo, ledger.live, reg, IndexOf(ledger.live, ref));
    }

    /** A reference the table does not know changes nothing, even where an order of that name is live. */
    method Remove(ref: nat)
      requires Valid() && ref != 0
      modifies this, ids, ids.slots
      ensures Valid() && Capacity() == old(Capacity())
      ensures Holding() == Dropped(old(Holding()), ref) && rejected == old(rejected)
    {
      hide Shaped, Located, TableOk, Delist;
      var at := ids.Find(ref);
      if at < 0 {
        return;
      }
      Retire(ref, ids.slots[at].value);
    }

    /** A replacement of a known order can only fail for want of a level. */
    method Replace(oldRef: nat, newRef: nat, px: nat, qty: nat)
      requires Valid() && oldRef != 0 && newRef != 0 && (newRef == oldRef || !Has(ledger.live, newRef))
      modifies this, ids, ids.slots
      ensures Valid() && Capacity() == old(Capacity())
      ensures Holding() == Replaced(Capacity(), old(Holding()), oldRef, newRef, px, qty)
      ensures var h := old(Holding());
        rejected == old(rejected) + if oldRef !in h.names then 0
                                    else Refused(Capacity(), Dropped(h, oldRef), SideOf(h.ledger.live, oldRef), px, qty)
    {
      hide Shaped, Located, TableOk, Placed, Refused, Delist;
      var at := ids.Find(oldRef);
      if at < 0 {
        return;
      }
      var oi := ids.slots[at].value;
      InPool(oldRef);
      var side := orders[oi].side;
      ValidIsShaped();
      DroppedSound(Capacity(), Holding(), oldRef);
      Retire(oldRef, oi);
      Add(newRef, side, px, qty);
    }

    method Reduce(ref: nat, qty: nat)
      requires Valid() && ref != 0
      modifies this, ids, ids.slots
      ensures Valid() && Capacity() == old(Capacity())
      ensures Holding() == Reduced(old(Holding()), ref, qty) && rejected == old(rejected)
    {
      hide Shaped, Located, TableOk, Delist, Shrink;
      var at := ids.Find(ref);
      if at < 0 {
        return;
      }
      var oi := ids.slots[at].value;
      InPool(ref);
      var o := orders[oi];
      var take := if qty < o.qty then qty else o.qty;
      if take == o.qty {
        Retire(ref, oi);
        return;
      }
      TakeShares(ref, oi, take);
    }

    /** A part of an order taken: it keeps its place. */
    method TakeShares(ref: nat, oi: nat, take: nat)
      requires Valid() && ref in ids.Contents && oi == ids.Contents[ref] && oi < |orders| && take < orders[oi].qty
      modifies `orders, `levels, `ledger
      ensures Valid() && Capacity() == old(Capacity())
      ensures Holding() == old(Holding()).(ledger := Shrink(old(ledger), ref, take))
    {
      hide Core, FreeOrders, NoneEmpty, Located, TableOk, Distinct, Stamped;
      InPool(ref);
      ghost var i := IndexOf(ledger.live, ref);
      var o := orders[oi];
      ShrinkWellFormed(ledger, ref, take);
      ResizeCore(orders, levels, freeLevels, bidIdx, askIdx, fifo, ledger.live, reg, i, take);
      ResizeNoneEmpty(reg, ledger.live, i, o.qty - take);
      LocatedResize(ids.Contents, fifo, ledger.live, i, o.qty - take);
      orders := orders[oi := o.(qty := o.qty - take)];
      levels := levels[o.level := levels[o.level].(qty := levels[o.level].qty - take)];
      ledger := Shrink(ledger, ref, take);
    }

    /** Any acceptable event, in any run, refused or not. */
    method Apply(e: BookEvent)
      requires Valid() && Acceptable(ledger, e)
      modifies this, ids, ids.slots
      ensures Valid() && Capacity() == old(Capacity())
      ensures Holding() == HeldAfter(Capacity(), old(Holding()), e)
      ensures rejected == old(rejected) + Rejections(Capacity(), old(Holding()), e)
      ensures AllNamed(old(Holding())) && rejected == old(rejected) ==>
        AllNamed(Holding()) && ledger == After(old(ledger), e)
    {
      hide Valid, Shaped, Sound, AllNamed, After, Placed, Dropped, Reduced, Replaced, Refused, Delist;
      ValidIsShaped();
      HeldSound(Capacity(), Holding(), e);
      match e.kind {
        case Add => Add(e.ref, e.side, e.px, e.shares);
        case Execute => Reduce(e.ref, e.shares);
        case Cancel => Reduce(e.ref, e.shares);
        case Delete => Remove(e.ref);
        case Replace => Replace(e.ref, e.newRef, e.px, e.shares);
      }
    }

    method Top(side: Side) returns (out: seq<LevelView>)
      requires Shaped()
      ensures TopLevels(ledger.live, side, out)
    {
      hide Core, NoneEmpty, FreeOrders, WellFormed, TopLevels;
      VectorSorted(orders, levels, freeLevels, bidIdx, askIdx, fifo, ledger.live, reg, side);
      out := Entries(if side == Buy then bidIdx else askIdx, levels, side);
      EntriesTop(orders, levels, freeLevels, bidIdx, askIdx, fifo, ledger.live, reg, side, out);
    }

    /** `best_bid` and `best_ask`: the front of the side's vector. */
    method BestPrice(side: Side) returns (r: nat)
      requires Shaped()
      ensures var keys := Prices(ledger.live, side); if keys == {} then r == 0 else IsBest(side, keys, r)
    {
      var v := if side == Buy then bidIdx else askIdx;
      FrontLeads(orders, levels, fifo, ledger.live, reg, v, side);
      r := if |v| == 0 then 0 else levels[v[0]].price;
    }

    method Snapshot() returns (bid: seq<LevelView>, ask: seq<LevelView>)
      requires Shaped()
      ensures TopLevels(ledger.live, Buy, bid) && TopLevels(ledger.live, Sell, ask)
    {
      bid := Top(Buy);
      ask := Top(Sell);
    }
  }
}
