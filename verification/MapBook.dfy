/** The reference design: a map from price to aggregate per side and a map from order id to record. Everything the
    other designs show is compared with what this one shows. */
module MapBooks {
  import opened Ledgers
  import opened Ranking

  datatype Rec = Rec(px: nat, qty: nat, side: Side)

  datatype Agg = Agg(qty: nat, orders: nat)

  /** The record map names exactly the live orders. */
  ghost predicate Records(orders: map<nat, Rec>, live: seq<Resting>) {
    && (forall ref :: ref in orders <==> Has(live, ref))
    && (forall i :: 0 <= i < |live| ==>
          live[i].ref in orders && orders[live[i].ref] == Rec(live[i].px, live[i].qty, live[i].side))
  }

  lemma RecordsAt(orders: map<nat, Rec>, live: seq<Resting>, ref: nat)
    requires Records(orders, live)
    ensures ref in orders <==> Has(live, ref)
    ensures ref in orders ==> var r := live[IndexOf(live, ref)]; orders[ref] == Rec(r.px, r.qty, r.side)
  {
  }

  lemma RecordsRemove(orders: map<nat, Rec>, live: seq<Resting>, i: nat)
    requires Records(orders, live) && Distinct(live) && i < |live|
    ensures Records(orders - {live[i].ref}, RemoveAt(live, i))
  {
    RemoveDistinct(live, i);
    var m := RemoveAt(live, i);
    forall j | 0 <= j < |m|
      ensures m[j].ref in orders - {live[i].ref} && orders[m[j].ref] == Rec(m[j].px, m[j].qty, m[j].side)
    {
      var k := if j < i then j else j + 1;
      assert m[j] == live[k];
    }
  }

  lemma RecordsAppend(orders: map<nat, Rec>, live: seq<Resting>, x: Resting)
    requires Records(orders, live) && !Has(live, x.ref)
    ensures Records(orders[x.ref := Rec(x.px, x.qty, x.side)], live + [x])
  {
    HasAppend(live, x);
  }

  lemma RecordsResize(orders: map<nat, Rec>, live: seq<Resting>, i: nat, qty: nat)
    requires Records(orders, live) && Distinct(live) && i < |live|
    ensures Records(orders[live[i].ref := orders[live[i].ref].(qty := qty)], live[i := live[i].(qty := qty)])
  {
    HasResize(live, i, qty);
  }

  ghost predicate AggregateAt(m: map<nat, Agg>, live: seq<Resting>, side: Side, px: nat) {
    && (px in m <==> Orders(live, side, px) > 0)
    && (px in m ==> m[px] == Agg(Shares(live, side, px), Orders(live, side, px)))
  }

  /** A side's aggregates: one entry per live level, holding its total and its order count. */
  ghost predicate Aggregates(m: map<nat, Agg>, live: seq<Resting>, side: Side) {
    forall px :: AggregateAt(m, live, side, px)
  }

  lemma AggregatedPrices(m: map<nat, Agg>, live: seq<Resting>, side: Side)
    requires Aggregates(m, live, side)
    ensures m.Keys == Prices(live, side)
  {
    PricesLive(live, side);
    forall px ensures px in m.Keys <==> px in Prices(live, side) {
      assert AggregateAt(m, live, side, px);
    }
  }

  /** The best ten entries of a side's map are its top levels. */
  lemma RankedTop(m: map<nat, Agg>, live: seq<Resting>, side: Side, prices: seq<nat>, out: seq<LevelView>)
    requires Aggregates(m, live, side) && prices == Ranked(side, m.Keys)
    requires |out| == if |prices| < DEPTH then |prices| else DEPTH
    requires forall i :: 0 <= i < |out| ==>
      prices[i] in m && out[i] == LevelView(prices[i], m[prices[i]].qty, m[prices[i]].orders)
    ensures TopLevels(live, side, out)
  {
    forall i | 0 <= i < |out|
      ensures out[i].orders == Orders(live, side, out[i].price) > 0 && out[i].qty == Shares(live, side, out[i].price) {
      assert AggregateAt(m, live, side, prices[i]);
    }
    forall px | Orders(live, side, px) > 0
      ensures Listed(out, px) || (|out| == DEPTH && Better(side, out[DEPTH - 1].price, px))
    {
      assert AggregateAt(m, live, side, px);
      var k :| 0 <= k < |prices| && prices[k] == px;
      if k < |out| {
        assert out[k].price == px;
      }
    }
  }

  function Deposited(m: map<nat, Agg>, px: nat, qty: nat): map<nat, Agg> {
    var a := if px in m then m[px] else Agg(0, 0);
    m[px := Agg(a.qty + qty, a.orders + 1)]
  }

  /** One order of `qty` shares leaves; the entry goes with its last order. */
  function Withdrawn(m: map<nat, Agg>, px: nat, qty: nat): map<nat, Agg>
    requires px in m ==> m[px].qty >= qty && m[px].orders >= 1
  {
    if px !in m then m
    else if m[px].orders == 1 then m - {px}
    else m[px := Agg(m[px].qty - qty, m[px].orders - 1)]
  }

  function Shrunk(m: map<nat, Agg>, px: nat, qty: nat): map<nat, Agg>
    requires px in m ==> m[px].qty >= qty
  {
    if px !in m then m else m[px := m[px].(qty := m[px].qty - qty)]
  }

  lemma DepositedAggregates(m: map<nat, Agg>, live: seq<Resting>, side: Side, x: Resting)
    requires Aggregates(m, live, side)
    ensures Aggregates(if x.side == side then Deposited(m, x.px, x.qty) else m, live + [x], side)
  {
    var m' := if x.side == side then Deposited(m, x.px, x.qty) else m;
    forall px ensures AggregateAt(m', live + [x], side, px) {
      assert AggregateAt(m, live, side, px);
      LevelAppend(live, x, side, px);
      LevelEmpty(live, side, px);
    }
  }

  lemma WithdrawnDefined(m: map<nat, Agg>, live: seq<Resting>, side: Side, i: nat)
    requires Aggregates(m, live, side) && i < |live|
    ensures live[i].side == side ==> live[i].px in m && m[live[i].px].qty >= live[i].qty && m[live[i].px].orders >= 1
  {
    LevelOfMember(live, i);
    assert AggregateAt(m, live, side, live[i].px);
  }

  lemma WithdrawnAggregates(m: map<nat, Agg>, live: seq<Resting>, side: Side, i: nat)
    requires Aggregates(m, live, side) && i < |live|
    ensures live[i].side == side ==> live[i].px in m && m[live[i].px].qty >= live[i].qty && m[live[i].px].orders >= 1
    ensures var m' := if live[i].side == side then Withdrawn(m, live[i].px, live[i].qty) else m;
      Aggregates(m', RemoveAt(live, i), side)
  {
    WithdrawnDefined(m, live, side, i);
    var m' := if live[i].side == side then Withdrawn(m, live[i].px, live[i].qty) else m;
    forall px ensures AggregateAt(m', RemoveAt(live, i), side, px) {
      assert AggregateAt(m, live, side, px);
      LevelRemove(live, i, side, px);
    }
  }

  lemma ShrunkAggregates(m: map<nat, Agg>, live: seq<Resting>, side: Side, i: nat, qty: nat)
    requires Aggregates(m, live, side) && i < |live| && qty <= live[i].qty
    ensures live[i].side == side ==> live[i].px in m && m[live[i].px].qty >= qty
    ensures Aggregates(if live[i].side == side then Shrunk(m, live[i].px, qty) else m,
                       live[i := live[i].(qty := live[i].qty - qty)], side)
  {
    WithdrawnDefined(m, live, side, i);
    var m' := if live[i].side == side then Shrunk(m, live[i].px, qty) else m;
    var live' := live[i := live[i].(qty := live[i].qty - qty)];
    forall px ensures AggregateAt(m', live', side, px) {
      assert AggregateAt(m, live, side, px);
      LevelResize(live, i, live[i].qty - qty, side, px);
    }
  }

  class MapBook {
    var orders: map<nat, Rec>
    var bids: map<nat, Agg>
    var asks: map<nat, Agg>
    ghost var ledger: Ledger

    ghost predicate Valid()
      reads this
    {
      && WellFormed(ledger)
      && Records(orders, ledger.live)
      && Aggregates(bids, ledger.live, Buy)
      && Aggregates(asks, ledger.live, Sell)
    }

    constructor ()
      ensures Valid() && ledger == START
    {
      orders, bids, asks, ledger := map[], map[], map[], START;
    }

    method Add(ref: nat, side: Side, px: nat, qty: nat)
      requires Valid() && ref != 0 && !Has(ledger.live, ref)
      modifies this
      ensures Valid() && ledger == Enlist(old(ledger), ref, side, px, qty)
    {
      hide Distinct, Stamped, Records, Aggregates;
      if qty == 0 {
        return;
      }
      ghost var x := Resting(ref, side, px, qty, ledger.clock);
      EnlistWellFormed(ledger, ref, side, px, qty);
      RecordsAppend(orders, ledger.live, x);
      DepositedAggregates(bids, ledger.live, Buy, x);
      DepositedAggregates(asks, ledger.live, Sell, x);
      orders := orders[ref := Rec(px, qty, side)];
      if side == Buy {
        bids := Deposited(bids, px, qty);
      } else {
        asks := Deposited(asks, px, qty);
      }
      ledger := Enlist(ledger, ref, side, px, qty);
    }

    /** The whole order leaves its level and the record map. */
    method Retire(ref: nat)
      requires Valid() && ref in orders
      modifies this
      ensures Valid() && ledger == Delist(old(ledger), ref) && orders == old(orders) - {ref}
    {
      hide Distinct, Stamped, Records, Aggregates;
      ghost var i := IndexOf(ledger.live, ref);
      RecordsAt(orders, ledger.live, ref);
      DelistWellFormed(ledger, ref);
      RecordsRemove(orders, ledger.live, i);
      WithdrawnAggregates(bids, ledger.live, Buy, i);
      WithdrawnAggregates(asks, ledger.live, Sell, i);
      var r := orders[ref];
      if r.side == Buy {
        bids := Withdrawn(bids, r.px, r.qty);
      } else {
        asks := Withdrawn(asks, r.px, r.qty);
      }
      orders := orders - {ref};
      ledger := Delist(ledger, ref);
    }

    method Remove(ref: nat)
      requires Valid()
      modifies this
      ensures Valid() && ledger == Delist(old(ledger), ref)
    {
      RecordsAt(orders, ledger.live, ref);
      if ref in orders {
        Retire(ref);
      }
    }

    method Replace(oldRef: nat, newRef: nat, px: nat, qty: nat)
      requires Valid() && newRef != 0 && (newRef == oldRef || !Has(ledger.live, newRef))
      modifies this
      ensures Valid() && ledger == Requeue(old(ledger), oldRef, newRef, px, qty)
    {
      RecordsAt(orders, ledger.live, oldRef);
      if oldRef !in orders {
        return;
      }
      var side := orders[oldRef].side;
      DelistWellFormed(ledger, oldRef);
      Retire(oldRef);
      Add(newRef, side, px, qty);
    }

    method Reduce(ref: nat, qty: nat)
      requires Valid()
      modifies this
      ensures Valid() && ledger == Shrink(old(ledger), ref, qty)
    {
      hide Distinct, Stamped, Records, Aggregates;
      RecordsAt(orders, ledger.live, ref);
      if ref !in orders {
        return;
      }
      ghost var i := IndexOf(ledger.live, ref);
      var r := orders[ref];
      var take := if qty < r.qty then qty else r.qty;
      if take == r.qty {
        Retire(ref);
        return;
      }
      ShrinkWellFormed(ledger, ref, qty);
      RecordsResize(orders, ledger.live, i, r.qty - take);
      ShrunkAggregates(bids, ledger.live, Buy, i, take);
      ShrunkAggregates(asks, ledger.live, Sell, i, take);
      orders := orders[ref := r.(qty := r.qty - take)];
      if r.side == Buy {
        bids := Shrunk(bids, r.px, take);
      } else {
        asks := Shrunk(asks, r.px, take);
      }
      ledger := Shrink(ledger, ref, qty);
    }

    method Apply(e: BookEvent)
      requires Valid() && Acceptable(ledger, e)
      modifies this
      ensures Valid() && ledger == After(old(ledger), e)
    {
      match e.kind {
        case Add => Add(e.ref, e.side, e.px, e.shares);
        case Execute => Reduce(e.ref, e.shares);
        case Cancel => Reduce(e.ref, e.shares);
        case Delete => Remove(e.ref);
        case Replace => Replace(e.ref, e.newRef, e.px, e.shares);
      }
    }

    method Top(side: Side) returns (out: seq<LevelView>)
      requires Valid()
      ensures TopLevels(ledger.live, side, out)
    {
      hide WellFormed, Records, Aggregates, TopLevels, Ranked;
      var m := if side == Buy then bids else asks;
      var prices := Ranked(side, m.Keys);
      out := [];
      while |out| < DEPTH && |out| < |prices|
        invariant |out| <= DEPTH && |out| <= |prices|
        invariant forall i :: 0 <= i < |out| ==>
          prices[i] in m && out[i] == LevelView(prices[i], m[prices[i]].qty, m[prices[i]].orders)
      {
        var px := prices[|out|];
        out := out + [LevelView(px, m[px].qty, m[px].orders)];
      }
      RankedTop(m, ledger.live, side, prices, out);
    }

    /** `best_bid` and `best_ask`. */
    method BestPrice(side: Side) returns (r: nat)
      requires Valid()
      ensures var keys := Prices(ledger.live, side); if keys == {} then r == 0 else IsBest(side, keys, r)
    {
      hide WellFormed, Records, Aggregates;
      var m := if side == Buy then bids else asks;
      AggregatedPrices(m, ledger.live, side);
      r := if m.Keys == {} then 0 else Best(side, m.Keys);
    }

    method Snapshot() returns (bid: seq<LevelView>, ask: seq<LevelView>)
      requires Valid()
      ensures TopLevels(ledger.live, Buy, bid) && TopLevels(ledger.live, Sell, ask)
    {
      bid := Top(Buy);
      ask := Top(Sell);
    }
  }
}
