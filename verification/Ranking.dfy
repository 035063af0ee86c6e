/** Ordered maps: the keys of a `std::map` visited from the best price of a side to the worst. */
module Ranking {
  import opened Ledgers

  /** `b` is the best of `keys`. */
  ghost predicate IsBest(side: Side, keys: set<nat>, b: nat) {
    b in keys && forall k :: k in keys ==> k == b || Better(side, b, k)
  }

  lemma {:induction false} BestExists(side: Side, keys: set<nat>)
    requires keys != {}
    ensures exists b :: IsBest(side, keys, b)
  {
    var x :| x in keys;
    if keys == {x} {
      assert IsBest(side, keys, x);
    } else {
      var rest := keys - {x};
      BestExists(side, rest);
      var b :| IsBest(side, rest, b);
      BestWith(side, keys, x, b);
    }
  }

  lemma BestWith(side: Side, keys: set<nat>, x: nat, b: nat)
    requires x in keys && IsBest(side, keys - {x}, b)
    ensures exists c :: IsBest(side, keys, c)
  {
    var c := if Better(side, x, b) then x else b;
    forall k | k in keys ensures k == c || Better(side, c, k) {
      assert k == x || k in keys - {x};
    }
    assert IsBest(side, keys, c);
  }

  function Best(side: Side, keys: set<nat>): (b: nat)
    requires keys != {}
    ensures IsBest(side, keys, b)
  {
    BestExists(side, keys);
    assert exists b :: IsBest(side, keys, b);
    var b :| b in keys && forall k :: k in keys ==> k == b || Better(side, b, k);
    b
  }

  predicate Sorted(side: Side, s: seq<nat>) {
    forall i, j :: 0 <= i < j < |s| ==> Better(side, s[i], s[j])
  }

  /** The keys, best first. */
  function Ranked(side: Side, keys: set<nat>): (s: seq<nat>)
    ensures |s| == |keys|
    ensures forall k :: k in s <==> k in keys
    ensures Sorted(side, s)
  {
    if keys == {} then [] else
      var b := Best(side, keys);
      [b] + Ranked(side, keys - {b})
  }

  /** `ps` lists the best ten of `keys`, best first. */
  ghost predicate TopPrices(side: Side, keys: set<nat>, ps: seq<nat>) {
    && |ps| <= DEPTH
    && Sorted(side, ps)
    && (forall px :: px in ps ==> px in keys)
    && (forall px :: px in keys ==> px in ps || (|ps| == DEPTH && Better(side, ps[DEPTH - 1], px)))
  }

  lemma TopPricesIn(side: Side, keys: set<nat>, ps: seq<nat>)
    requires TopPrices(side, keys, ps)
    ensures forall i :: 0 <= i < |ps| ==> ps[i] in keys
  {
    assert forall i :: 0 <= i < |ps| ==> ps[i] in ps;
  }

  /** `keys` are the live prices of a side. */
  ghost predicate LivePrices(live: seq<Resting>, side: Side, keys: set<nat>) {
    forall px :: px in keys <==> Orders(live, side, px) > 0
  }

  /** The views of the best ten live prices are the side's top levels. */
  lemma TopPricesGiveLevels(live: seq<Resting>, side: Side, keys: set<nat>, ps: seq<nat>, out: seq<LevelView>)
    requires LivePrices(live, side, keys) && TopPrices(side, keys, ps) && |out| == |ps|
    requires forall i :: 0 <= i < |ps| ==>
      out[i] == LevelView(ps[i], Shares(live, side, ps[i]), Orders(live, side, ps[i]))
    ensures TopLevels(live, side, out)
  {
    forall i | 0 <= i < |out| ensures out[i].orders > 0 {
      assert ps[i] in ps;
    }
    forall px | Orders(live, side, px) > 0
      ensures Listed(out, px) || (|out| == DEPTH && Better(side, out[DEPTH - 1].price, px))
    {
      if px in ps {
        var i :| 0 <= i < |ps| && ps[i] == px;
        assert out[i].price == px;
      }
    }
  }

  /** The prices at which a side has orders. */
  ghost function Prices(live: seq<Resting>, side: Side): set<nat> {
    set r | r in live && r.side == side :: r.px
  }

  lemma PricesLive(live: seq<Resting>, side: Side)
    ensures LivePrices(live, side, Prices(live, side))
  {
    forall px ensures px in Prices(live, side) <==> Orders(live, side, px) > 0 {
      if px in Prices(live, side) {
        var r :| r in live && r.side == side && r.px == px;
        var i :| 0 <= i < |live| && live[i] == r;
        LevelOfMember(live, i);
      } else {
        SumZero(live, OneAt(side, px));
      }
    }
  }

  lemma PricesAppend(live: seq<Resting>, x: Resting, side: Side)
    ensures Prices(live + [x], side) == if x.side == side then Prices(live, side) + {x.px} else Prices(live, side)
  {
    PricesLive(live, side);
    PricesLive(live + [x], side);
    forall px { LevelAppend(live, x, side, px); }
  }

  lemma PricesRemove(live: seq<Resting>, i: nat, side: Side)
    requires i < |live|
    ensures Prices(RemoveAt(live, i), side)
         == if live[i].side == side && Orders(live, side, live[i].px) == 1 then Prices(live, side) - {live[i].px}
            else Prices(live, side)
  {
    PricesLive(live, side);
    PricesLive(RemoveAt(live, i), side);
    LevelOfMember(live, i);
    forall px { LevelRemove(live, i, side, px); }
  }

  lemma PricesResize(live: seq<Resting>, i: nat, qty: nat, side: Side)
    requires i < |live|
    ensures Prices(live[i := live[i].(qty := qty)], side) == Prices(live, side)
  {
    PricesLive(live, side);
    PricesLive(live[i := live[i].(qty := qty)], side);
    forall px { LevelResize(live, i, qty, side, px); }
  }
}
