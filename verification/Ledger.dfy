/** What an order book means. */
module Ledgers {

  // The live orders, oldest first. Every book design is proved against this list, and what an observer sees of a
  // book (a ten-level snapshot) is defined on it.

  datatype Side = Buy | Sell

  function Opposite(side: Side): Side {
    if side == Buy then Sell else Buy
  }

  /** Where a side's tables stand in a pair. */
  function Index(side: Side): nat {
    if side == Buy then 0 else 1
  }

  /** One live order. `stamp` numbers the accepted orders in order of arrival. */
  datatype Resting = Resting(ref: nat, side: Side, px: nat, qty: nat, stamp: nat)

  datatype Ledger = Ledger(live: seq<Resting>, clock: nat)

  datatype EventType = Add | Execute | Cancel | Delete | Replace

  datatype BookEvent = BookEvent(ts: nat, ref: nat, newRef: nat, px: nat, shares: nat, kind: EventType, side: Side)

  const START := Ledger([], 1)

  // ---- lists ----

  function RemoveAt<T>(s: seq<T>, i: nat): (r: seq<T>)
    requires i < |s|
    ensures |r| == |s| - 1
  {
    s[..i] + s[i + 1..]
  }

  /** Position of the order named `ref`; the length of the list when there is none. */
  function IndexOf(live: seq<Resting>, ref: nat): (i: nat)
    ensures i <= |live|
    ensures i < |live| ==> live[i].ref == ref
    ensures forall j :: 0 <= j < i ==> live[j].ref != ref
  {
    if live == [] || live[0].ref == ref then 0 else 1 + IndexOf(live[1..], ref)
  }

  predicate Has(live: seq<Resting>, ref: nat) {
    IndexOf(live, ref) < |live|
  }

  /** Total of `w` over the list. */
  function Sum(live: seq<Resting>, w: Resting -> nat): nat {
    if live == [] then 0 else Sum(live[..|live| - 1], w) + w(live[|live| - 1])
  }

  lemma {:induction false} SumConcat(a: seq<Resting>, b: seq<Resting>, w: Resting -> nat)
    ensures Sum(a + b, w) == Sum(a, w) + Sum(b, w)
  {
    if b == [] {
      assert a + b == a;
    } else {
      SumConcat(a, b[..|b| - 1], w);
      assert (a + b)[..|a + b| - 1] == a + b[..|b| - 1];
    }
  }

  lemma SumAppend(live: seq<Resting>, x: Resting, w: Resting -> nat)
    ensures Sum(live + [x], w) == Sum(live, w) + w(x)
  {
    assert (live + [x])[..|live|] == live;
  }

  lemma {:induction false} SumRemove(live: seq<Resting>, i: nat, w: Resting -> nat)
    requires i < |live|
    ensures Sum(RemoveAt(live, i), w) + w(live[i]) == Sum(live, w)
  {
    var n := |live| - 1;
    if i == n {
      assert RemoveAt(live, i) == live[..n];
    } else {
      SumRemove(live[..n], i, w);
      assert RemoveAt(live, i)[..n - 1] == RemoveAt(live[..n], i);
    }
  }

  lemma SumUpdate(live: seq<Resting>, i: nat, x: Resting, w: Resting -> nat)
    requires i < |live|
    ensures Sum(live[i := x], w) + w(live[i]) == Sum(live, w) + w(x)
  {
    SumRemove(live, i, w);
    SumRemove(live[i := x], i, w);
    assert RemoveAt(live[i := x], i) == RemoveAt(live, i);
  }

  lemma {:induction false} SumMember(live: seq<Resting>, i: nat, w: Resting -> nat)
    requires i < |live|
    ensures Sum(live, w) >= w(live[i])
  {
    SumRemove(live, i, w);
  }

  lemma {:induction false} SumZero(live: seq<Resting>, w: Resting -> nat)
    requires forall i :: 0 <= i < |live| ==> w(live[i]) == 0
    ensures Sum(live, w) == 0
  {
    if live != [] {
      SumZero(live[..|live| - 1], w);
    }
  }

  // ---- levels ----

  function QtyAt(side: Side, px: nat): Resting -> nat {
    (r: Resting) => if r.side == side && r.px == px then r.qty else 0
  }

  function OneAt(side: Side, px: nat): Resting -> nat {
    (r: Resting) => if r.side == side && r.px == px then 1 else 0
  }

  /** Total resting shares of a level. */
  function Shares(live: seq<Resting>, side: Side, px: nat): nat {
    Sum(live, QtyAt(side, px))
  }

  /** Number of orders of a level; a level exists while this is positive. */
  function Orders(live: seq<Resting>, side: Side, px: nat): nat {
    Sum(live, OneAt(side, px))
  }

  /** Shares of orders of a level stamped below `stamp`. */
  function AheadAt(side: Side, px: nat, stamp: nat): Resting -> nat {
    (r: Resting) => if r.side == side && r.px == px && r.stamp < stamp then r.qty else 0
  }

  function Ahead(live: seq<Resting>, side: Side, px: nat, stamp: nat): nat {
    Sum(live, AheadAt(side, px, stamp))
  }

  lemma LevelOfMember(live: seq<Resting>, i: nat)
    requires i < |live|
    ensures Orders(live, live[i].side, live[i].px) >= 1
    ensures Shares(live, live[i].side, live[i].px) >= live[i].qty
  {
    SumMember(live, i, OneAt(live[i].side, live[i].px));
    SumMember(live, i, QtyAt(live[i].side, live[i].px));
  }

  /** A level without orders holds no shares. */
  lemma {:induction false} LevelEmpty(live: seq<Resting>, side: Side, px: nat)
    ensures Orders(live, side, px) == 0 ==> Shares(live, side, px) == 0
  {
    if live != [] {
      LevelEmpty(live[..|live| - 1], side, px);
    }
  }

  lemma LevelAppend(live: seq<Resting>, x: Resting, side: Side, px: nat)
    ensures Shares(live + [x], side, px) == Shares(live, side, px) + (if x.side == side && x.px == px then x.qty else 0)
    ensures Orders(live + [x], side, px) == Orders(live, side, px) + (if x.side == side && x.px == px then 1 else 0)
  {
    SumAppend(live, x, QtyAt(side, px));
    SumAppend(live, x, OneAt(side, px));
  }

  lemma LevelRemove(live: seq<Resting>, i: nat, side: Side, px: nat)
    requires i < |live|
    ensures Shares(RemoveAt(live, i), side, px)
         == Shares(live, side, px) - (if live[i].side == side && live[i].px == px then live[i].qty else 0)
    ensures Orders(RemoveAt(live, i), side, px)
         == Orders(live, side, px) - (if live[i].side == side && live[i].px == px then 1 else 0)
  {
    SumRemove(live, i, QtyAt(side, px));
    SumRemove(live, i, OneAt(side, px));
  }

  lemma LevelResize(live: seq<Resting>, i: nat, qty: nat, side: Side, px: nat)
    requires i < |live|
    ensures Shares(live[i := live[i].(qty := qty)], side, px)
         == Shares(live, side, px) - (if live[i].side == side && live[i].px == px then live[i].qty - qty else 0)
    ensures Orders(live[i := live[i].(qty := qty)], side, px) == Orders(live, side, px)
  {
    SumUpdate(live, i, live[i].(qty := qty), QtyAt(side, px));
    SumUpdate(live, i, live[i].(qty := qty), OneAt(side, px));
  }

  // ---- what an event does ----

  function Delist(l: Ledger, ref: nat): Ledger {
    var i := IndexOf(l.live, ref);
    if i < |l.live| then l.(live := RemoveAt(l.live, i)) else l
  }

  function Shrink(l: Ledger, ref: nat, qty: nat): Ledger {
    var i := IndexOf(l.live, ref);
    if i == |l.live| then l
    else if qty < l.live[i].qty then l.(live := l.live[i := l.live[i].(qty := l.live[i].qty - qty)])
    else l.(live := RemoveAt(l.live, i))
  }

  function Enlist(l: Ledger, ref: nat, side: Side, px: nat, qty: nat): Ledger {
    if qty == 0 then l
    else Ledger(l.live + [Resting(ref, side, px, qty, l.clock)], l.clock + 1)
  }

  function Requeue(l: Ledger, ref: nat, newRef: nat, px: nat, qty: nat): Ledger {
    var i := IndexOf(l.live, ref);
    if i == |l.live| then l else Enlist(Delist(l, ref), newRef, l.live[i].side, px, qty)
  }

  function After(l: Ledger, e: BookEvent): Ledger {
    match e.kind
    case Add => Enlist(l, e.ref, e.side, e.px, e.shares)
    case Execute => Shrink(l, e.ref, e.shares)
    case Cancel => Shrink(l, e.ref, e.shares)
    case Delete => Delist(l, e.ref)
    case Replace => Requeue(l, e.ref, e.newRef, e.px, e.shares)
  }

  /** The feed names orders by nonzero references and never gives a live order's reference to another. */
  predicate Acceptable(l: Ledger, e: BookEvent) {
    && e.ref != 0
    && (e.kind.Add? ==> !Has(l.live, e.ref))
    && (e.kind.Replace? ==> e.newRef != 0 && (e.newRef == e.ref || !Has(l.live, e.newRef)))
  }

  ghost predicate Distinct(live: seq<Resting>) {
    forall i, j :: 0 <= i < j < |live| ==> live[i].ref != live[j].ref
  }

  ghost predicate Stamped(l: Ledger) {
    && (forall i, j :: 0 <= i < j < |l.live| ==> l.live[i].stamp < l.live[j].stamp)
    && (forall i :: 0 <= i < |l.live| ==> l.live[i].stamp < l.clock)
  }

  /** Orders have distinct nonzero references and positive sizes, and are listed by arrival stamp. */
  ghost predicate WellFormed(l: Ledger) {
    && Distinct(l.live)
    && Stamped(l)
    && (forall i :: 0 <= i < |l.live| ==> l.live[i].ref != 0 && l.live[i].qty > 0)
  }

  /** What is stamped below the `i`-th order of a level is what arrived there before it. */
  lemma AheadIsBefore(live: seq<Resting>, i: nat)
    requires i < |live| && forall a, b :: 0 <= a < b < |live| ==> live[a].stamp < live[b].stamp
    ensures Ahead(live, live[i].side, live[i].px, live[i].stamp) == Shares(live[..i], live[i].side, live[i].px)
  {
    var x := live[i];
    var w := AheadAt(x.side, x.px, x.stamp);
    assert live == live[..i] + live[i..];
    SumConcat(live[..i], live[i..], w);
    SumZero(live[i..], w);
    SumSame(live[..i], w, QtyAt(x.side, x.px));
  }

  lemma {:induction false} SumSame(live: seq<Resting>, v: Resting -> nat, w: Resting -> nat)
    requires forall i :: 0 <= i < |live| ==> v(live[i]) == w(live[i])
    ensures Sum(live, v) == Sum(live, w)
  {
    if live != [] {
      SumSame(live[..|live| - 1], v, w);
    }
  }

  lemma IndexAt(live: seq<Resting>, i: nat)
    requires Distinct(live) && i < |live|
    ensures IndexOf(live, live[i].ref) == i
  {
  }

  lemma RemoveDistinct(live: seq<Resting>, i: nat)
    requires Distinct(live) && i < |live|
    ensures Distinct(RemoveAt(live, i))
    ensures forall r :: Has(RemoveAt(live, i), r) <==> Has(live, r) && r != live[i].ref
  {
    var m := RemoveAt(live, i);
    assert forall j :: 0 <= j < |m| ==> m[j] == live[if j < i then j else j + 1];
    forall r ensures Has(m, r) <==> Has(live, r) && r != live[i].ref {
      var j := IndexOf(live, r);
      if j < |live| && j != i {
        assert m[if j < i then j else j - 1].ref == r;
      }
      var k := IndexOf(m, r);
    }
  }

  lemma HasAppend(live: seq<Resting>, x: Resting)
    ensures forall r :: Has(live + [x], r) <==> Has(live, r) || r == x.ref
  {
    forall r ensures Has(live + [x], r) <==> Has(live, r) || r == x.ref {
      var i, j := IndexOf(live, r), IndexOf(live + [x], r);
      assert i < |live| ==> (live + [x])[i].ref == r;
      assert (live + [x])[|live|] == x;
    }
  }

  lemma HasResize(live: seq<Resting>, i: nat, qty: nat)
    requires i < |live|
    ensures forall r :: Has(live[i := live[i].(qty := qty)], r) <==> Has(live, r)
  {
    var m := live[i := live[i].(qty := qty)];
    forall r ensures Has(m, r) <==> Has(live, r) {
      var j, k := IndexOf(live, r), IndexOf(m, r);
      assert j < |live| ==> m[j].ref == r;
      assert k < |live| ==> live[k].ref == r;
    }
  }

  lemma RemoveWellFormed(l: Ledger, i: nat)
    requires WellFormed(l) && i < |l.live|
    ensures WellFormed(l.(live := RemoveAt(l.live, i)))
  {
    IndexAt(l.live, i);
    DelistWellFormed(l, l.live[i].ref);
  }

  lemma DelistWellFormed(l: Ledger, ref: nat)
    requires WellFormed(l)
    ensures WellFormed(Delist(l, ref))
    ensures forall r :: Has(Delist(l, ref).live, r) <==> Has(l.live, r) && r != ref
  {
    hide Distinct, Stamped, RemoveAt;
    var i := IndexOf(l.live, ref);
    if i < |l.live| {
      RemoveDistinct(l.live, i);
      RemoveStamped(l, i);
    }
  }

  lemma RemoveStamped(l: Ledger, i: nat)
    requires Stamped(l) && i < |l.live|
    requires forall j :: 0 <= j < |l.live| ==> l.live[j].ref != 0 && l.live[j].qty > 0
    ensures var live := RemoveAt(l.live, i);
      Stamped(l.(live := live)) && forall j :: 0 <= j < |live| ==> live[j].ref != 0 && live[j].qty > 0
  {
  }

  lemma EnlistWellFormed(l: Ledger, ref: nat, side: Side, px: nat, qty: nat)
    requires WellFormed(l) && ref != 0 && !Has(l.live, ref)
    ensures WellFormed(Enlist(l, ref, side, px, qty))
  {
  }

  lemma ShrinkWellFormed(l: Ledger, ref: nat, qty: nat)
    requires WellFormed(l)
    ensures WellFormed(Shrink(l, ref, qty))
  {
    DelistWellFormed(l, ref);
  }

  lemma AfterWellFormed(l: Ledger, e: BookEvent)
    requires WellFormed(l) && Acceptable(l, e)
    ensures WellFormed(After(l, e))
  {
    hide WellFormed;
    match e.kind {
      case Add => EnlistWellFormed(l, e.ref, e.side, e.px, e.shares);
      case Execute => ShrinkWellFormed(l, e.ref, e.shares);
      case Cancel => ShrinkWellFormed(l, e.ref, e.shares);
      case Delete => DelistWellFormed(l, e.ref);
      case Replace =>
        DelistWellFormed(l, e.ref);
        if Has(l.live, e.ref) {
          EnlistWellFormed(Delist(l, e.ref), e.newRef, l.live[IndexOf(l.live, e.ref)].side, e.px, e.shares);
        }
    }
  }

  // ---- shares by reference ----

  function OfRef(ref: nat): Resting -> nat {
    (r: Resting) => if r.ref == ref then r.qty else 0
  }

  /** Shares resting under a reference. */
  function SharesOf(live: seq<Resting>, ref: nat): nat {
    Sum(live, OfRef(ref))
  }

  lemma SharesOfNone(live: seq<Resting>, ref: nat)
    requires !Has(live, ref)
    ensures SharesOf(live, ref) == 0
  {
    hide Sum;
    SumZero(live, OfRef(ref));
  }

  lemma SharesOfOrder(l: Ledger, ref: nat)
    requires WellFormed(l)
    ensures Has(l.live, ref) ==> SharesOf(l.live, ref) == l.live[IndexOf(l.live, ref)].qty > 0
    ensures !Has(l.live, ref) ==> SharesOf(l.live, ref) == 0
  {
    hide Sum, Distinct, Stamped, RemoveAt;
    var i := IndexOf(l.live, ref);
    if i < |l.live| {
      RemoveDistinct(l.live, i);
      SharesOfNone(RemoveAt(l.live, i), ref);
      SumRemove(l.live, i, OfRef(ref));
    } else {
      SharesOfNone(l.live, ref);
    }
  }

  /** Shares under reference `r` after an event, from those under it and under the reference the event names. */
  function LeftUnder(e: BookEvent, named: nat, own: nat, r: nat): nat {
    match e.kind
    case Add => if r == e.ref then e.shares else own
    case Execute => if r == e.ref && e.shares < own then own - e.shares else if r == e.ref then 0 else own
    case Cancel => if r == e.ref && e.shares < own then own - e.shares else if r == e.ref then 0 else own
    case Delete => if r == e.ref then 0 else own
    case Replace => if named == 0 then own else if r == e.newRef then e.shares else if r == e.ref then 0 else own
  }

  lemma SharesAfter(l: Ledger, e: BookEvent, r: nat)
    requires WellFormed(l) && Acceptable(l, e)
    ensures SharesOf(After(l, e).live, r) == LeftUnder(e, SharesOf(l.live, e.ref), SharesOf(l.live, r), r)
  {
    hide WellFormed, Sum, RemoveAt;
    SharesOfOrder(l, e.ref);
    SharesOfOrder(l, r);
    var i := IndexOf(l.live, e.ref);
    if e.kind.Add? {
      EnlistShares(l, e.ref, e.side, e.px, e.shares, r);
    } else if i < |l.live| {
      SumRemove(l.live, i, OfRef(r));
      if e.kind.Replace? {
        EnlistShares(Delist(l, e.ref), e.newRef, l.live[i].side, e.px, e.shares, r);
        SharesOfOrder(l, e.newRef);
      } else if (e.kind.Execute? || e.kind.Cancel?) && e.shares < l.live[i].qty {
        SumUpdate(l.live, i, l.live[i].(qty := l.live[i].qty - e.shares), OfRef(r));
      }
    }
  }

  lemma EnlistShares(l: Ledger, ref: nat, side: Side, px: nat, qty: nat, r: nat)
    ensures SharesOf(Enlist(l, ref, side, px, qty).live, r) == SharesOf(l.live, r) + if r == ref then qty else 0
  {
    SumAppend(l.live, Resting(ref, side, px, qty, l.clock), OfRef(r));
  }

  /** The meaning of a tape. */
  function Replay(l: Ledger, events: seq<BookEvent>): Ledger {
    if events == [] then l else After(Replay(l, events[..|events| - 1]), events[|events| - 1])
  }

  /** Every event of the tape is acceptable where it comes. */
  ghost predicate AcceptableTape(l: Ledger, events: seq<BookEvent>) {
    forall k :: 0 <= k < |events| ==> Acceptable(Replay(l, events[..k]), events[k])
  }

  lemma TapeFront(l: Ledger, events: seq<BookEvent>)
    requires AcceptableTape(l, events) && events != []
    ensures var before := events[..|events| - 1];
      AcceptableTape(l, before) && Acceptable(Replay(l, before), events[|events| - 1])
  {
    hide Replay, Acceptable;
    var before := events[..|events| - 1];
    assert forall k :: 0 <= k < |before| ==> before[..k] == events[..k] && before[k] == events[k];
  }

  // ---- what an observer sees ----

  const DEPTH: nat := 10

  datatype LevelView = LevelView(price: nat, qty: nat, orders: nat)

  predicate Better(side: Side, a: nat, b: nat) {
    if side == Buy then a > b else a < b
  }

  /** `out` is the list of the best ten levels of a side, best first. */
  ghost predicate TopLevels(live: seq<Resting>, side: Side, out: seq<LevelView>) {
    && |out| <= DEPTH
    && (forall i, j :: 0 <= i < j < |out| ==> Better(side, out[i].price, out[j].price))
    && (forall i :: 0 <= i < |out| ==>
          out[i].orders == Orders(live, side, out[i].price) > 0 && out[i].qty == Shares(live, side, out[i].price))
    && (forall px :: Orders(live, side, px) > 0 ==>
          Listed(out, px) || (|out| == DEPTH && Better(side, out[DEPTH - 1].price, px)))
  }

  ghost predicate Listed(out: seq<LevelView>, px: nat) {
    exists i :: 0 <= i < |out| && out[i].price == px
  }

  /** Where two correct snapshots have agreed so far, the next entry of one is no better than that of the other. */
  lemma NextNoBetter(live: seq<Resting>, side: Side, a: seq<LevelView>, b: seq<LevelView>, k: nat)
    requires TopLevels(live, side, a) && TopLevels(live, side, b)
    requires k < |a| && k <= |b| && forall i :: 0 <= i < k ==> a[i] == b[i]
    ensures k < |b| && !Better(side, a[k].price, b[k].price)
  {
    hide Orders, Shares;
    var px := a[k].price;
    if Listed(b, px) {
      var i :| 0 <= i < |b| && b[i].price == px;
      assert i >= k;
    }
  }

  lemma SamePriceSameEntry(live: seq<Resting>, side: Side, a: seq<LevelView>, b: seq<LevelView>, k: nat)
    requires TopLevels(live, side, a) && TopLevels(live, side, b) && k < |a| && k < |b| && a[k].price == b[k].price
    ensures a[k] == b[k]
  {
    hide Listed, Orders, Shares;
  }

  /** Two correct snapshots of one ledger agree position by position. */
  lemma {:induction false} TopAgree(live: seq<Resting>, side: Side, a: seq<LevelView>, b: seq<LevelView>, k: nat)
    requires TopLevels(live, side, a) && TopLevels(live, side, b) && k <= |a|
    ensures k <= |b| && forall i :: 0 <= i < k ==> a[i] == b[i]
  {
    hide TopLevels;
    if k > 0 {
      TopAgree(live, side, a, b, k - 1);
      NextNoBetter(live, side, a, b, k - 1);
      NextNoBetter(live, side, b, a, k - 1);
      SamePriceSameEntry(live, side, a, b, k - 1);
    }
  }

  lemma TopUnique(live: seq<Resting>, side: Side, a: seq<LevelView>, b: seq<LevelView>)
    requires TopLevels(live, side, a) && TopLevels(live, side, b)
    ensures a == b
  {
    TopAgree(live, side, a, b, |a|);
    TopAgree(live, side, b, a, |b|);
  }
}
