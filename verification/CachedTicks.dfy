/** The cached best ticks of the two grid designs over whole runs. */
module CachedTicks {

  // When the best price that a grid design reports is the true one: for one event, for runs of events and lookups.

  import opened Ledgers
  import opened Ranking
  import opened PriceGrid

  /** The cached ticks of both sides. */
  datatype Hints = Hints(bid: int, ask: int)

  const NO_HINTS := Hints(UNKNOWN, UNKNOWN)

  /** Which arrivals touch the cached tick: every order, or only an order that opens a level. */
  datatype Upkeep = PerOrder | PerLevel

  function HintFor(hs: Hints, side: Side): int {
    if side == Buy then hs.bid else hs.ask
  }

  function WithHint(hs: Hints, side: Side, h: int): Hints {
    if side == Buy then hs.(bid := h) else hs.(ask := h)
  }

  /** An arrival at `px` moves the tick of its side. */
  function Entered(w: Window, hs: Hints, side: Side, px: nat): Hints {
    if InGrid(w, px) then WithHint(hs, side, HintAfterAdd(side, HintFor(hs, side), TickOf(w, px))) else hs
  }

  /** A level gone from the window clears a tick that names it. */
  function Vacated(w: Window, hs: Hints, side: Side, px: nat): Hints {
    if InGrid(w, px) then WithHint(hs, side, HintAfterDrop(HintFor(hs, side), TickOf(w, px))) else hs
  }

  /** An order arrives at `px` where `live` were resting. */
  ghost function HintsEnter(w: Window, u: Upkeep, hs: Hints, live: seq<Resting>, side: Side, px: nat): Hints {
    if u.PerLevel? && Orders(live, side, px) > 0 then hs else Entered(w, hs, side, px)
  }

  /** An order leaves, perhaps as the last of its level. */
  ghost function HintsDelist(w: Window, hs: Hints, l: Ledger, ref: nat): Hints {
    if !Has(l.live, ref) then hs
    else
      var r := l.live[IndexOf(l.live, ref)];
      if Orders(Delist(l, ref).live, r.side, r.px) > 0 then hs else Vacated(w, hs, r.side, r.px)
  }

  ghost function HintsReduce(w: Window, hs: Hints, l: Ledger, ref: nat, qty: nat): Hints {
    if Has(l.live, ref) && qty >= l.live[IndexOf(l.live, ref)].qty then HintsDelist(w, hs, l, ref) else hs
  }

  ghost function HintsRequeue(w: Window, u: Upkeep, hs: Hints, l: Ledger, ref: nat, px: nat, qty: nat): Hints {
    if !Has(l.live, ref) then hs
    else if qty == 0 then HintsDelist(w, hs, l, ref)
    else HintsEnter(w, u, HintsDelist(w, hs, l, ref), Delist(l, ref).live, l.live[IndexOf(l.live, ref)].side, px)
  }

  /** The cached ticks after an event. */
  ghost function HintsAfter(w: Window, u: Upkeep, hs: Hints, l: Ledger, e: BookEvent): Hints {
    match e.kind
    case Add => if e.shares == 0 then hs else HintsEnter(w, u, hs, l.live, e.side, e.px)
    case Execute => HintsReduce(w, hs, l, e.ref, e.shares)
    case Cancel => HintsReduce(w, hs, l, e.ref, e.shares)
    case Delete => HintsDelist(w, hs, l, e.ref)
    case Replace => HintsRequeue(w, u, hs, l, e.ref, e.px, e.shares)
  }

  /** The cached ticks after a lookup of one side's best price. */
  ghost function HintsLookup(w: Window, hs: Hints, l: Ledger, side: Side): Hints {
    WithHint(hs, side, HintAfterLookup(side, w, Prices(l.live, side), HintFor(hs, side)))
  }

  // ---- one event ----

  /** The tick of a side is unknown or that of its best window price. */
  ghost predicate Exact(w: Window, hs: Hints, l: Ledger, side: Side) {
    HintExact(side, w, Prices(l.live, side), HintFor(hs, side))
  }

  /** The tick of a side is unknown or names a live level. */
  ghost predicate Live(w: Window, hs: Hints, l: Ledger, side: Side) {
    HintLive(w, Prices(l.live, side), HintFor(hs, side))
  }

  /** A live window price of the side is better than `px`. */
  ghost predicate Beaten(w: Window, l: Ledger, side: Side, px: nat) {
    exists k :: k in Prices(l.live, side) && InGrid(w, k) && Better(side, k, px)
  }

  /** An arrival at `px` is taken for the best although a better window price is live: the tick was unknown. */
  ghost predicate Misled(w: Window, u: Upkeep, hs: Hints, l: Ledger, side: Side, px: nat) {
    && InGrid(w, px) && HintFor(hs, side) == UNKNOWN
    && (u.PerLevel? ==> Orders(l.live, side, px) == 0)
    && Beaten(w, l, side, px)
  }

  /** The event brings such an arrival: an add does, or a replace once the old order has left. */
  ghost predicate Spoils(w: Window, u: Upkeep, hs: Hints, l: Ledger, e: BookEvent, side: Side) {
    match e.kind
    case Add => e.shares > 0 && e.side == side && Misled(w, u, hs, l, side, e.px)
    case Replace =>
      && Has(l.live, e.ref) && l.live[IndexOf(l.live, e.ref)].side == side && e.shares > 0
      && Misled(w, u, HintsDelist(w, hs, l, e.ref), Delist(l, e.ref), side, e.px)
    case _ => false
  }

  lemma EnlistExact(w: Window, u: Upkeep, hs: Hints, l: Ledger, ref: nat, at: Side, px: nat, qty: nat, side: Side)
    requires Aligned(w) && Live(w, hs, l, side) && qty > 0
    ensures Live(w, HintsEnter(w, u, hs, l.live, at, px), Enlist(l, ref, at, px, qty), side)
    ensures Exact(w, hs, l, side) ==>
      (Exact(w, HintsEnter(w, u, hs, l.live, at, px), Enlist(l, ref, at, px, qty), side)
       <==> !(at == side && Misled(w, u, hs, l, side, px)))
  {
    var keys := Prices(l.live, side);
    PricesAppend(l.live, Resting(ref, at, px, qty, l.clock), side);
    PricesLive(l.live, side);
    if at == side && InGrid(w, px) {
      TickOfPrice(w, px);
      HintAddExactly(side, w, keys, HintFor(hs, side), TickOf(w, px));
      assert Orders(l.live, side, px) > 0 ==> keys + {px} == keys;
      assert Beaten(w, l, side, px) <==> !LeadsGrid(side, w, keys, px) by {
        hide InGrid;
      }
    }
  }

  lemma DelistExact(w: Window, hs: Hints, l: Ledger, ref: nat, side: Side)
    requires Aligned(w) && Live(w, hs, l, side)
    ensures Live(w, HintsDelist(w, hs, l, ref), Delist(l, ref), side)
    ensures Exact(w, hs, l, side) ==> Exact(w, HintsDelist(w, hs, l, ref), Delist(l, ref), side)
  {
    var i := IndexOf(l.live, ref);
    if i < |l.live| {
      var r, h := l.live[i], HintFor(hs, side);
      PricesRemove(l.live, i, side);
      LevelRemove(l.live, i, r.side, r.px);
      if InGrid(w, r.px) {
        TickOfPrice(w, r.px);
        HintDropKeeps(side, w, Prices(l.live, side), h, TickOf(w, r.px));
      } else if h != UNKNOWN {
        PriceOfTick(w, h);
      }
    }
  }

  lemma ShrinkExact(w: Window, hs: Hints, l: Ledger, ref: nat, qty: nat, side: Side)
    requires Aligned(w) && Live(w, hs, l, side)
    ensures Live(w, HintsReduce(w, hs, l, ref, qty), Shrink(l, ref, qty), side)
    ensures Exact(w, hs, l, side) ==> Exact(w, HintsReduce(w, hs, l, ref, qty), Shrink(l, ref, qty), side)
  {
    var i := IndexOf(l.live, ref);
    DelistExact(w, hs, l, ref, side);
    hide HintExact, HintLive;
    if i < |l.live| && qty < l.live[i].qty {
      PricesResize(l.live, i, l.live[i].qty - qty, side);
    }
  }

  /** An event leaves every tick unknown or naming a live level, and an exact one exact if and only if it does not
      spoil it. */
  lemma ExactAfter(w: Window, u: Upkeep, hs: Hints, l: Ledger, e: BookEvent, side: Side)
    requires Aligned(w) && Live(w, hs, l, side)
    ensures Live(w, HintsAfter(w, u, hs, l, e), After(l, e), side)
    ensures Exact(w, hs, l, side) ==>
      (Exact(w, HintsAfter(w, u, hs, l, e), After(l, e), side) <==> !Spoils(w, u, hs, l, e, side))
  {
    hide Exact, Live, Misled, HintsEnter, HintsDelist, HintsReduce, Enlist, Shrink, Delist, IndexOf;
    match e.kind {
      case Add =>
        if e.shares > 0 {
          EnlistExact(w, u, hs, l, e.ref, e.side, e.px, e.shares, side);
        } else {
          NothingEnlisted(l, e.ref, e.side, e.px);
        }
      case Execute => ShrinkExact(w, hs, l, e.ref, e.shares, side);
      case Cancel => ShrinkExact(w, hs, l, e.ref, e.shares, side);
      case Delete => DelistExact(w, hs, l, e.ref, side);
      case Replace =>
        DelistExact(w, hs, l, e.ref, side);
        if Has(l.live, e.ref) {
          var l', hs', at := Delist(l, e.ref), HintsDelist(w, hs, l, e.ref), l.live[IndexOf(l.live, e.ref)].side;
          if e.shares > 0 {
            EnlistExact(w, u, hs', l', e.newRef, at, e.px, e.shares, side);
          } else {
            NothingEnlisted(l', e.newRef, at, e.px);
          }
        }
    }
  }

  lemma NothingEnlisted(l: Ledger, ref: nat, side: Side, px: nat)
    ensures Enlist(l, ref, side, px, 0) == l
  {
  }

  lemma ExactIsLive(w: Window, hs: Hints, l: Ledger, side: Side)
    requires Exact(w, hs, l, side)
    ensures Live(w, hs, l, side)
  {
  }

  /** A lookup keeps every tick exact, and leaves the one it asked for unknown only over an empty window. */
  lemma LookupExact(w: Window, hs: Hints, l: Ledger, asked: Side, side: Side)
    requires Aligned(w) && Live(w, hs, l, side)
    ensures Live(w, HintsLookup(w, hs, l, asked), l, side)
    ensures Exact(w, hs, l, side) ==> Exact(w, HintsLookup(w, hs, l, asked), l, side)
    ensures HintFor(HintsLookup(w, hs, l, side), side) == UNKNOWN ==> GridPrices(w, Prices(l.live, side)) == {}
  {
    var keys, h := Prices(l.live, side), HintFor(hs, side);
    LookupLive(side, w, keys, h);
    if h == UNKNOWN && GridPrices(w, keys) != {} {
      TickOfPrice(w, Best(side, GridPrices(w, keys)));
    }
  }

  /** The true best price of a side, 0 for an empty one. */
  ghost predicate TrueBest(px: nat, l: Ledger, side: Side) {
    var keys := Prices(l.live, side);
    if keys == {} then px == 0 else IsBest(side, keys, px)
  }

  /** A reported price is that of a live level; 0, unless a level has that price, says that the side is empty. */
  ghost predicate Quotes(px: nat, l: Ledger, side: Side) {
    var keys := Prices(l.live, side);
    (px != 0 ==> px in keys) && (px == 0 ==> 0 in keys || keys == {})
  }

  /** The side is empty, or a lookup of it can answer its best price. */
  ghost predicate Tells(w: Window, hs: Hints, l: Ledger, side: Side) {
    var keys := Prices(l.live, side);
    keys != {} ==> Answerable(side, w, keys, HintFor(hs, side))
  }

  /** A lookup answers truly if and only if the tick is exact or the best price lies outside the window. */
  lemma ReportsIff(w: Window, hs: Hints, l: Ledger, side: Side)
    requires Aligned(w) && Live(w, hs, l, side)
    ensures var r := Reported(side, w, Prices(l.live, side), HintFor(hs, side));
      Quotes(r, l, side) && (TrueBest(r, l, side) <==> Tells(w, hs, l, side))
  {
    var keys, h := Prices(l.live, side), HintFor(hs, side);
    if keys != {} {
      ReportedIsBestIff(side, w, keys, h);
    }
    ReportedLive(side, w, keys, h);
  }

  /** From an exact tick a lookup answers the true best price, 0 for an empty side. */
  lemma ExactReports(w: Window, hs: Hints, l: Ledger, side: Side)
    requires Aligned(w) && Exact(w, hs, l, side) && (side == Sell ==> 0 !in Prices(l.live, side))
    ensures TrueBest(Reported(side, w, Prices(l.live, side), HintFor(hs, side)), l, side)
  {
    ReportsIff(w, hs, l, side);
  }

  // ---- runs ----

  /** What a run consists of: events, and lookups of a side's best price between them. */
  datatype Act = Event(e: BookEvent) | Look(side: Side)

  /** A book's meaning together with its cached ticks. */
  datatype Stage = Stage(l: Ledger, hs: Hints)

  ghost function Acted(w: Window, u: Upkeep, s: Stage, a: Act): Stage {
    match a
    case Event(e) => Stage(After(s.l, e), HintsAfter(w, u, s.hs, s.l, e))
    case Look(side) => Stage(s.l, HintsLookup(w, s.hs, s.l, side))
  }

  ghost function Played(w: Window, u: Upkeep, acts: seq<Act>): Stage {
    if acts == [] then Stage(START, NO_HINTS)
    else Acted(w, u, Played(w, u, acts[..|acts| - 1]), acts[|acts| - 1])
  }

  ghost predicate ExactAt(w: Window, u: Upkeep, acts: seq<Act>, side: Side, k: nat)
    requires k <= |acts|
  {
    var s := Played(w, u, acts[..k]);
    Exact(w, s.hs, s.l, side)
  }

  ghost predicate SpoiledAt(w: Window, u: Upkeep, acts: seq<Act>, side: Side, k: nat)
    requires k < |acts|
  {
    var s := Played(w, u, acts[..k]);
    acts[k].Event? && Spoils(w, u, s.hs, s.l, acts[k].e, side)
  }

  lemma ExactStep(w: Window, u: Upkeep, acts: seq<Act>, side: Side, k: nat)
    requires Aligned(w) && k < |acts| && ExactAt(w, u, acts, side, k)
    ensures ExactAt(w, u, acts, side, k + 1) <==> !SpoiledAt(w, u, acts, side, k)
  {
    hide Exact, Live, Spoils, HintsAfter, After, HintsLookup;
    var s := Played(w, u, acts[..k]);
    ExactIsLive(w, s.hs, s.l, side);
    assert acts[..k + 1][..k] == acts[..k];
    match acts[k] {
      case Event(e) => ExactAfter(w, u, s.hs, s.l, e, side);
      case Look(asked) => LookupExact(w, s.hs, s.l, asked, side);
    }
  }

  lemma StartExact(w: Window, u: Upkeep, acts: seq<Act>, side: Side)
    ensures ExactAt(w, u, acts, side, 0)
  {
  }

  lemma {:induction false} PlayedLive(w: Window, u: Upkeep, acts: seq<Act>, side: Side)
    requires Aligned(w)
    ensures var s := Played(w, u, acts); Live(w, s.hs, s.l, side)
  {
    hide Live, HintsAfter, After, HintsLookup;
    if acts == [] {
      StartLive(w, side);
    } else {
      var s := Played(w, u, acts[..|acts| - 1]);
      PlayedLive(w, u, acts[..|acts| - 1], side);
      match acts[|acts| - 1] {
        case Event(e) => ExactAfter(w, u, s.hs, s.l, e, side);
        case Look(asked) => LookupExact(w, s.hs, s.l, asked, side);
      }
    }
  }

  lemma StartLive(w: Window, side: Side)
    ensures Live(w, NO_HINTS, START, side)
  {
  }

  /** At any point of any run a lookup answers the true best price if and only if it can. */
  lemma LookupsTell(w: Window, u: Upkeep, acts: seq<Act>, side: Side)
    requires Aligned(w)
    ensures var s := Played(w, u, acts);
      TrueBest(Reported(side, w, Prices(s.l.live, side), HintFor(s.hs, side)), s.l, side) <==> Tells(w, s.hs, s.l, side)
  {
    hide Live, Tells, TrueBest, Reported;
    var s := Played(w, u, acts);
    PlayedLive(w, u, acts, side);
    ReportsIff(w, s.hs, s.l, side);
  }

  /** Up to a point of a run the tick of a side was exact throughout if and only if no event had spoiled it. */
  lemma {:induction false} ExactAlong(w: Window, u: Upkeep, acts: seq<Act>, side: Side, upTo: nat)
    requires Aligned(w) && upTo <= |acts|
    ensures (forall k :: 0 <= k <= upTo ==> ExactAt(w, u, acts, side, k))
        <==> (forall k :: 0 <= k < upTo ==> !SpoiledAt(w, u, acts, side, k))
  {
    hide ExactAt, SpoiledAt;
    if upTo == 0 {
      StartExact(w, u, acts, side);
    } else {
      ExactAlong(w, u, acts, side, upTo - 1);
      if ExactAt(w, u, acts, side, upTo - 1) {
        ExactStep(w, u, acts, side, upTo - 1);
      }
    }
  }

  // ---- runs that look before they act ----

  /** The replace takes the only order off the best window price and puts it behind another window price:
      at a level of its own where only new levels touch the tick. This is told from the live orders alone. */
  ghost predicate Displaces(w: Window, u: Upkeep, l: Ledger, e: BookEvent, side: Side) {
    && e.kind.Replace? && Has(l.live, e.ref) && l.live[IndexOf(l.live, e.ref)].side == side && e.shares > 0
    && var r, l' := l.live[IndexOf(l.live, e.ref)], Delist(l, e.ref);
    && InGrid(w, r.px) && !Beaten(w, l, side, r.px) && Orders(l'.live, side, r.px) == 0
    && InGrid(w, e.px) && Beaten(w, l', side, e.px)
    && (u.PerLevel? ==> Orders(l'.live, side, e.px) == 0)
  }

  /** With an exact tick that is known wherever the window holds a price, as every lookup leaves it, no add
      spoils the tick, and of the replaces exactly the displacing ones do. */
  lemma KnownSpoils(w: Window, u: Upkeep, hs: Hints, l: Ledger, e: BookEvent, side: Side)
    requires Aligned(w) && Exact(w, hs, l, side)
    requires HintFor(hs, side) == UNKNOWN ==> GridPrices(w, Prices(l.live, side)) == {}
    ensures Spoils(w, u, hs, l, e, side) <==> Displaces(w, u, l, e, side)
  {
    var h := HintFor(hs, side);
    if h == UNKNOWN {
      NoneBeaten(w, l, e, side);
    } else if e.kind.Replace? && Has(l.live, e.ref) && l.live[IndexOf(l.live, e.ref)].side == side {
      HintNames(w, hs, l, e.ref, side);
    }
  }

  /** Over an empty window nothing beats an arrival, before or after an order leaves. */
  lemma NoneBeaten(w: Window, l: Ledger, e: BookEvent, side: Side)
    requires GridPrices(w, Prices(l.live, side)) == {}
    ensures forall px :: !Beaten(w, l, side, px) && !Beaten(w, Delist(l, e.ref), side, px)
  {
    forall k | k in Prices(l.live, side) ensures !InGrid(w, k) {
      assert k !in GridPrices(w, Prices(l.live, side));
    }
    assert forall r :: r in Delist(l, e.ref).live ==> r in l.live;
    assert Prices(Delist(l, e.ref).live, side) <= Prices(l.live, side);
  }

  /** A known exact tick is cleared by a departure exactly if the last order leaves the best window price. */
  lemma HintNames(w: Window, hs: Hints, l: Ledger, ref: nat, side: Side)
    requires Aligned(w) && Exact(w, hs, l, side) && HintFor(hs, side) != UNKNOWN
    requires Has(l.live, ref) && l.live[IndexOf(l.live, ref)].side == side
    ensures var r := l.live[IndexOf(l.live, ref)];
      HintFor(HintsDelist(w, hs, l, ref), side) == UNKNOWN
      <==> Orders(Delist(l, ref).live, side, r.px) == 0 && InGrid(w, r.px) && !Beaten(w, l, side, r.px)
  {
    var r, h := l.live[IndexOf(l.live, ref)], HintFor(hs, side);
    hide Delist;
    PriceOfTick(w, h);
    assert r.px in Prices(l.live, side) by {
      assert r in l.live;
    }
    if InGrid(w, r.px) {
      TickOfPrice(w, r.px);
      assert PriceOf(w, h) != r.px ==> Better(side, PriceOf(w, h), r.px);
    }
  }

  /** Before the `k`-th act the side was looked up, with nothing but lookups since. */
  ghost predicate LookedFor(acts: seq<Act>, side: Side, k: nat)
    requires k <= |acts|
  {
    k > 0 && acts[k - 1].Look? && (acts[k - 1].side == side || LookedFor(acts, side, k - 1))
  }

  ghost predicate DisplacedAt(w: Window, u: Upkeep, acts: seq<Act>, side: Side, k: nat)
    requires k < |acts|
  {
    acts[k].Event? && Displaces(w, u, Played(w, u, acts[..k]).l, acts[k].e, side)
  }

  lemma {:induction false} LookedKnown(w: Window, u: Upkeep, acts: seq<Act>, side: Side, k: nat)
    requires Aligned(w) && k <= |acts| && LookedFor(acts, side, k)
    ensures var s := Played(w, u, acts[..k]); HintFor(s.hs, side) == UNKNOWN ==>
      GridPrices(w, Prices(s.l.live, side)) == {}
  {
    hide Live, Prices, HintAfterLookup, GridPrices;
    var s := Played(w, u, acts[..k - 1]);
    PlayedLive(w, u, acts[..k - 1], side);
    assert acts[..k][..k - 1] == acts[..k - 1];
    if acts[k - 1].side == side {
      LookupExact(w, s.hs, s.l, side, side);
    } else {
      LookedKnown(w, u, acts, side, k - 1);
    }
  }

  /** For a caller who looks a side up before every event its tick is exact throughout if and only if no replace
      displaces the side's best window price. */
  lemma {:induction false} ExactWhenLooking(w: Window, u: Upkeep, acts: seq<Act>, side: Side, upTo: nat)
    requires Aligned(w) && upTo <= |acts| && forall k :: 0 <= k < upTo && acts[k].Event? ==> LookedFor(acts, side, k)
    ensures (forall k :: 0 <= k <= upTo ==> ExactAt(w, u, acts, side, k))
        <==> (forall k :: 0 <= k < upTo ==> !DisplacedAt(w, u, acts, side, k))
  {
    hide ExactAt, Displaces, Spoils;
    if upTo == 0 {
      StartExact(w, u, acts, side);
    } else {
      ExactWhenLooking(w, u, acts, side, upTo - 1);
      if forall k :: 0 <= k < upTo ==> ExactAt(w, u, acts, side, k) {
        assert ExactAt(w, u, acts, side, upTo - 1);
        ExactStep(w, u, acts, side, upTo - 1);
        if acts[upTo - 1].Event? {
          LookedKnown(w, u, acts, side, upTo - 1);
          ExactSpoils(w, u, acts, side, upTo - 1);
        }
      }
    }
  }

  lemma ExactSpoils(w: Window, u: Upkeep, acts: seq<Act>, side: Side, k: nat)
    requires Aligned(w) && k < |acts| && acts[k].Event? && ExactAt(w, u, acts, side, k)
    requires var s := Played(w, u, acts[..k]); HintFor(s.hs, side) == UNKNOWN ==>
      GridPrices(w, Prices(s.l.live, side)) == {}
    ensures SpoiledAt(w, u, acts, side, k) <==> DisplacedAt(w, u, acts, side, k)
  {
    hide Exact, Spoils, Displaces, GridPrices, Prices;
    var s := Played(w, u, acts[..k]);
    KnownSpoils(w, u, s.hs, s.l, acts[k].e, side);
  }
}
