/** The price window of the two grid designs. */
module PriceGrid {

  // Its ticks, the bitmap index over them, the cached best tick, and the ordered merge of window and overflow prices.

  import opened Ledgers
  import opened Ranking
  import opened Bitmap

  const TICK: nat := 100

  /** Prices `lo`, `lo + TICK`, ... for `ticks` ticks. */
  datatype Window = Window(lo: nat, ticks: nat)

  function WindowOf(lo: nat, hi: nat): Window
    requires lo - lo % TICK <= hi
  {
    Window(lo - lo % TICK, (hi - (lo - lo % TICK)) / TICK + 1)
  }

  /** The window holds the whole ticks from the one below `lo` up to `hi`. */
  lemma WindowSpans(lo: nat, hi: nat, px: nat)
    requires lo - lo % TICK <= hi
    ensures var w := WindowOf(lo, hi);
      Aligned(w) && (InGrid(w, px) <==> px % 100 == 0 && lo < px + 100 && px <= hi)
  {
    var base, n := lo - lo % TICK, (hi - (lo - lo % TICK)) / TICK;
    assert base % 100 == 0;
    if px % 100 == 0 && px >= base {
      var t := (px - base) / 100;
      assert px - base == 100 * t;
    }
  }

  predicate Aligned(w: Window) {
    w.lo % TICK == 0 && w.ticks > 0
  }

  predicate InGrid(w: Window, px: nat) {
    px >= w.lo && px % TICK == 0 && (px - w.lo) / TICK < w.ticks
  }

  function TickOf(w: Window, px: nat): nat
    requires px >= w.lo
  {
    (px - w.lo) / TICK
  }

  function PriceOf(w: Window, t: nat): nat {
    w.lo + t * TICK
  }

  lemma PriceOfTick(w: Window, t: nat)
    requires Aligned(w) && t < w.ticks
    ensures InGrid(w, PriceOf(w, t)) && TickOf(w, PriceOf(w, t)) == t
  {
  }

  lemma TickOfPrice(w: Window, px: nat)
    requires Aligned(w) && InGrid(w, px)
    ensures PriceOf(w, TickOf(w, px)) == px && TickOf(w, px) < w.ticks
  {
  }

  function Words(w: Window): nat {
    (w.ticks + 63) / 64
  }

  /** Bitmap and overflow keys together index exactly the prices `keys`. */
  ghost predicate Indexed(w: Window, bits: seq<Word>, over: set<nat>, keys: set<nat>) {
    && |bits| == Words(w)
    && (forall t: nat :: t / 64 < |bits| ==> (Test(bits, t) <==> t < w.ticks && PriceOf(w, t) in keys))
    && (forall px :: px in over <==> px in keys && !InGrid(w, px))
  }

  // ---- the ordered merge ----

  /** Tick `u` is not before tick `t` in the search order of the side. */
  predicate NotBefore(side: Side, t: int, u: int) {
    if side == Buy then u <= t else u >= t
  }

  /** `t` is the first set tick of a side from `from` on. */
  ghost predicate FirstFrom(side: Side, bits: seq<Word>, from: int, t: int) {
    if side == Buy then IsBelow(bits, from, t) else IsAbove(bits, from, t)
  }

  lemma MergeBounds(side: Side, w: Window, bits: seq<Word>, keys: set<nat>, t: int, rest: seq<nat>, done: seq<nat>)
    requires Merging(side, w, bits, keys, t, rest, done)
    ensures t < w.ticks || t < 0
  {
  }

  method Scan(side: Side, w: Window, bits: seq<Word>, from: int) returns (t: int)
    requires |bits| == Words(w) && -1 <= from <= w.ticks && (side == Buy ==> from < w.ticks)
    requires forall u: nat :: w.ticks <= u && u / 64 < |bits| ==> !Test(bits, u)
    ensures FirstFrom(side, bits, from, t)
  {
    if side == Buy {
      t := ScanDown(bits, from);
    } else {
      t := ScanUp(bits, from, w.ticks);
    }
  }

  /** What remains of a merge after the prices `done`: the set ticks from `t` on and the keys `rest`. */
  ghost predicate Remains(side: Side, w: Window, bits: seq<Word>, keys: set<nat>, t: int, rest: seq<nat>,
                          done: seq<nat>, px: nat) {
    && px in keys
    && px !in done
    && (if InGrid(w, px) then t >= 0 && NotBefore(side, t, TickOf(w, px)) else px in rest)
  }

  ghost predicate Merging(side: Side, w: Window, bits: seq<Word>, keys: set<nat>, t: int, rest: seq<nat>,
                          done: seq<nat>) {
    && Sorted(side, done) && Sorted(side, rest)
    && (t >= 0 ==> t < w.ticks && PriceOf(w, t) in keys && PriceOf(w, t) !in done)
    && (forall px :: px in rest ==> px in keys && !InGrid(w, px) && px !in done)
    && (forall px :: px in done ==> px in keys)
    && (forall px :: px in keys ==> px in done || Remains(side, w, bits, keys, t, rest, done, px))
    && (forall i, px :: 0 <= i < |done| && Remains(side, w, bits, keys, t, rest, done, px) ==>
          Better(side, done[i], px))
  }

  lemma MergeStarts(side: Side, w: Window, bits: seq<Word>, keys: set<nat>, over: set<nat>, t: int, rest: seq<nat>)
    requires Aligned(w) && Indexed(w, bits, over, keys)
    requires FirstFrom(side, bits, if side == Buy then w.ticks - 1 else 0, t)
    requires Sorted(side, rest) && forall px :: px in rest <==> px in over
    ensures Merging(side, w, bits, keys, t, rest, [])
  {
    if t >= 0 {
      assert Test(bits, t);
    }
    forall px | px in keys ensures Remains(side, w, bits, keys, t, rest, [], px) {
      SetTick(w, bits, over, keys, px);
    }
  }

  /** A window price that is a key has its tick set. */
  lemma SetTick(w: Window, bits: seq<Word>, over: set<nat>, keys: set<nat>, px: nat)
    requires Aligned(w) && Indexed(w, bits, over, keys) && px in keys
    ensures InGrid(w, px) ==> TickOf(w, px) / 64 < |bits| && Test(bits, TickOf(w, px))
    ensures !InGrid(w, px) ==> px in over
  {
    if InGrid(w, px) {
      TickOfPrice(w, px);
      assert TickOf(w, px) / 64 < |bits|;
    }
  }

  /** The grid's next price goes out when no overflow price beats it. */
  lemma MergeTakesGrid(side: Side, w: Window, bits: seq<Word>, keys: set<nat>, over: set<nat>, t: int, rest: seq<nat>,
                       done: seq<nat>, t': int)
    requires Aligned(w) && Indexed(w, bits, over, keys) && Merging(side, w, bits, keys, t, rest, done) && t >= 0
    requires rest == [] || Better(side, PriceOf(w, t), rest[0])
    requires FirstFrom(side, bits, if side == Buy then t - 1 else t + 1, t')
    ensures Merging(side, w, bits, keys, t', rest, done + [PriceOf(w, t)])
  {
    var p := PriceOf(w, t);
    var done' := done + [p];
    PriceOfTick(w, t);
    assert Remains(side, w, bits, keys, t, rest, done, p);
    if t' >= 0 {
      assert Test(bits, t');
      PriceOfTick(w, t');
      assert Remains(side, w, bits, keys, t, rest, done, PriceOf(w, t'));
    }
    forall px | px in keys && px !in done' ensures Remains(side, w, bits, keys, t', rest, done', px) {
      assert Remains(side, w, bits, keys, t, rest, done, px);
      SetTick(w, bits, over, keys, px);
      if InGrid(w, px) {
        TickOfPrice(w, px);
      }
    }
    forall px | Remains(side, w, bits, keys, t', rest, done', px) ensures Better(side, p, px) {
      if InGrid(w, px) {
        TickOfPrice(w, px);
      } else {
        assert px in rest;
      }
    }
    forall i, px | 0 <= i < |done'| && Remains(side, w, bits, keys, t', rest, done', px)
      ensures Better(side, done'[i], px) {
      assert px !in done && px in keys;
      assert Remains(side, w, bits, keys, t, rest, done, px);
    }
  }

  /** Otherwise the overflow map's next price goes out. */
  lemma MergeTakesOver(side: Side, w: Window, bits: seq<Word>, keys: set<nat>, over: set<nat>, t: int, rest: seq<nat>,
                       done: seq<nat>)
    requires Aligned(w) && Indexed(w, bits, over, keys) && Merging(side, w, bits, keys, t, rest, done) && rest != []
    requires t < 0 || !Better(side, PriceOf(w, t), rest[0])
    ensures Merging(side, w, bits, keys, t, rest[1..], done + [rest[0]])
  {
    var p := rest[0];
    var done' := done + [p];
    assert p in rest;
    assert Remains(side, w, bits, keys, t, rest, done, p);
    if t >= 0 {
      PriceOfTick(w, t);
    }
    forall px | px in keys && px !in done' ensures Remains(side, w, bits, keys, t, rest[1..], done', px) {
      assert Remains(side, w, bits, keys, t, rest, done, px);
    }
    forall px | Remains(side, w, bits, keys, t, rest[1..], done', px) ensures Better(side, p, px) {
      if InGrid(w, px) {
        TickOfPrice(w, px);
      }
    }
    forall i, px | 0 <= i < |done'| && Remains(side, w, bits, keys, t, rest[1..], done', px)
      ensures Better(side, done'[i], px) {
      assert px !in done && px in keys;
      assert Remains(side, w, bits, keys, t, rest, done, px);
    }
  }

  lemma MergeEnds(side: Side, w: Window, bits: seq<Word>, keys: set<nat>, t: int, rest: seq<nat>, done: seq<nat>)
    requires Merging(side, w, bits, keys, t, rest, done)
    requires |done| == DEPTH || (|done| < DEPTH && t < 0 && rest == [])
    ensures TopPrices(side, keys, done)
  {
    forall px | px in keys && px !in done ensures |done| == DEPTH && Better(side, done[DEPTH - 1], px) {
      assert Remains(side, w, bits, keys, t, rest, done, px);
    }
  }

  /** `collect`: the best ten prices of window and overflow map, merged in price order. */
  method MergePrices(side: Side, w: Window, bits: seq<Word>, over: seq<nat>, ghost keys: set<nat>,
                     ghost overKeys: set<nat>)
    returns (ps: seq<nat>)
    requires Aligned(w) && Indexed(w, bits, overKeys, keys)
    requires Sorted(side, over) && forall px :: px in over <==> px in overKeys
    ensures TopPrices(side, keys, ps)
  {
    var t := Scan(side, w, bits, if side == Buy then w.ticks - 1 else 0);
    MergeStarts(side, w, bits, keys, overKeys, t, over);
    var at := 0;
    ps := [];
    assert over[0..] == over;
    while |ps| < DEPTH && (t >= 0 || at < |over|)
      invariant |ps| <= DEPTH && at <= |over|
      invariant Merging(side, w, bits, keys, t, over[at..], ps)
      decreases DEPTH - |ps|
    {
      hide Merging, Indexed;
      MergeBounds(side, w, bits, keys, t, over[at..], ps);
      var takeGrid := if t >= 0 && at < |over| then Better(side, PriceOf(w, t), over[at]) else t >= 0;
      if takeGrid {
        var next := Scan(side, w, bits, if side == Buy then t - 1 else t + 1);
        MergeTakesGrid(side, w, bits, keys, overKeys, t, over[at..], ps, next);
        ps := ps + [PriceOf(w, t)];
        t := next;
      } else {
        MergeTakesOver(side, w, bits, keys, overKeys, t, over[at..], ps);
        assert over[at..][1..] == over[at + 1..];
        ps := ps + [over[at]];
        at := at + 1;
      }
    }
    MergeEnds(side, w, bits, keys, t, over[at..], ps);
  }

  // ---- the cached best tick ----

  const UNKNOWN: int := -1

  /** The hint is unknown or names a live tick: it is never stale. */
  ghost predicate HintLive(w: Window, keys: set<nat>, h: int) {
    h == UNKNOWN || (0 <= h < w.ticks && PriceOf(w, h) in keys)
  }

  /** `px` is at least as good as every window price in `keys`. */
  ghost predicate LeadsGrid(side: Side, w: Window, keys: set<nat>, px: nat) {
    forall k :: k in keys && InGrid(w, k) ==> k == px || Better(side, px, k)
  }

  /** The hint is unknown or names the best window price. */
  ghost predicate HintExact(side: Side, w: Window, keys: set<nat>, h: int) {
    HintLive(w, keys, h) && (h != UNKNOWN ==> LeadsGrid(side, w, keys, PriceOf(w, h)))
  }

  /** The cached tick after an order arrives at tick `t`. */
  function HintAfterAdd(side: Side, h: int, t: nat): int {
    if h < 0 then t
    else if side == Buy then (if t > h then t else h)
    else (if t < h then t else h)
  }

  /** The cached tick after the level at tick `t` has gone. */
  function HintAfterDrop(h: int, t: nat): int {
    if h == t then UNKNOWN else h
  }

  lemma HintDropKeeps(side: Side, w: Window, keys: set<nat>, h: int, t: nat)
    requires HintLive(w, keys, h)
    ensures HintLive(w, keys - {PriceOf(w, t)}, HintAfterDrop(h, t))
    ensures HintExact(side, w, keys, h) ==> HintExact(side, w, keys - {PriceOf(w, t)}, HintAfterDrop(h, t))
  {
  }

  /** An add keeps the hint exact unless the hint was unknown and a better window price was live. */
  lemma HintAddExactly(side: Side, w: Window, keys: set<nat>, h: int, t: nat)
    requires Aligned(w) && t < w.ticks && HintLive(w, keys, h)
    ensures HintLive(w, keys + {PriceOf(w, t)}, HintAfterAdd(side, h, t))
    ensures HintExact(side, w, keys, h) ==>
              (HintExact(side, w, keys + {PriceOf(w, t)}, HintAfterAdd(side, h, t))
               <==> h != UNKNOWN || LeadsGrid(side, w, keys, PriceOf(w, t)))
  {
    PriceOfTick(w, t);
    var p := PriceOf(w, t);
    if h != UNKNOWN {
      PriceOfTick(w, h);
    } else {
      assert HintAfterAdd(side, h, t) == t;
      assert LeadsGrid(side, w, keys + {p}, p) <==> LeadsGrid(side, w, keys, p);
    }
  }

  /** The live prices of the window. */
  ghost function GridPrices(w: Window, keys: set<nat>): set<nat> {
    set k | k in keys && InGrid(w, k)
  }

  /** The cached tick after a lookup: when unknown it becomes that of the best window price. */
  ghost function HintAfterLookup(side: Side, w: Window, keys: set<nat>, h: int): int {
    var g := GridPrices(w, keys);
    if h != UNKNOWN || g == {} then h else TickOf(w, Best(side, g))
  }

  ghost function OffGrid(w: Window, keys: set<nat>): set<nat> {
    set k | k in keys && !InGrid(w, k)
  }

  /** The better of two prices, of which 0 stands for none. */
  function Pick(side: Side, g: nat, o: nat): nat {
    if g == 0 then o else if o == 0 then g else if Better(side, g, o) then g else o
  }

  /** What a lookup answers that starts from the cached tick `h`: it sees the price at the tick it then has, and
      the best one outside the window. */
  ghost function Reported(side: Side, w: Window, keys: set<nat>, h: int): nat {
    var h', off := HintAfterLookup(side, w, keys, h), OffGrid(w, keys);
    Pick(side, if h' < 0 then 0 else PriceOf(w, h'), if off == {} then 0 else Best(side, off))
  }

  lemma BestIs(side: Side, keys: set<nat>, b: nat)
    requires b in keys && forall k :: k in keys ==> k == b || Better(side, b, k)
    ensures Best(side, keys) == b
  {
  }

  /** An exact hint leads to the tick of the best window price. */
  lemma ExactLookup(side: Side, w: Window, keys: set<nat>, h: int)
    requires Aligned(w) && HintExact(side, w, keys, h)
    requires h == UNKNOWN ==> forall k :: k in keys ==> !InGrid(w, k)
    ensures HintAfterLookup(side, w, keys, UNKNOWN) == h
  {
    if h == UNKNOWN {
      assert GridPrices(w, keys) == {};
    } else {
      PriceOfTick(w, h);
      BestIs(side, GridPrices(w, keys), PriceOf(w, h));
    }
  }

  /** The first set tick of a side is the best window price. */
  lemma FirstLeads(side: Side, w: Window, bits: seq<Word>, over: set<nat>, keys: set<nat>, t: int)
    requires Aligned(w) && Indexed(w, bits, over, keys)
    requires FirstFrom(side, bits, if side == Buy then w.ticks - 1 else 0, t)
    ensures HintExact(side, w, keys, t)
    ensures t == UNKNOWN ==> forall k :: k in keys ==> !InGrid(w, k)
  {
    assert t >= 0 ==> Test(bits, t);
    forall k | k in keys && InGrid(w, k) ensures t >= 0 && (k == PriceOf(w, t) || Better(side, PriceOf(w, t), k)) {
      SetTick(w, bits, over, keys, k);
      TickOfPrice(w, k);
    }
  }

  /** `grid_best`: the cached tick, found by a scan when unknown and by one from the old tick on when its bit is
      clear. A live hint never needs the second scan. */
  method GridBest(side: Side, w: Window, bits: seq<Word>, h: int, ghost over: set<nat>, ghost keys: set<nat>)
    returns (h': int)
    requires Aligned(w) && Indexed(w, bits, over, keys) && UNKNOWN <= h < w.ticks
    ensures HintLive(w, keys, h')
    ensures h >= 0 && !Test(bits, h) ==> FirstFrom(side, bits, h, h')
    ensures HintLive(w, keys, h) ==> (h >= 0 ==> Test(bits, h)) && h' == HintAfterLookup(side, w, keys, h)
    ensures HintLive(w, keys, h) ==>
      (h' == UNKNOWN <==> forall k :: k in keys ==> !InGrid(w, k)) && (h != UNKNOWN ==> h' == h)
    ensures HintExact(side, w, keys, h) ==> HintExact(side, w, keys, h')
  {
    h' := h;
    if h < 0 {
      h' := Scan(side, w, bits, if side == Buy then w.ticks - 1 else 0);
      FirstLeads(side, w, bits, over, keys, h');
      ExactLookup(side, w, keys, h');
    } else if !Test(bits, h) {
      h' := Scan(side, w, bits, h);
    }
    if h' >= 0 {
      PriceOfTick(w, h');
    }
  }

  /** `best`: window and overflow combined; 0 stands for an empty side. */
  method BestOf(side: Side, w: Window, bits: seq<Word>, h: int, over: set<nat>, ghost keys: set<nat>)
    returns (r: nat, h': int)
    requires Aligned(w) && Indexed(w, bits, over, keys) && HintLive(w, keys, h)
    ensures HintLive(w, keys, h') && (h != UNKNOWN ==> h' == h)
    ensures HintExact(side, w, keys, h) ==> HintExact(side, w, keys, h')
    ensures r != 0 ==> r in keys
    ensures 0 !in keys && r == 0 ==> keys == {}
    ensures keys != {} ==> (IsBest(side, keys, r) <==> Answerable(side, w, keys, h))
    ensures h' == HintAfterLookup(side, w, keys, h) && r == Reported(side, w, keys, h)
  {
    h' := GridBest(side, w, bits, h, over, keys);
    var g := if h' < 0 then 0 else PriceOf(w, h');
    var o := if over == {} then 0 else Best(side, over);
    r := if g == 0 then o else if o == 0 then g else if Better(side, g, o) then g else o;
    OverOrGrid(w, bits, over, keys);
    assert OffGrid(w, keys) == over;
    ReportedLive(side, w, keys, h);
    if keys != {} {
      ReportedIsBestIff(side, w, keys, h);
    }
  }

  /** A lookup answers a live price, or 0; where no level is priced 0, only for an empty side. */
  lemma ReportedLive(side: Side, w: Window, keys: set<nat>, h: int)
    requires Aligned(w) && HintLive(w, keys, h)
    ensures var r := Reported(side, w, keys, h); (r != 0 ==> r in keys) && (0 !in keys && r == 0 ==> keys == {})
  {
    LookupLive(side, w, keys, h);
    if keys != {} {
      var k :| k in keys;
      assert InGrid(w, k) || k in OffGrid(w, keys);
    }
  }

  /** A lookup finds a tick unless the window is empty. */
  lemma LookupLive(side: Side, w: Window, keys: set<nat>, h: int)
    requires Aligned(w) && HintLive(w, keys, h)
    ensures var h' := HintAfterLookup(side, w, keys, h);
      HintLive(w, keys, h') && (h' == UNKNOWN <==> GridPrices(w, keys) == {}) && (h != UNKNOWN ==> h' == h)
  {
    var g := GridPrices(w, keys);
    if h != UNKNOWN {
      PriceOfTick(w, h);
      assert PriceOf(w, h) in g;
    } else if g != {} {
      TickOfPrice(w, Best(side, g));
    }
  }

  /** Whether a lookup that starts from the cached tick `h` can answer the best price: the tick is exact or that
      price lies outside the window. An ask of 0 is answered only where nothing else is seen. */
  ghost predicate Answerable(side: Side, w: Window, keys: set<nat>, h: int)
    requires keys != {}
  {
    if side == Sell && 0 in keys
    then (if InGrid(w, 0) then HintExact(side, w, keys, h) && OffGrid(w, keys) == {} else GridPrices(w, keys) == {})
    else HintExact(side, w, keys, h) || !InGrid(w, Best(side, keys))
  }

  /** A lookup answers the true best price if and only if it can. */
  lemma ReportedIsBestIff(side: Side, w: Window, keys: set<nat>, h: int)
    requires Aligned(w) && HintLive(w, keys, h) && keys != {}
    ensures IsBest(side, keys, Reported(side, w, keys, h)) <==> Answerable(side, w, keys, h)
  {
    var off, g := OffGrid(w, keys), GridPrices(w, keys);
    assert keys == g + off && g !! off;
    LookupLive(side, w, keys, h);
    hide HintAfterLookup, HintExact, IsBest;
    var h' := HintAfterLookup(side, w, keys, h);
    if g == {} {
      assert HintExact(side, w, keys, h) ==> Best(side, keys) in off;
      PickIsBest(side, g, off, 0);
    } else {
      ExactIffBest(side, w, keys, h);
      PriceOfTick(w, h');
      PickIsBest(side, g, off, PriceOf(w, h'));
    }
  }

  lemma BestOfTwo(side: Side, g: set<nat>, off: set<nat>)
    requires g !! off
    ensures off == {} && g != {} ==> Best(side, g + off) == Best(side, g)
    ensures off != {} ==>
      Best(side, g + off) ==
        if g == {} || Better(side, Best(side, off), Best(side, g)) then Best(side, off) else Best(side, g)
  {
    if g != {} {
      BestIsNot(side, g, off);
    } else if off != {} {
      assert g + off == off;
    }
  }

  lemma BestIsNot(side: Side, g: set<nat>, off: set<nat>)
    requires g !! off && g != {}
    ensures Best(side, g + off) ==
      if off != {} && Better(side, Best(side, off), Best(side, g)) then Best(side, off) else Best(side, g)
  {
    BestIs(side, g + off,
      if off != {} && Better(side, Best(side, off), Best(side, g)) then Best(side, off) else Best(side, g));
  }

  /** The better of a price of `g` and the best one of `off`. */
  lemma PickIsBest(side: Side, g: set<nat>, off: set<nat>, t: nat)
    requires g !! off && g + off != {} && (if g == {} then t == 0 else t in g)
    ensures var keys, exact := g + off, g == {} || t == Best(side, g);
      IsBest(side, keys, Pick(side, t, if off == {} then 0 else Best(side, off))) <==>
        if side == Sell && 0 in keys then (if 0 in g then exact && off == {} else g == {})
        else exact || Best(side, keys) in off
  {
    var keys := g + off;
    var p := Pick(side, t, if off == {} then 0 else Best(side, off));
    BestOfTwo(side, g, off);
    BestIs(side, keys, Best(side, keys));
    assert IsBest(side, keys, p) <==> p == Best(side, keys);
    if g != {} {
      assert t == Best(side, g) || Better(side, Best(side, g), t);
    }
    assert side == Sell && 0 in g ==> Best(side, g) == 0;
    assert side == Sell && 0 in off ==> Best(side, off) == 0;
  }

  /** The tick a lookup ends with is that of the best window price if and only if the one it starts from is
      exact. */
  lemma ExactIffBest(side: Side, w: Window, keys: set<nat>, h: int)
    requires Aligned(w) && HintLive(w, keys, h) && GridPrices(w, keys) != {}
    ensures HintExact(side, w, keys, h) <==>
      PriceOf(w, HintAfterLookup(side, w, keys, h)) == Best(side, GridPrices(w, keys))
  {
    var g := GridPrices(w, keys);
    if h == UNKNOWN {
      TickOfPrice(w, Best(side, g));
    } else if HintExact(side, w, keys, h) {
      PriceOfTick(w, h);
      BestIs(side, g, PriceOf(w, h));
    }
  }

  lemma OverOrGrid(w: Window, bits: seq<Word>, over: set<nat>, keys: set<nat>)
    requires Indexed(w, bits, over, keys)
    ensures forall k :: k in keys ==> InGrid(w, k) || k in over
    ensures forall k :: k in over ==> k in keys && !InGrid(w, k)
  {
  }
}
