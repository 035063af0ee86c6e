/** The quoting rules. */
module Quoting {

  // What the market maker does with one event, one side of the market at a time: the specification its methods
  // are proved against, with the two theorems about its fill models.

  import opened Ledgers
  import opened QueueModel

  datatype FillModel = QueueAware | Naive

  datatype Quote = Quote(active: bool, px: nat, remaining: nat, aheadAtJoin: nat, inFlight: bool, landsAt: nat,
                         wantActive: bool)

  const IDLE := Quote(false, 0, 0, 0, false, 0, true)

  datatype Fill = Fill(ts: nat, price: nat, qty: nat, side: Side, queueAhead: nat, stale: bool, swept: bool)

  /** Fixed for a run: quote size, re-quote latency and fill rule. */
  datatype Config = Config(size: nat, latency: nat, model: FillModel)

  /** One side of the maker: its quote and the queue position tracked for it. */
  datatype Desk = Desk(q: Quote, pos: Position)

  const START_DESK := Desk(IDLE, AWAY)

  /** The best prices the book reports; 0 stands for an empty side. */
  datatype Touch = Touch(bid: nat, ask: nat)

  predicate TwoSided(t: Touch) {
    t.bid != 0 && t.ask != 0 && t.bid < t.ask
  }

  function At(t: Touch, side: Side): nat {
    if side == Buy then t.bid else t.ask
  }

  /** An event, the touch read before and after it, and the sides on which quoting is allowed. */
  datatype Tick = Tick(e: BookEvent, before: Touch, after: Touch, allowBid: bool, allowAsk: bool)

  function Allowed(k: Tick, side: Side): bool {
    if side == Buy then k.allowBid else k.allowAsk
  }

  function Filled(d: Desk, f: nat): Desk {
    var rest := d.q.remaining - Min(f, d.q.remaining);
    if f == 0 then d
    else if rest == 0 then Desk(d.q.(remaining := 0, active := false), Left(d.pos))
    else d.(q := d.q.(remaining := rest))
  }

  function FillOf(d: Desk, e: BookEvent, side: Side, f: nat, swept: bool): seq<Fill> {
    if f == 0 then [] else [Fill(e.ts, d.q.px, f, side, d.q.aheadAtJoin, d.q.inFlight, swept)]
  }

  /** `step_side`: `r` is the order the event names, as it stood before the event. */
  function Step(c: Config, d: Desk, side: Side, r: Resting, e: BookEvent): (Desk, seq<Fill>) {
    if !d.q.active || r.side != side then (d, [])
    else if e.kind.Execute? && Better(side, d.q.px, r.px) then
      var f := Min(e.shares, d.q.remaining);
      (Filled(d, f), FillOf(d, e, side, f, true))
    else if r.px != d.q.px then (d, [])
    else if e.kind.Execute? then
      if c.model.Naive? then
        var f := Min(e.shares, d.q.remaining);
        (Filled(d, f), FillOf(d, e, side, f, false))
      else
        var f := Reached(d.pos, e.shares, d.q.remaining);
        (Filled(d.(pos := Executed(d.pos, r.stamp, e.shares)), f), FillOf(d, e, side, f, false))
    else if e.kind.Cancel? then (d.(pos := Withdrew(d.pos, r.stamp, e.shares)), [])
    else if e.kind.Delete? || e.kind.Replace? then (d.(pos := Withdrew(d.pos, r.stamp, r.qty)), [])
    else (d, [])
  }

  function Decide(c: Config, d: Desk, target: nat, now: nat, allow: bool): Desk {
    if d.q.inFlight || (d.q.active == allow && (!d.q.active || d.q.px == target)) then d
    else d.(q := d.q.(inFlight := true, wantActive := allow, landsAt := now + c.latency))
  }

  predicate Due(d: Desk, now: nat) {
    d.q.inFlight && now >= d.q.landsAt
  }

  /** `land_if_due` and `join`. */
  function Land(c: Config, d: Desk, l: Ledger, side: Side, target: nat, now: nat): Desk {
    if !Due(d, now) then d
    else if !d.q.wantActive then Desk(d.q.(inFlight := false, active := false), Left(d.pos))
    else
      var resting := Shares(l.live, side, target);
      Desk(d.q.(inFlight := false, active := true, px := target, remaining := c.size, aheadAtJoin := resting),
           Joined(d.pos, resting, l.clock))
  }

  function Opening(c: Config, d: Desk, side: Side, l: Ledger, k: Tick): Desk {
    if TwoSided(k.before) then Land(c, d, l, side, At(k.before, side), k.e.ts) else d
  }

  function Traded(c: Config, d: Desk, side: Side, l: Ledger, k: Tick): (Desk, seq<Fill>) {
    var named := Named(l, k.e);
    if named == [] then (d, []) else Step(c, d, side, named[0], k.e)
  }

  function Closing(c: Config, d: Desk, side: Side, l: Ledger, k: Tick): Desk {
    if TwoSided(k.after) then
      Land(c, Decide(c, d, At(k.after, side), k.e.ts, Allowed(k, side)), l, side, At(k.after, side), k.e.ts)
    else d
  }

  /** `on_event` for one side: a replacement due lands in the book as it stood; the event trades against the
      quote then resting; the maker decides, and with no latency the decision lands at once. */
  function OnEvent(c: Config, d: Desk, side: Side, l: Ledger, k: Tick): (Desk, seq<Fill>) {
    var (d', fills) := Traded(c, Opening(c, d, side, l, k), side, l, k);
    (Closing(c, d', side, After(l, k.e), k), fills)
  }

  /** A decision, and the book at a later time: until the latency has passed the old quote rests untouched; from
      then on the side is quoted exactly if it was allowed, at the target, by the quote that stood there already
      or by a full one at the back of the queue. */
  lemma DecisionLands(c: Config, d: Desk, l: Ledger, side: Side, target: nat, now: nat, allow: bool, later: nat)
    requires !d.q.inFlight
    ensures var d' := Land(c, Decide(c, d, target, now, allow), l, side, target, later);
      var asWanted := d.q.active == allow && (allow ==> d.q.px == target);
      if asWanted then d' == d
      else if later < now + c.latency then
        d'.q.inFlight && d'.pos == d.pos && d'.q.active == d.q.active && d'.q.px == d.q.px
        && d'.q.remaining == d.q.remaining
      else
        !d'.q.inFlight && d'.q.active == allow
        && (allow ==> d'.q.px == target && d'.q.remaining == c.size && d'.pos.ahead == Shares(l.live, side, target)
                      && d'.pos.joinSeq == l.clock)
  {
  }

  /** A change in flight stands, whatever is signalled meanwhile: until it is due in a two-sided market its aim and its
      time stay what they were. It lands before the event if it can and after it otherwise; then the side is quoted
      exactly if that was the aim, in full at the touch. */
  lemma InFlightStands(c: Config, d: Desk, side: Side, l: Ledger, k: Tick)
    requires d.q.inFlight
    ensures var d1, d' := Opening(c, d, side, l, k), OnEvent(c, d, side, l, k).0;
      if k.e.ts >= d.q.landsAt && 0 < k.before.bid < k.before.ask then
        !d1.q.inFlight && d1.q.active == d.q.wantActive
        && (d1.q.active ==> d1.q.px == At(k.before, side) && d1.q.remaining == c.size && d1.pos.joinSeq == l.clock)
      else if k.e.ts >= d.q.landsAt && 0 < k.after.bid < k.after.ask then
        d1 == d && !d'.q.inFlight && d'.q.active == d.q.wantActive
        && (d'.q.active ==> d'.q.px == At(k.after, side) && d'.q.remaining == c.size)
      else d1 == d && d'.q.inFlight && d'.q.wantActive == d.q.wantActive && d'.q.landsAt == d.q.landsAt
  {
    hide After, Shares, Traded, Land;
    var d1 := Opening(c, d, side, l, k);
    var d2 := Traded(c, d1, side, l, k).0;
    TradedFlight(c, d1, side, l, k);
    LandFlight(c, d, l, side, At(k.before, side), k.e.ts);
    LandFlight(c, d2, After(l, k.e), side, At(k.after, side), k.e.ts);
  }

  /** While no change is in flight an event that leaves a two-sided market makes the maker want the touch where quoting
      is allowed and nothing elsewhere: what rests there already stays, and anything else is under way from now on,
      for the whole latency. */
  lemma EventDecides(c: Config, d: Desk, side: Side, l: Ledger, k: Tick)
    requires !d.q.inFlight && 0 < k.after.bid < k.after.ask
    ensures var d2, d' := Traded(c, d, side, l, k).0, OnEvent(c, d, side, l, k).0;
      var allow := if side == Buy then k.allowBid else k.allowAsk;
      if d2.q.active == allow && (allow ==> d2.q.px == At(k.after, side)) then d' == d2
      else if c.latency > 0 then
        && d'.q.inFlight && d'.q.wantActive == allow && d'.q.landsAt == k.e.ts + c.latency && d'.pos == d2.pos
        && d'.q.active == d2.q.active && d'.q.px == d2.q.px && d'.q.remaining == d2.q.remaining
      else
        && !d'.q.inFlight && d'.q.active == allow
        && (allow ==> d'.q.px == At(k.after, side) && d'.q.remaining == c.size)
  {
    hide After, Shares, Traded;
    TradedFlight(c, d, side, l, k);
  }

  /** Around an event with no two-sided market before or after it nothing is decided and nothing lands. */
  lemma OneSidedStands(c: Config, d: Desk, side: Side, l: Ledger, k: Tick)
    requires (k.before.bid == 0 || k.before.ask == 0 || k.before.bid >= k.before.ask)
    requires (k.after.bid == 0 || k.after.ask == 0 || k.after.bid >= k.after.ask)
    ensures OnEvent(c, d, side, l, k) == Traded(c, d, side, l, k)
    ensures var q, q' := d.q, OnEvent(c, d, side, l, k).0.q;
      && q'.inFlight == q.inFlight && q'.wantActive == q.wantActive && q'.landsAt == q.landsAt
      && q'.px == q.px && q'.aheadAtJoin == q.aheadAtJoin && q'.remaining <= q.remaining && (q'.active ==> q.active)
  {
    hide After, Traded;
    TradedFlight(c, d, side, l, k);
  }

  lemma TradedFlight(c: Config, d: Desk, side: Side, l: Ledger, k: Tick)
    ensures var q, q' := d.q, Traded(c, d, side, l, k).0.q;
      && q'.inFlight == q.inFlight && q'.wantActive == q.wantActive && q'.landsAt == q.landsAt
      && q'.px == q.px && q'.aheadAtJoin == q.aheadAtJoin && q'.remaining <= q.remaining && (q'.active ==> q.active)
  {
    hide Named, Executed, Reached, Withdrew;
  }

  lemma LandFlight(c: Config, d: Desk, l: Ledger, side: Side, target: nat, now: nat)
    ensures var d' := Land(c, d, l, side, target, now);
      if d.q.inFlight && now >= d.q.landsAt then
        !d'.q.inFlight && d'.q.active == d.q.wantActive
        && (d'.q.active ==> d'.q.px == target && d'.q.remaining == c.size && d'.pos.joinSeq == l.clock)
      else d' == d
  {
    hide Shares;
  }

  /** Runs from an empty book and an idle desk. */
  function BookAfter(ks: seq<Tick>): Ledger {
    if ks == [] then START else After(BookAfter(ks[..|ks| - 1]), ks[|ks| - 1].e)
  }

  function DeskAfter(c: Config, side: Side, ks: seq<Tick>): Desk {
    if ks == [] then START_DESK
    else OnEvent(c, DeskAfter(c, side, ks[..|ks| - 1]), side, BookAfter(ks[..|ks| - 1]), ks[|ks| - 1]).0
  }

  function FillsAfter(c: Config, side: Side, ks: seq<Tick>): seq<Fill> {
    if ks == [] then []
    else
      var before := ks[..|ks| - 1];
      FillsAfter(c, side, before) + OnEvent(c, DeskAfter(c, side, before), side, BookAfter(before), ks[|ks| - 1]).1
  }

  ghost predicate AcceptableRun(ks: seq<Tick>) {
    ks == [] || (AcceptableRun(ks[..|ks| - 1]) && Acceptable(BookAfter(ks[..|ks| - 1]), ks[|ks| - 1].e))
  }

  lemma {:induction false} RunWellFormed(ks: seq<Tick>)
    requires AcceptableRun(ks)
    ensures WellFormed(BookAfter(ks))
  {
    if ks != [] {
      RunWellFormed(ks[..|ks| - 1]);
      AfterWellFormed(BookAfter(ks[..|ks| - 1]), ks[|ks| - 1].e);
    }
  }

  // ---- queue position is a lower bound, and exact while nothing unusual trades ----

  ghost function TrueAhead(d: Desk, side: Side, l: Ledger): nat {
    Ahead(l.live, side, d.q.px, d.pos.joinSeq)
  }

  /** What is believed to be ahead of an active quote really is. */
  ghost predicate Bounded(d: Desk, side: Side, l: Ledger) {
    d.q.active ==> d.pos.joinSeq <= l.clock && d.pos.ahead <= TrueAhead(d, side, l)
  }

  lemma LandBounded(c: Config, d: Desk, side: Side, l: Ledger, target: nat, now: nat)
    requires WellFormed(l) && Bounded(d, side, l)
    ensures Bounded(Land(c, d, l, side, target, now), side, l)
  {
    AheadOfNewcomer(l, side, target);
  }

  lemma StepTracks(c: Config, d: Desk, side: Side, r: Resting, e: BookEvent)
    requires c.model.QueueAware? && !e.kind.Add?
    ensures var d' := Step(c, d, side, r, e).0; var g := GivenBy(r, e, side, d.q.px, d.pos.joinSeq);
      d'.q.active ==>
        d.q.active && d'.q.px == d.q.px && d'.pos.joinSeq == d.pos.joinSeq
          && d'.pos.ahead <= d.pos.ahead - Min(g, d.pos.ahead)
  {
  }

  /** A trade or withdrawal moves the tracked position down at least as far as the real queue shrinks. */
  lemma TradedTracks(c: Config, d: Desk, side: Side, l: Ledger, k: Tick)
    requires c.model.QueueAware?
    ensures var d' := Traded(c, d, side, l, k).0; var g := Given(l, k.e, side, d.q.px, d.pos.joinSeq);
      d'.q.active ==>
        d.q.active && d'.q.px == d.q.px && d'.pos.joinSeq == d.pos.joinSeq
          && d'.pos.ahead <= d.pos.ahead - Min(g, d.pos.ahead)
  {
    hide Step, GivenBy, Has, IndexOf;
    var named := Named(l, k.e);
    if named != [] {
      StepTracks(c, d, side, named[0], k.e);
    }
  }

  lemma TradedBounded(c: Config, d: Desk, side: Side, l: Ledger, k: Tick)
    requires c.model.QueueAware? && Bounded(d, side, l)
    ensures Bounded(Traded(c, d, side, l, k).0, side, After(l, k.e))
  {
    hide Traded, Given, After, Ahead;
    TradedTracks(c, d, side, l, k);
    if d.q.active {
      AheadAfter(l, k.e, side, d.q.px, d.pos.joinSeq);
    }
  }

  lemma OnEventBounded(c: Config, d: Desk, side: Side, l: Ledger, k: Tick)
    requires c.model.QueueAware? && WellFormed(l) && Acceptable(l, k.e) && Bounded(d, side, l)
    ensures Bounded(OnEvent(c, d, side, l, k).0, side, After(l, k.e))
  {
    var d1 := Opening(c, d, side, l, k);
    LandBounded(c, d, side, l, At(k.before, side), k.e.ts);
    TradedBounded(c, d1, side, l, k);
    AfterWellFormed(l, k.e);
    var d2 := Traded(c, d1, side, l, k).0;
    LandBounded(c, Decide(c, d2, At(k.after, side), k.e.ts, Allowed(k, side)), side, After(l, k.e), At(k.after, side),
      k.e.ts);
  }

  /** In every reachable state of the queue-aware maker the tracked position is at most the shares of the
      orders at the quote's price stamped before it joined. */
  lemma {:induction false} PositionIsBound(c: Config, side: Side, ks: seq<Tick>)
    requires c.model.QueueAware? && AcceptableRun(ks)
    ensures Bounded(DeskAfter(c, side, ks), side, BookAfter(ks))
  {
    if ks != [] {
      var before, k := ks[..|ks| - 1], ks[|ks| - 1];
      PositionIsBound(c, side, before);
      RunWellFormed(before);
      OnEventBounded(c, DeskAfter(c, side, before), side, BookAfter(before), k);
    }
  }

  /** Since the last join: the violation count then, and whether every execution and cancel at the quote's level
      that named an order ahead of us stayed within that order's size. */
  datatype Audit = Audit(behind: nat, clean: bool)

  /** The event takes more from an order ahead of the quote than it has. */
  predicate Overruns(d: Desk, side: Side, l: Ledger, e: BookEvent) {
    var named := Named(l, e);
    named != [] && (e.kind.Execute? || e.kind.Cancel?)
    && named[0].side == side && named[0].px == d.q.px && named[0].stamp < d.pos.joinSeq && e.shares > named[0].qty
  }

  function AuditLand(d: Desk, a: Audit, now: nat): Audit {
    if Due(d, now) && d.q.wantActive then Audit(d.pos.behind, true) else a
  }

  function AuditEvent(c: Config, d: Desk, a: Audit, side: Side, l: Ledger, k: Tick): Audit {
    var d1 := Opening(c, d, side, l, k);
    var a1 := if TwoSided(k.before) then AuditLand(d, a, k.e.ts) else a;
    var a2 := a1.(clean := a1.clean && !Overruns(d1, side, l, k.e));
    var d2 := Traded(c, d1, side, l, k).0;
    if TwoSided(k.after) then AuditLand(Decide(c, d2, At(k.after, side), k.e.ts, Allowed(k, side)), a2, k.e.ts) else a2
  }

  function AuditAfter(c: Config, side: Side, ks: seq<Tick>): Audit {
    if ks == [] then Audit(0, true)
    else
      var before := ks[..|ks| - 1];
      AuditEvent(c, DeskAfter(c, side, before), AuditAfter(c, side, before), side, BookAfter(before), ks[|ks| - 1])
  }

  /** Nothing unusual since the join makes the tracked position exact. */
  ghost predicate Exact(d: Desk, a: Audit, side: Side, l: Ledger) {
    && a.behind <= d.pos.behind
    && (d.q.active && a.clean && d.pos.behind == a.behind ==> d.pos.ahead == TrueAhead(d, side, l))
  }

  lemma LandExact(c: Config, d: Desk, a: Audit, side: Side, l: Ledger, target: nat, now: nat)
    requires WellFormed(l) && Exact(d, a, side, l)
    ensures Exact(Land(c, d, l, side, target, now), AuditLand(d, a, now), side, l)
  {
    AheadOfNewcomer(l, side, target);
  }

  lemma StepFollows(c: Config, d: Desk, side: Side, r: Resting, e: BookEvent)
    requires c.model.QueueAware? && !e.kind.Add?
    requires !((e.kind.Execute? || e.kind.Cancel?) && r.side == side && r.px == d.q.px && r.stamp < d.pos.joinSeq
               && e.shares > r.qty)
    ensures var d' := Step(c, d, side, r, e).0; var g := GivenBy(r, e, side, d.q.px, d.pos.joinSeq);
      d'.q.active && d'.pos.behind == d.pos.behind && g <= d.pos.ahead ==> d'.pos.ahead == d.pos.ahead - g
  {
  }

  /** While nothing unusual happens the tracked position and the real queue shrink by the same amount. */
  lemma TradedFollows(c: Config, d: Desk, side: Side, l: Ledger, k: Tick)
    requires c.model.QueueAware? && !Overruns(d, side, l, k.e)
    ensures var d' := Traded(c, d, side, l, k).0; var g := Given(l, k.e, side, d.q.px, d.pos.joinSeq);
      d'.q.active && d'.pos.behind == d.pos.behind && g <= d.pos.ahead ==> d'.pos.ahead == d.pos.ahead - g
  {
    hide Step, GivenBy, Has, IndexOf;
    var named := Named(l, k.e);
    if named != [] {
      StepFollows(c, d, side, named[0], k.e);
    }
  }

  lemma TradedMonotone(c: Config, d: Desk, side: Side, l: Ledger, k: Tick)
    ensures Traded(c, d, side, l, k).0.pos.behind >= d.pos.behind
  {
    hide Has, IndexOf;
  }

  lemma TradedExact(c: Config, d: Desk, a: Audit, side: Side, l: Ledger, k: Tick)
    requires c.model.QueueAware? && Bounded(d, side, l) && Exact(d, a, side, l)
    ensures Exact(Traded(c, d, side, l, k).0, a.(clean := a.clean && !Overruns(d, side, l, k.e)), side, After(l, k.e))
  {
    hide Traded, Given, After, Ahead, Overruns;
    TradedTracks(c, d, side, l, k);
    TradedMonotone(c, d, side, l, k);
    if !Overruns(d, side, l, k.e) {
      TradedFollows(c, d, side, l, k);
    }
    if d.q.active {
      AheadAfter(l, k.e, side, d.q.px, d.pos.joinSeq);
    }
  }

  lemma OnEventExact(c: Config, d: Desk, a: Audit, side: Side, l: Ledger, k: Tick)
    requires c.model.QueueAware? && WellFormed(l) && Acceptable(l, k.e) && Bounded(d, side, l) && Exact(d, a, side, l)
    ensures Exact(OnEvent(c, d, side, l, k).0, AuditEvent(c, d, a, side, l, k), side, After(l, k.e))
  {
    hide Land, Traded, Decide, AuditLand, Overruns, After, Ahead, Acceptable;
    var d1 := Opening(c, d, side, l, k);
    LandBounded(c, d, side, l, At(k.before, side), k.e.ts);
    LandExact(c, d, a, side, l, At(k.before, side), k.e.ts);
    var a1 := if TwoSided(k.before) then AuditLand(d, a, k.e.ts) else a;
    TradedExact(c, d1, a1, side, l, k);
    AfterWellFormed(l, k.e);
    var d2 := Traded(c, d1, side, l, k).0;
    var d3 := Decide(c, d2, At(k.after, side), k.e.ts, Allowed(k, side));
    DecideKeeps(c, d2, At(k.after, side), k.e.ts, Allowed(k, side));
    LandExact(c, d3, a1.(clean := a1.clean && !Overruns(d1, side, l, k.e)), side, After(l, k.e), At(k.after, side),
      k.e.ts);
  }

  lemma DecideKeeps(c: Config, d: Desk, target: nat, now: nat, allow: bool)
    ensures var d' := Decide(c, d, target, now, allow);
      d'.pos == d.pos && d'.q.active == d.q.active && d'.q.px == d.q.px
  {
  }

  /** In every reachable state the tracked position is exact if, since the join, the violation count has not
      risen and no execution or cancel exceeded the size of an order ahead. */
  lemma {:induction false} PositionIsExact(c: Config, side: Side, ks: seq<Tick>)
    requires c.model.QueueAware? && AcceptableRun(ks)
    ensures Exact(DeskAfter(c, side, ks), AuditAfter(c, side, ks), side, BookAfter(ks))
  {
    if ks != [] {
      var before, k := ks[..|ks| - 1], ks[|ks| - 1];
      PositionIsExact(c, side, before);
      PositionIsBound(c, side, before);
      RunWellFormed(before);
      OnEventExact(c, DeskAfter(c, side, before), AuditAfter(c, side, before), side, BookAfter(before), k);
    }
  }

  // ---- when the position is exact, event by event ----

  /** What is believed to be ahead of an active quote is exactly what is. */
  ghost predicate Tight(d: Desk, side: Side, l: Ledger) {
    d.q.active ==> d.pos.joinSeq <= l.clock && d.pos.ahead == TrueAhead(d, side, l)
  }

  /** The order named rests at the quote's price, and the position gives up more for it than it gives up itself: an
      execution or cancel takes more than the order has from one that is ahead but not all that is ahead, or an
      execution of one that is behind counts against those ahead. */
  predicate Strays(d: Desk, side: Side, r: Resting, e: BookEvent) {
    && r.side == side && r.px == d.q.px
    && if r.stamp < d.pos.joinSeq
       then (e.kind.Execute? || e.kind.Cancel?) && e.shares > r.qty && d.pos.ahead != r.qty
       else e.kind.Execute? && e.shares > 0 && d.pos.ahead > 0
  }

  lemma StepStrays(c: Config, d: Desk, side: Side, r: Resting, e: BookEvent)
    requires c.model.QueueAware? && !e.kind.Add? && d.q.active
    requires r.side == side && r.px == d.q.px && r.stamp < d.pos.joinSeq ==> r.qty <= d.pos.ahead
    ensures var d' := Step(c, d, side, r, e).0;
      d'.q.active ==>
        && d'.q.px == d.q.px && d'.pos.joinSeq == d.pos.joinSeq
        && (d'.pos.ahead == d.pos.ahead - GivenBy(r, e, side, d.q.px, d.pos.joinSeq) <==> !Strays(d, side, r, e))
  {
  }

  ghost predicate StraysOn(d: Desk, side: Side, l: Ledger, e: BookEvent) {
    Named(l, e) != [] && Strays(d, side, Named(l, e)[0], e)
  }

  /** An order ahead has no more shares than all that is ahead. */
  lemma NamedAhead(l: Ledger, e: BookEvent, side: Side, px: nat, stamp: nat)
    requires Named(l, e) != []
    ensures var r := Named(l, e)[0];
      r.side == side && r.px == px && r.stamp < stamp ==> r.qty <= Ahead(l.live, side, px, stamp)
  {
    SumMember(l.live, IndexOf(l.live, e.ref), AheadAt(side, px, stamp));
  }

  lemma TradedTight(c: Config, d: Desk, side: Side, l: Ledger, k: Tick)
    requires c.model.QueueAware? && d.q.active && Tight(d, side, l)
    ensures var d' := Traded(c, d, side, l, k).0;
      d'.q.active ==> (Tight(d', side, After(l, k.e)) <==> !StraysOn(d, side, l, k.e))
  {
    hide Step, GivenBy, Has, Ahead, After, Strays;
    var named := Named(l, k.e);
    AheadAfter(l, k.e, side, d.q.px, d.pos.joinSeq);
    if named != [] {
      NamedAhead(l, k.e, side, d.q.px, d.pos.joinSeq);
      StepStrays(c, d, side, named[0], k.e);
    }
  }

  /** The decision after the event takes effect at once: the quote moves or is pulled. */
  predicate Resettles(c: Config, d: Desk, side: Side, k: Tick) {
    TwoSided(k.after) && Due(Decide(c, d, At(k.after, side), k.e.ts, Allowed(k, side)), k.e.ts)
  }

  lemma LandTight(c: Config, d: Desk, side: Side, l: Ledger, target: nat, now: nat)
    requires WellFormed(l)
    ensures var d' := Land(c, d, l, side, target, now); if Due(d, now) then Tight(d', side, l) else d' == d
  {
    AheadOfNewcomer(l, side, target);
  }

  lemma ClosingTight(c: Config, d: Desk, side: Side, l: Ledger, k: Tick)
    requires WellFormed(l)
    ensures var d' := Closing(c, d, side, l, k);
      if Resettles(c, d, side, k) then Tight(d', side, l)
      else d'.q.active == d.q.active && (Tight(d', side, l) <==> Tight(d, side, l))
  {
    hide Land, Decide, Ahead, WellFormed;
    DecideKeeps(c, d, At(k.after, side), k.e.ts, Allowed(k, side));
    LandTight(c, Decide(c, d, At(k.after, side), k.e.ts, Allowed(k, side)), side, l, At(k.after, side), k.e.ts);
  }

  /** The position goes astray: the event makes it stray, the quote survives it, and no decision moves the quote. */
  ghost predicate GoesAstray(c: Config, d: Desk, side: Side, l: Ledger, k: Tick) {
    var d1 := Opening(c, d, side, l, k);
    var d2 := Traded(c, d1, side, l, k).0;
    d1.q.active && d2.q.active && StraysOn(d1, side, l, k.e) && !Resettles(c, d2, side, k)
  }

  /** From an exact position an event leads to an exact one if and only if it does not go astray. */
  lemma OnEventTight(c: Config, d: Desk, side: Side, l: Ledger, k: Tick)
    requires c.model.QueueAware? && WellFormed(l) && Acceptable(l, k.e) && Tight(d, side, l)
    ensures Tight(OnEvent(c, d, side, l, k).0, side, After(l, k.e)) <==> !GoesAstray(c, d, side, l, k)
  {
    hide Land, Traded, Closing, After, Ahead, Acceptable, WellFormed, StraysOn, Resettles;
    LandTight(c, d, side, l, At(k.before, side), k.e.ts);
    var d1 := Opening(c, d, side, l, k);
    assert Tight(d1, side, l);
    var d2 := Traded(c, d1, side, l, k).0;
    AfterWellFormed(l, k.e);
    ClosingTight(c, d2, side, After(l, k.e), k);
    TradedTracks(c, d1, side, l, k);
    if d1.q.active {
      TradedTight(c, d1, side, l, k);
    }
  }

  ghost predicate TightAt(c: Config, side: Side, ks: seq<Tick>, k: nat)
    requires k <= |ks|
  {
    Tight(DeskAfter(c, side, ks[..k]), side, BookAfter(ks[..k]))
  }

  ghost predicate AstrayAt(c: Config, side: Side, ks: seq<Tick>, k: nat)
    requires k < |ks|
  {
    GoesAstray(c, DeskAfter(c, side, ks[..k]), side, BookAfter(ks[..k]), ks[k])
  }

  lemma TightStep(c: Config, side: Side, ks: seq<Tick>, k: nat)
    requires c.model.QueueAware? && AcceptableRun(ks) && k < |ks| && TightAt(c, side, ks, k)
    ensures TightAt(c, side, ks, k + 1) <==> !AstrayAt(c, side, ks, k)
  {
    hide Tight, GoesAstray, OnEvent, After, Acceptable, WellFormed, AcceptableRun;
    RunFront(ks, k + 1);
    assert ks[..k + 1][..k] == ks[..k];
    RunLast(ks[..k + 1]);
    RunWellFormed(ks[..k]);
    OnEventTight(c, DeskAfter(c, side, ks[..k]), side, BookAfter(ks[..k]), ks[k]);
  }

  lemma {:induction false} RunFront(ks: seq<Tick>, k: nat)
    requires AcceptableRun(ks) && k <= |ks|
    ensures AcceptableRun(ks[..k])
  {
    if k == |ks| {
      assert ks[..k] == ks;
    } else {
      assert ks[..|ks| - 1][..k] == ks[..k];
      RunFront(ks[..|ks| - 1], k);
    }
  }

  lemma RunLast(ks: seq<Tick>)
    requires AcceptableRun(ks) && ks != []
    ensures AcceptableRun(ks[..|ks| - 1]) && Acceptable(BookAfter(ks[..|ks| - 1]), ks[|ks| - 1].e)
  {
  }

  /** From any point at which the tracked position was exact, as it is at the start and after every join, it stays
      exact up to a later point if and only if no event between has led it astray. */
  lemma {:induction false} TightAlong(c: Config, side: Side, ks: seq<Tick>, from: nat, upTo: nat)
    requires c.model.QueueAware? && AcceptableRun(ks) && from <= upTo <= |ks| && TightAt(c, side, ks, from)
    ensures (forall k :: from <= k <= upTo ==> TightAt(c, side, ks, k)) <==>
      (forall k :: from <= k < upTo ==> !AstrayAt(c, side, ks, k))
  {
    hide TightAt, AstrayAt, AcceptableRun;
    if from < upTo {
      TightAlong(c, side, ks, from, upTo - 1);
      if TightAt(c, side, ks, upTo - 1) {
        TightStep(c, side, ks, upTo - 1);
      }
    }
  }

  // ---- the naive model overstates ----

  /** Shares filled so far. */
  function Volume(fills: seq<Fill>): nat {
    if fills == [] then 0 else Volume(fills[..|fills| - 1]) + fills[|fills| - 1].qty
  }

  lemma {:induction false} VolumeConcat(a: seq<Fill>, b: seq<Fill>)
    ensures Volume(a + b) == Volume(a) + Volume(b)
  {
    if b == [] {
      assert a + b == a;
    } else {
      VolumeConcat(a, b[..|b| - 1]);
      assert (a + b)[..|a + b| - 1] == a + b[..|b| - 1];
    }
  }

  /** A desk between two events of a run without latency: no change is in flight, and an active quote has shares
      left. */
  ghost predicate Settled(d: Desk, size: nat) {
    && !d.q.inFlight && d.q.remaining <= size
    && (d.q.active ==> d.q.remaining > 0 || size == 0)
  }

  /** Shares a desk still offers. */
  function Offered(d: Desk): nat {
    if d.q.active then d.q.remaining else 0
  }

  /** Naive and queue-aware desk side by side, with the shares filled so far. Counting filled plus offered, the
      naive desk is never behind, and where it offers more than the other it is a full quote ahead. */
  ghost predicate Dominates(n: Desk, nv: nat, a: Desk, av: nat, size: nat) {
    && Settled(n, size) && Settled(a, size) && n.q.px == a.q.px
    && av + Offered(a) <= nv + Offered(n)
    && (Offered(n) <= Offered(a) || av + Offered(a) + size <= nv + Offered(n))
  }

  lemma DominatesMeans(n: Desk, nv: nat, a: Desk, av: nat, size: nat)
    requires Dominates(n, nv, a, av, size)
    ensures av <= nv
  {
  }

  lemma OpeningSettled(c: Config, d: Desk, side: Side, l: Ledger, k: Tick)
    requires Settled(d, c.size)
    ensures Opening(c, d, side, l, k) == d
  {
  }

  lemma FillVolume(d: Desk, e: BookEvent, side: Side, f: nat, swept: bool)
    ensures Volume(FillOf(d, e, side, f, swept)) == f
  {
    assert f > 0 ==> FillOf(d, e, side, f, swept)[..0] == [];
  }

  /** The event trades at our price, or through it. */
  predicate Hits(d: Desk, side: Side, r: Resting, e: BookEvent) {
    r.side == side && e.kind.Execute? && (Better(side, d.q.px, r.px) || r.px == d.q.px)
  }

  /** Both models fill from the remaining shares; on a hit the naive one takes all it can, the other no more. */
  lemma StepTakes(c: Config, d: Desk, side: Side, r: Resting, e: BookEvent)
    requires Settled(d, c.size)
    ensures var (d', fills) := Step(c, d, side, r, e);
      && Settled(d', c.size) && d'.q.px == d.q.px && Volume(fills) + Offered(d') == Offered(d)
      && (!Hits(d, side, r, e) ==> Offered(d') == Offered(d))
      && (Hits(d, side, r, e) ==> Offered(d') >= Offered(d) - Min(e.shares, Offered(d)))
      && (Hits(d, side, r, e) && c.model.Naive? ==> Offered(d') == Offered(d) - Min(e.shares, Offered(d)))
  {
    hide Volume, FillOf;
    var all, reached := Min(e.shares, d.q.remaining), Reached(d.pos, e.shares, d.q.remaining);
    FillVolume(d, e, side, all, true);
    FillVolume(d, e, side, all, false);
    FillVolume(d, e, side, reached, false);
    assert Volume([]) == 0 by { EmptyVolume(); }
  }

  lemma EmptyVolume()
    ensures Volume([]) == 0
  {
  }

  lemma TradedDominates(cn: Config, n: Desk, nv: nat, ca: Config, a: Desk, av: nat, side: Side, l: Ledger, k: Tick)
    requires cn == ca.(model := Naive) && Dominates(n, nv, a, av, ca.size)
    ensures var (n', fn) := Traded(cn, n, side, l, k); var (a', fa) := Traded(ca, a, side, l, k);
      Dominates(n', nv + Volume(fn), a', av + Volume(fa), ca.size)
  {
    hide Step, Volume;
    EmptyVolume();
    var named := Named(l, k.e);
    if named != [] {
      StepTakes(cn, n, side, named[0], k.e);
      StepTakes(ca, a, side, named[0], k.e);
    }
  }

  /** Without latency a decision lands at once: where quoting is allowed the quote ends at the touch, whole if it
      had to move or was gone, and otherwise it is pulled. */
  lemma ClosingJoins(c: Config, d: Desk, side: Side, l: Ledger, k: Tick)
    requires Settled(d, c.size) && c.latency == 0
    ensures var d' := Closing(c, d, side, l, k);
      Settled(d', c.size) && Moves(d, d', TwoSided(k.after), Allowed(k, side), At(k.after, side), c.size)
  {
  }

  /** What a decision that lands makes of a desk's quote. */
  predicate Moves(d: Desk, d': Desk, decides: bool, allow: bool, target: nat, size: nat) {
    if !decides || (d.q.active == allow && (allow ==> d.q.px == target)) then d' == d
    else if allow then d'.q.active && d'.q.px == target && d'.q.remaining == size
    else !d'.q.active && d'.q.px == d.q.px
  }

  /** Each desk keeps its quote, starts a whole one at the same new price, or pulls it. */
  lemma JoinDominates(n: Desk, nv: nat, a: Desk, av: nat, n': Desk, a': Desk, decides: bool, allow: bool, target: nat,
                      size: nat)
    requires Dominates(n, nv, a, av, size) && Settled(n', size) && Settled(a', size)
    requires Moves(n, n', decides, allow, target, size) && Moves(a, a', decides, allow, target, size)
    ensures Dominates(n', nv, a', av, size)
  {
  }

  lemma OnEventDominates(cn: Config, n: Desk, nv: nat, ca: Config, a: Desk, av: nat, side: Side, l: Ledger, k: Tick)
    requires cn == ca.(model := Naive) && ca.latency == 0 && Dominates(n, nv, a, av, ca.size)
    ensures Dominates(OnEvent(cn, n, side, l, k).0, nv + Volume(OnEvent(cn, n, side, l, k).1),
                      OnEvent(ca, a, side, l, k).0, av + Volume(OnEvent(ca, a, side, l, k).1), ca.size)
  {
    hide Traded, Opening, Closing, Volume, After, TwoSided, Allowed, Moves;
    OpeningSettled(cn, n, side, l, k);
    OpeningSettled(ca, a, side, l, k);
    TradedDominates(cn, n, nv, ca, a, av, side, l, k);
    var (n2, fn) := Traded(cn, n, side, l, k);
    var (a2, fa) := Traded(ca, a, side, l, k);
    ClosingJoins(cn, n2, side, After(l, k.e), k);
    ClosingJoins(ca, a2, side, After(l, k.e), k);
    JoinDominates(n2, nv + Volume(fn), a2, av + Volume(fa), Closing(cn, n2, side, After(l, k.e), k),
      Closing(ca, a2, side, After(l, k.e), k), TwoSided(k.after), Allowed(k, side), At(k.after, side), ca.size);
  }

  lemma StartDominates(size: nat)
    ensures Dominates(START_DESK, Volume([]), START_DESK, Volume([]), size)
  {
  }

  lemma {:induction false} RunDominates(c: Config, side: Side, ks: seq<Tick>)
    requires c.latency == 0
    ensures var cn := c.(model := Naive);
      Dominates(DeskAfter(cn, side, ks), Volume(FillsAfter(cn, side, ks)), DeskAfter(c, side, ks),
        Volume(FillsAfter(c, side, ks)), c.size)
  {
    hide OnEvent, Volume, Dominates, BookAfter, Allowed;
    StartDominates(c.size);
    if ks != [] {
      var cn, before, k := c.(model := Naive), ks[..|ks| - 1], ks[|ks| - 1];
      RunDominates(c, side, before);
      var l, n, a := BookAfter(before), DeskAfter(cn, side, before), DeskAfter(c, side, before);
      OnEventDominates(cn, n, Volume(FillsAfter(cn, side, before)), c, a, Volume(FillsAfter(c, side, before)), side, l,
        k);
      VolumeConcat(FillsAfter(cn, side, before), OnEvent(cn, n, side, l, k).1);
      VolumeConcat(FillsAfter(c, side, before), OnEvent(c, a, side, l, k).1);
    }
  }

  /** With no latency, whenever a side is switched off and on, at no point of any tape has the queue-aware model
      filled more of it than the naive one. */
  lemma NaiveOverstates(c: Config, side: Side, ks: seq<Tick>, upTo: nat)
    requires c.latency == 0 && upTo <= |ks|
    ensures Volume(FillsAfter(c, side, ks[..upTo])) <= Volume(FillsAfter(c.(model := Naive), side, ks[..upTo]))
  {
    var cn, run := c.(model := Naive), ks[..upTo];
    RunDominates(c, side, run);
    DominatesMeans(DeskAfter(cn, side, run), Volume(FillsAfter(cn, side, run)),
                   DeskAfter(c, side, run), Volume(FillsAfter(c, side, run)), c.size);
  }
}
