/** What the fills say that a market maker reports. */
module FillReports {

  // One fill against the event and the quote it comes from; and, over runs, the quote against its last join: where it
  // joined, behind how many shares, and where the shares executed at its price since then have gone.

  import opened Ledgers
  import opened QueueModel
  import opened Quoting

  // ---- one event ----

  /** An execution through the quote or at its price is what a fill reports: when, at the quote's price, how much at
      most, behind how much, and whether a change was in flight. */
  lemma StepTells(c: Config, d: Desk, side: Side, r: Resting, e: BookEvent)
    ensures var fills := Step(c, d, side, r, e).1;
      && |fills| <= 1
      && forall x :: x in fills ==>
           && e.kind.Execute? && d.q.active && r.side == side
           && x.ts == e.ts && x.side == side && 0 < x.qty <= e.shares && x.qty <= d.q.remaining
           && x.price == d.q.px && x.queueAhead == d.q.aheadAtJoin && x.stale == d.q.inFlight
           && (if x.swept then Better(side, x.price, r.px) else x.price == r.px)
  {
  }

  /** What a fill says of an event, the order executed, and the quote as it rested when the event came. */
  ghost predicate Told(x: Fill, q: Quote, side: Side, l: Ledger, e: BookEvent) {
    && e.kind.Execute? && Has(l.live, e.ref) && q.active
    && x.ts == e.ts && x.side == side && 0 < x.qty <= e.shares && x.qty <= q.remaining
    && x.price == q.px && x.queueAhead == q.aheadAtJoin && x.stale == q.inFlight
    && var r := l.live[IndexOf(l.live, e.ref)];
      r.side == side && if x.swept then Better(side, x.price, r.px) else x.price == r.px
  }

  /** Every fill of an event, of which there is at most one on a side. */
  lemma FillsTell(c: Config, d: Desk, side: Side, l: Ledger, k: Tick)
    ensures var d1, fills := Opening(c, d, side, l, k), OnEvent(c, d, side, l, k).1;
      |fills| <= 1 && forall x :: x in fills ==> Told(x, d1.q, side, l, k.e)
  {
    hide Step, Opening, Closing, After;
    var d1, named := Opening(c, d, side, l, k), Named(l, k.e);
    if named != [] {
      StepTells(c, d1, side, named[0], k.e);
    }
  }

  // ---- since the last join ----

  /** The last join of a side, and what has happened to its quote since: shares executed at its price, shares by which
      executions there made the tracked queue shorter, and shares filled, at the price and by sweeps. */
  datatype Stay = Stay(px: nat, ahead: nat, executed: nat, fell: int, atPrice: nat, swept: nat)

  const NO_STAY := Stay(0, 0, 0, 0, 0, 0)

  /** A change due joins the back of the target level. */
  function Rejoined(d: Desk, s: Stay, l: Ledger, side: Side, target: nat, now: nat): Stay {
    if d.q.inFlight && now >= d.q.landsAt && d.q.wantActive then Stay(target, Shares(l.live, side, target), 0, 0, 0, 0)
    else s
  }

  /** The event executes an order at this price. */
  predicate ExecutesAt(l: Ledger, e: BookEvent, side: Side, px: nat) {
    e.kind.Execute? && Named(l, e) != [] && Named(l, e)[0].side == side && Named(l, e)[0].px == px
  }

  /** Shares of the fills that were swept, or of those that were not. */
  function VolumeIf(fills: seq<Fill>, swept: bool): nat {
    if fills == [] then 0
    else VolumeIf(fills[..|fills| - 1], swept) + if fills[|fills| - 1].swept == swept then fills[|fills| - 1].qty else 0
  }

  /** The event against an active quote. */
  function Met(s: Stay, d: Desk, d': Desk, fills: seq<Fill>, side: Side, l: Ledger, e: BookEvent): Stay {
    var here := d.q.active && ExecutesAt(l, e, side, d.q.px);
    s.(executed := s.executed + (if here then e.shares else 0),
       fell := s.fell + (if here then d.pos.ahead - d'.pos.ahead else 0),
       atPrice := s.atPrice + VolumeIf(fills, false), swept := s.swept + VolumeIf(fills, true))
  }

  /** The join in force when an event trades. */
  function StayOpening(d: Desk, s: Stay, side: Side, l: Ledger, k: Tick): Stay {
    if TwoSided(k.before) then Rejoined(d, s, l, side, At(k.before, side), k.e.ts) else s
  }

  function StayEvent(c: Config, d: Desk, s: Stay, side: Side, l: Ledger, k: Tick): Stay {
    var d1 := Opening(c, d, side, l, k);
    var (d2, fills) := Traded(c, d1, side, l, k);
    var s2 := Met(StayOpening(d, s, side, l, k), d1, d2, fills, side, l, k.e);
    if TwoSided(k.after) then
      Rejoined(Decide(c, d2, At(k.after, side), k.e.ts, Allowed(k, side)), s2, After(l, k.e), side, At(k.after, side),
        k.e.ts)
    else s2
  }

  function StayAfter(c: Config, side: Side, ks: seq<Tick>): Stay {
    if ks == [] then NO_STAY
    else
      var before := ks[..|ks| - 1];
      StayEvent(c, DeskAfter(c, side, before), StayAfter(c, side, before), side, BookAfter(before), ks[|ks| - 1])
  }

  /** An active quote is at its last join's price, has the rest of its size left, and, under the queue-aware rule, every
      share executed at its price since then has gone off the queue ahead or into a fill. */
  ghost predicate Accounts(c: Config, d: Desk, s: Stay) {
    && s.atPrice + s.swept <= c.size && (c.model.QueueAware? ==> s.atPrice + s.fell <= s.executed)
    && (d.q.active ==>
          && d.q.px == s.px && d.q.aheadAtJoin == s.ahead
          && d.q.remaining > 0 && s.atPrice + s.swept + d.q.remaining == c.size
          && (c.model.QueueAware? ==> s.atPrice + s.fell == s.executed))
  }

  lemma LandAccounts(c: Config, d: Desk, s: Stay, side: Side, l: Ledger, target: nat, now: nat)
    requires c.size > 0 && Accounts(c, d, s)
    ensures Accounts(c, Land(c, d, l, side, target, now), Rejoined(d, s, l, side, target, now))
  {
    hide Shares;
  }

  lemma VolumeOfOne(d: Desk, e: BookEvent, side: Side, f: nat, sw: bool, swept: bool)
    ensures VolumeIf(FillOf(d, e, side, f, sw), swept) == if sw == swept then f else 0
  {
    assert f > 0 ==> FillOf(d, e, side, f, sw)[..0] == [];
  }

  lemma FilledIs(d: Desk, f: nat)
    requires f <= d.q.remaining
    ensures var d' := Filled(d, f);
      && d'.q.px == d.q.px && d'.q.aheadAtJoin == d.q.aheadAtJoin && d'.q.remaining == d.q.remaining - f
      && d'.q.active == (d.q.active && (f == 0 || f < d.q.remaining))
      && d'.pos.ahead == if 0 < f == d.q.remaining then 0 else d.pos.ahead
  {
  }

  /** Where the shares of an event go: what leaves the quote is filled; a sweep takes all that both allow, and so does
      an execution at the quote's price under the naive rule; the queue-aware rule takes all of that off the queue
      ahead or off the quote, unless none of the quote is left. */
  lemma StepSplits(c: Config, d: Desk, side: Side, r: Resting, e: BookEvent)
    requires d.q.active ==> d.q.remaining > 0
    ensures var (d', fills) := Step(c, d, side, r, e);
      var at, swept, fell := VolumeIf(fills, false), VolumeIf(fills, true), d.pos.ahead - d'.pos.ahead;
      var here := d.q.active && e.kind.Execute? && r.side == side && r.px == d.q.px;
      && (!d.q.active ==> d' == d && at == swept == 0)
      && d'.q.px == d.q.px && d'.q.aheadAtJoin == d.q.aheadAtJoin && at + swept + d'.q.remaining == d.q.remaining
      && (d'.q.active ==> d.q.active && d'.q.remaining > 0)
      && (here && c.model.QueueAware? ==> at + fell <= e.shares && (d'.q.active ==> at + fell == e.shares))
      && (!here ==> at == 0) && (here && c.model.Naive? ==> at == Min(e.shares, d.q.remaining))
      && swept == (if d.q.active && e.kind.Execute? && r.side == side && Better(side, d.q.px, r.px)
                   then Min(e.shares, d.q.remaining) else 0)
  {
    hide VolumeIf, FillOf, Executed, Reached, Withdrew, Filled;
    var all, reached := Min(e.shares, d.q.remaining), Reached(d.pos, e.shares, d.q.remaining);
    ExecutionSplits(d.pos, r.stamp, e.shares, d.q.remaining);
    FilledIs(d, all);
    FilledIs(d.(pos := Executed(d.pos, r.stamp, e.shares)), reached);
    VolumeOfOne(d, e, side, all, true, true);
    VolumeOfOne(d, e, side, all, true, false);
    VolumeOfOne(d, e, side, all, false, true);
    VolumeOfOne(d, e, side, all, false, false);
    VolumeOfOne(d, e, side, reached, false, true);
    VolumeOfOne(d, e, side, reached, false, false);
    NoVolume();
  }

  lemma StepAccounts(c: Config, d: Desk, s: Stay, side: Side, l: Ledger, e: BookEvent)
    requires c.size > 0 && Accounts(c, d, s) && Named(l, e) != []
    ensures var (d', fills) := Step(c, d, side, Named(l, e)[0], e); Accounts(c, d', Met(s, d, d', fills, side, l, e))
  {
    hide Named, VolumeIf, Step;
    StepSplits(c, d, side, Named(l, e)[0], e);
    var (d', fills) := Step(c, d, side, Named(l, e)[0], e);
    assert Accounts(c, d', Met(s, d, d', fills, side, l, e));
  }

  lemma NoVolume()
    ensures VolumeIf([], true) == 0 && VolumeIf([], false) == 0
  {
  }

  lemma EventAccounts(c: Config, d: Desk, s: Stay, side: Side, l: Ledger, k: Tick)
    requires c.size > 0 && Accounts(c, d, s)
    ensures Accounts(c, OnEvent(c, d, side, l, k).0, StayEvent(c, d, s, side, l, k))
    ensures Accounts(c, Opening(c, d, side, l, k), StayOpening(d, s, side, l, k))
  {
    hide Step, Land, Rejoined, Accounts, After, VolumeIf, TwoSided;
    LandAccounts(c, d, s, side, l, At(k.before, side), k.e.ts);
    var d1, s1 := Opening(c, d, side, l, k), StayOpening(d, s, side, l, k);
    var (d2, fills) := Traded(c, d1, side, l, k);
    NoVolume();
    if Named(l, k.e) != [] {
      StepAccounts(c, d1, s1, side, l, k.e);
    }
    var s2 := Met(s1, d1, d2, fills, side, l, k.e);
    assert Accounts(c, d2, s2);
    var d3 := Decide(c, d2, At(k.after, side), k.e.ts, Allowed(k, side));
    DecideAccounts(c, d2, s2, At(k.after, side), k.e.ts, Allowed(k, side));
    LandAccounts(c, d3, s2, side, After(l, k.e), At(k.after, side), k.e.ts);
  }

  lemma DecideAccounts(c: Config, d: Desk, s: Stay, target: nat, now: nat, allow: bool)
    requires Accounts(c, d, s)
    ensures Accounts(c, Decide(c, d, target, now, allow), s)
  {
  }

  /** In every run, whatever is signalled. */
  lemma {:induction false} RunAccounts(c: Config, side: Side, ks: seq<Tick>)
    requires c.size > 0
    ensures Accounts(c, DeskAfter(c, side, ks), StayAfter(c, side, ks))
  {
    hide Accounts, OnEvent, StayEvent;
    if ks == [] {
      StartAccounts(c);
    } else {
      var before := ks[..|ks| - 1];
      RunAccounts(c, side, before);
      EventAccounts(c, DeskAfter(c, side, before), StayAfter(c, side, before), side, BookAfter(before), ks[|ks| - 1]);
    }
  }

  lemma StartAccounts(c: Config)
    ensures Accounts(c, START_DESK, NO_STAY)
  {
  }

  /** In every run a fill names the price and the queue of the side's last join: the touch then targeted, and the shares
      resting there at the time. */
  lemma FillsNameTheJoin(c: Config, side: Side, ks: seq<Tick>, k: Tick)
    requires c.size > 0
    ensures var d, l := DeskAfter(c, side, ks), BookAfter(ks);
      var join := StayOpening(d, StayAfter(c, side, ks), side, l, k);
      forall x :: x in OnEvent(c, d, side, l, k).1 ==> x.price == join.px && x.queueAhead == join.ahead
  {
    hide OnEvent, StayOpening, Opening, Has;
    var d, l := DeskAfter(c, side, ks), BookAfter(ks);
    RunAccounts(c, side, ks);
    EventAccounts(c, d, StayAfter(c, side, ks), side, l, k);
    FillsTell(c, d, side, l, k);
  }
}
