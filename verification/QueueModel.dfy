/** Queue position of one hypothetical resting order. */
module QueueModel {
  import opened Ledgers

  datatype Position = Position(ahead: nat, joinSeq: nat, joined: bool, behind: nat)

  const AWAY := Position(0, 0, false, 0)

  function Min(a: nat, b: nat): nat {
    if a < b then a else b
  }

  function Joined(p: Position, resting: nat, seq_: nat): Position {
    p.(ahead := resting, joinSeq := seq_, joined := true)
  }

  function Left(p: Position): Position {
    p.(joined := false, ahead := 0)
  }

  /** An execution at our price by the order stamped `stamp`. */
  function Executed(p: Position, stamp: nat, shares: nat): Position {
    p.(ahead := p.ahead - Min(shares, p.ahead),
      behind := p.behind + (if p.ahead > 0 && stamp >= p.joinSeq then 1 else 0))
  }

  /** Shares of ours that an execution reaches: what is left of it past the queue. */
  function Reached(p: Position, shares: nat, remaining: nat): nat {
    Min(shares - Min(shares, p.ahead), remaining)
  }

  /** `shares` leave without a trade: only an order ahead of us matters. */
  function Withdrew(p: Position, stamp: nat, shares: nat): Position {
    if stamp < p.joinSeq then p.(ahead := p.ahead - Min(shares, p.ahead)) else p
  }

  /** An execution of `shares` at our price: what is taken off the queue and what fills us are never more than the
      execution, and all of it unless nothing of ours remains; we are filled only once nothing is ahead. It counts as a
      violation exactly when the order executed came after us while something was ahead. */
  lemma ExecutionSplits(p: Position, stamp: nat, shares: nat, remaining: nat)
    ensures var p', ours := Executed(p, stamp, shares), Reached(p, shares, remaining);
      && p'.ahead <= p.ahead && ours <= remaining && (p.ahead - p'.ahead) + ours <= shares
      && ((p.ahead - p'.ahead) + ours == shares || ours == remaining)
      && (ours > 0 ==> p'.ahead == 0) && (p'.ahead > 0 ==> p.ahead - p'.ahead == shares)
      && p'.joinSeq == p.joinSeq && p'.joined == p.joined
      && p'.behind == p.behind + (if p.ahead > 0 && stamp >= p.joinSeq then 1 else 0)
  {
  }

  class QueuePosition {
    var ahead: nat
    var joinSeq: nat
    var joined: bool
    var behindWhileQueued: nat

    ghost function State(): Position
      reads this
    {
      Position(ahead, joinSeq, joined, behindWhileQueued)
    }

    constructor ()
      ensures State() == AWAY
    {
      ahead, joinSeq, joined, behindWhileQueued := 0, 0, false, 0;
    }

    method Join(resting: nat, seq_: nat)
      modifies this
      ensures State() == Joined(old(State()), resting, seq_)
    {
      ahead := resting;
      joinSeq := seq_;
      joined := true;
    }

    method Leave()
      modifies this
      ensures State() == Left(old(State()))
    {
      joined := false;
      ahead := 0;
    }

    predicate IsAhead(stamp: nat)
      reads this
    {
      stamp < joinSeq
    }

    method OnExecution(stamp: nat, executed: nat, remaining: nat) returns (ours: nat)
      modifies this
      ensures State() == Executed(old(State()), stamp, executed) && ours == Reached(old(State()), executed, remaining)
      ensures ours <= remaining && (old(ahead) - ahead) + ours <= executed
      ensures (old(ahead) - ahead) + ours == executed || ours == remaining
      ensures ours > 0 ==> ahead == 0
    {
      if ahead > 0 && !IsAhead(stamp) {
        behindWhileQueued := behindWhileQueued + 1;
      }
      if executed <= ahead {
        ahead := ahead - executed;
        return 0;
      }
      var through := executed - ahead;
      ahead := 0;
      return if through < remaining then through else remaining;
    }

    method OnCancel(stamp: nat, cancelled: nat)
      modifies this
      ensures State() == Withdrew(old(State()), stamp, cancelled)
    {
      if !IsAhead(stamp) {
        return;
      }
      ahead := ahead - (if cancelled < ahead then cancelled else ahead);
    }

    method OnDelete(stamp: nat, remaining: nat)
      modifies this
      ensures State() == Withdrew(old(State()), stamp, remaining)
    {
      if !IsAhead(stamp) {
        return;
      }
      ahead := ahead - (if remaining < ahead then remaining else ahead);
    }
  }

  // ---- the position against the book's own queue ----

  /** Taking `take` shares from the `i`-th order shortens the queue before `stamp` by as much, if it is in it. */
  lemma AheadShrinks(live: seq<Resting>, i: nat, take: nat, side: Side, px: nat, stamp: nat)
    requires i < |live| && take <= live[i].qty
    ensures var r := live[i]; var w := if r.side == side && r.px == px && r.stamp < stamp then take else 0;
      Ahead(live, side, px, stamp) >= w
      && Ahead(live[i := r.(qty := r.qty - take)], side, px, stamp) == Ahead(live, side, px, stamp) - w
      && (take == r.qty ==> Ahead(RemoveAt(live, i), side, px, stamp) == Ahead(live, side, px, stamp) - w)
  {
    var w := AheadAt(side, px, stamp);
    SumUpdate(live, i, live[i].(qty := live[i].qty - take), w);
    SumRemove(live, i, w);
  }

  /** At a fresh stamp the whole level is ahead. */
  lemma AheadOfNewcomer(l: Ledger, side: Side, px: nat)
    requires WellFormed(l)
    ensures Ahead(l.live, side, px, l.clock) == Shares(l.live, side, px)
  {
    SumSame(l.live, AheadAt(side, px, l.clock), QtyAt(side, px));
  }

  /** An order stamped no earlier than `stamp` is not ahead of it. */
  lemma AheadIgnoresNewcomer(live: seq<Resting>, x: Resting, side: Side, px: nat, stamp: nat)
    requires x.stamp >= stamp
    ensures Ahead(live + [x], side, px, stamp) == Ahead(live, side, px, stamp)
  {
    SumAppend(live, x, AheadAt(side, px, stamp));
  }

  /** The order an event names, if it names a live one. */
  function Named(l: Ledger, e: BookEvent): seq<Resting> {
    if e.kind.Add? || !Has(l.live, e.ref) then [] else [l.live[IndexOf(l.live, e.ref)]]
  }

  /** What order `r` gives up of the queue before `stamp` at a level when event `e` names it. */
  function GivenBy(r: Resting, e: BookEvent, side: Side, px: nat, stamp: nat): nat {
    if r.side != side || r.px != px || r.stamp >= stamp then 0
    else if e.kind.Execute? || e.kind.Cancel? then Min(e.shares, r.qty)
    else r.qty
  }

  function Given(l: Ledger, e: BookEvent, side: Side, px: nat, stamp: nat): nat {
    var named := Named(l, e);
    if named == [] then 0 else GivenBy(named[0], e, side, px, stamp)
  }

  /** An event shortens the queue before `stamp` by exactly what the order it names gives up. */
  lemma AheadAfter(l: Ledger, e: BookEvent, side: Side, px: nat, stamp: nat)
    requires stamp <= l.clock
    ensures Given(l, e, side, px, stamp) <= Ahead(l.live, side, px, stamp)
    ensures Ahead(After(l, e).live, side, px, stamp) == Ahead(l.live, side, px, stamp) - Given(l, e, side, px, stamp)
    ensures After(l, e).clock >= l.clock
  {
    hide Ahead, RemoveAt;
    var i := IndexOf(l.live, e.ref);
    if e.kind.Add? {
      if e.shares > 0 {
        AheadIgnoresNewcomer(l.live, Resting(e.ref, e.side, e.px, e.shares, l.clock), side, px, stamp);
      }
    } else if i < |l.live| {
      var take := if e.kind.Execute? || e.kind.Cancel? then Min(e.shares, l.live[i].qty) else l.live[i].qty;
      AheadShrinks(l.live, i, take, side, px, stamp);
      if e.kind.Replace? && e.shares > 0 {
        AheadIgnoresNewcomer(RemoveAt(l.live, i), Resting(e.newRef, l.live[i].side, e.px, e.shares, l.clock), side, px,
          stamp);
      }
    }
  }
}
