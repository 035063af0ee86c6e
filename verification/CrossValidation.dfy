/** The designs against each other. */
module CrossValidation {

  // One tape goes through all four books, and their snapshots are compared after every event.

  import opened Ledgers
  import opened PriceGrid
  import opened Refusals
  import opened MapBooks
  import F = FlatBooks
  import H = HybridBooks
  import I = IntrusiveBooks

  type FlatBook = F.FlatBook
  type HybridBook = H.HybridBook
  type IntrusiveBook = I.IntrusiveBook

  datatype Shown = Shown(bid: seq<LevelView>, ask: seq<LevelView>)

  /** The snapshots of the four books at one time. */
  datatype Quartet = Quartet(reference: Shown, intrusive: Shown, flat: Shown, hybrid: Shown)

  /** Orders refused by the three designs that can. */
  datatype RefusedBy = RefusedBy(intrusive: nat, flat: nat, hybrid: nat)

  /** A snapshot shows the best ten levels of the ledger on both sides. */
  ghost predicate Shows(l: Ledger, s: Shown) {
    TopLevels(l.live, Buy, s.bid) && TopLevels(l.live, Sell, s.ask)
  }

  /** Each design shows the ledger that the tape leaves it with: the reference all of it, the two list designs what
      their pools and table had room for, the aggregate design what its table had room for. */
  ghost predicate Faithful(room: Room, tape: seq<BookEvent>, q: Quartet) {
    && Shows(Replay(START, tape), q.reference) && Shows(KeptAlong(room.names, tape), q.flat)
    && Shows(HeldAlong(room, tape).ledger, q.intrusive) && Shows(HeldAlong(room, tape).ledger, q.hybrid)
  }

  /** The four show the same on both sides. */
  predicate AllSame(q: Quartet) {
    && q.reference.bid == q.intrusive.bid == q.flat.bid == q.hybrid.bid
    && q.reference.ask == q.intrusive.ask == q.flat.ask == q.hybrid.ask
  }

  /** Comparisons among the first `n` events when every `every`-th is compared. */
  function Comparisons(n: nat, every: nat): nat
    requires every > 0
  {
    if n == 0 then 0 else Comparisons(n - 1, every) + if (n - 1) % every == 0 then 1 else 0
  }

  /** They number `n` over `every`, rounded up. */
  lemma {:induction false} ComparisonsCount(n: nat, every: nat)
    requires every > 0
    ensures n <= Comparisons(n, every) * every < n + every
  {
    if n > 0 {
      ComparisonsCount(n - 1, every);
      RoundedUp(n - 1, Comparisons(n - 1, every), every);
    }
  }

  lemma RoundedUp(n: nat, c: nat, every: nat)
    requires every > 0 && n <= c * every < n + every
    ensures n % every == 0 ==> c * every == n && (c + 1) * every == n + every
    ensures n % every != 0 ==> c * every > n
  {
    var q, r := n / every, n % every;
    Divided(n, every);
    if r == 0 {
      Between(c, q, every);
    } else if c * every == n {
      Between(c, q, every);
    }
    OneMoreTime(c, every);
  }

  lemma Divided(n: nat, m: nat)
    requires m > 0
    ensures n == n / m * m + n % m && n % m < m
  {
  }

  lemma OneMoreTime(c: nat, m: nat)
    ensures (c + 1) * m == c * m + m
  {
  }

  lemma Between(c: nat, q: nat, m: nat)
    requires q * m <= c * m < q * m + m
    ensures c == q
  {
    if c > q {
      Grows(q, c, m);
    } else if c < q {
      Grows(c, q, m);
    }
  }

  lemma Grows(a: nat, b: nat, m: nat)
    requires a < b
    ensures a * m + m <= b * m
  {
    var d := b - a - 1;
    assert b == a + 1 + d && (a + 1 + d) * m == a * m + m + d * m;
  }

  /** The comparisons in which they do not. */
  function Apart(shown: seq<Quartet>): set<int> {
    set j | 0 <= j < |shown| && !AllSame(shown[j])
  }

  /** The four books hold what the tape leaves them with, and have counted what they refused. */
  ghost predicate Along(a: MapBook, b: IntrusiveBook, c: FlatBook, d: HybridBook, room: Room, tape: seq<BookEvent>)
    reads a, b, b.ids, b.ids.slots, c, c.ids, c.ids.slots, d, d.ids, d.ids.slots
  {
    && b.ids != d.ids && b.ids.slots != d.ids.slots
    && a.Valid() && b.Valid() && c.Valid() && d.Valid()
    && a.ledger == Replay(START, tape) && c.ledger == KeptAlong(room.names, tape)
    && b.Holding() == d.Holding() == HeldAlong(room, tape)
    && b.Capacity() == d.Capacity() == room && c.ids.Limit() == room.names
    && b.rejected == d.rejected == RejectionsAlong(room, tape) && c.rejected == TurnedAlong(room.names, tape)
  }

  /** Each book refuses what it has no room for, and the feed goes on. */
  method ApplyAll(a: MapBook, b: IntrusiveBook, c: FlatBook, d: HybridBook, e: BookEvent, ghost room: Room,
                  ghost tape: seq<BookEvent>)
    requires tape != [] && e == tape[|tape| - 1] && Along(a, b, c, d, room, tape[..|tape| - 1])
    requires AcceptableTape(START, tape) && AcceptableTo(room, tape)
    modifies a, b, b.ids, b.ids.slots, c, c.ids, c.ids.slots, d, d.ids, d.ids.slots
    ensures Along(a, b, c, d, room, tape)
  {
    hide *;
    ghost var before := tape[..|tape| - 1];
    TakeApart(a, b, c, d, room, before);
    OneMore(room, tape);
    FlatTurns(c, e);
    a.Apply(e);
    b.Apply(e);
    c.Apply(e);
    d.Apply(e);
    PutTogether(a, b, c, d, room, tape);
  }

  lemma TakeApart(a: MapBook, b: IntrusiveBook, c: FlatBook, d: HybridBook, room: Room, tape: seq<BookEvent>)
    requires Along(a, b, c, d, room, tape)
    ensures b.ids != d.ids && b.ids.slots != d.ids.slots
    ensures a.Valid() && b.Valid() && c.Valid() && d.Valid()
    ensures a.ledger == Replay(START, tape) && c.ledger == KeptAlong(room.names, tape)
    ensures b.Holding() == d.Holding() == HeldAlong(room, tape)
    ensures b.ledger == d.ledger == HeldAlong(room, tape).ledger
    ensures b.Capacity() == d.Capacity() == room && c.ids.Limit() == room.names
    ensures b.rejected == d.rejected == RejectionsAlong(room, tape) && c.rejected == TurnedAlong(room.names, tape)
  {
    hide MapBook.Valid, I.IntrusiveBook.Valid, F.FlatBook.Valid, H.HybridBook.Valid;
  }

  lemma PutTogether(a: MapBook, b: IntrusiveBook, c: FlatBook, d: HybridBook, room: Room, tape: seq<BookEvent>)
    requires b.ids != d.ids && b.ids.slots != d.ids.slots
    requires a.Valid() && b.Valid() && c.Valid() && d.Valid()
    requires a.ledger == Replay(START, tape) && c.ledger == KeptAlong(room.names, tape)
    requires b.Holding() == d.Holding() == HeldAlong(room, tape)
    requires b.Capacity() == d.Capacity() == room && c.ids.Limit() == room.names
    requires b.rejected == d.rejected == RejectionsAlong(room, tape) && c.rejected == TurnedAlong(room.names, tape)
    ensures Along(a, b, c, d, room, tape)
  {
    hide MapBook.Valid, I.IntrusiveBook.Valid, F.FlatBook.Valid, H.HybridBook.Valid;
  }

  /** What the last event of a tape makes of the four books, and that it is acceptable to each. */
  lemma OneMore(room: Room, tape: seq<BookEvent>)
    requires tape != [] && AcceptableTape(START, tape) && AcceptableTo(room, tape)
    ensures var before, e := tape[..|tape| - 1], tape[|tape| - 1];
      var h, f := HeldAlong(room, before), KeptAlong(room.names, before);
      && Acceptable(Replay(START, before), e) && Replay(START, tape) == After(Replay(START, before), e)
      && Acceptable(h.ledger, e) && HeldAlong(room, tape) == HeldAfter(room, h, e)
      && Acceptable(f, e)
      && KeptAlong(room.names, tape) == (if Turned(room.names, f, e) then f else After(f, e))
      && RejectionsAlong(room, tape) == RejectionsAlong(room, before) + Rejections(room, h, e)
      && TurnedAlong(room.names, tape) ==
        TurnedAlong(room.names, before) + (if Turned(room.names, f, e) then 1 else 0)
  {
    hide Acceptable, After, HeldAfter, Rejections, Turned, AcceptableTape, AcceptableTo, WellFormed, Among;
    var before := tape[..|tape| - 1];
    TapeFront(START, tape);
    ToldFront(room, tape);
    KeptAmong(room.names, before);
    AmongAcceptable(KeptAlong(room.names, before), Replay(START, before), tape[|tape| - 1]);
  }

  /** The id table's test is on the references of the live orders. */
  lemma FlatTurns(c: FlatBook, e: BookEvent)
    requires c.Valid()
    ensures c.Refuses(e) <==> Turned(c.ids.Limit(), c.ledger, e)
    ensures c.ids.size == |Refs(c.ledger.live)|
  {
    RefsAre(c.ledger.live);
    hide Refs, Has, WellFormed, F.FlatSides;
    assert c.ids.Contents.Keys == Refs(c.ledger.live);
    assert |c.ids.Contents.Keys| == |c.ids.Contents|;
  }

  lemma MapCount(a: MapBook)
    requires a.Valid()
    ensures |a.orders| == |Refs(a.ledger.live)|
  {
    RefsAre(a.ledger.live);
    hide Refs, Has, WellFormed;
    assert a.orders.Keys == Refs(a.ledger.live);
    assert |a.orders.Keys| == |a.orders|;
  }

  lemma ListCounts(b: IntrusiveBook, d: HybridBook)
    requires b.Valid() && d.Valid()
    ensures b.ids.size == |b.Holding().names| && d.ids.size == |d.Holding().names|
  {
    hide I.IntrusiveBook.Shaped, H.HybridBook.Shaped;
    assert |b.ids.Contents.Keys| == |b.ids.Contents| && |d.ids.Contents.Keys| == |d.ids.Contents|;
  }

  /** Four snapshots; `split` when some design shows something else than the reference. */
  method Compare(a: MapBook, b: IntrusiveBook, c: FlatBook, d: HybridBook, ghost room: Room,
                 ghost tape: seq<BookEvent>)
    returns (split: bool, q: Quartet)
    requires Along(a, b, c, d, room, tape)
    ensures Faithful(room, tape, q) && q.intrusive == q.hybrid && (split <==> !AllSame(q))
    ensures RejectionsAlong(room, tape) == 0 && AcceptableTape(START, tape) ==> !split
  {
    hide *;
    TakeApart(a, b, c, d, room, tape);
    b.ValidIsShaped();
    d.ValidIsShaped();
    var ba, aa := a.Snapshot();
    var bb, ab := b.Snapshot();
    var bc, ac := c.Snapshot();
    var bd, ad := d.Snapshot();
    q := Quartet(Shown(ba, aa), Shown(bb, ab), Shown(bc, ac), Shown(bd, ad));
    AllShow(room, tape, q);
    split := q.reference != q.intrusive || q.reference != q.flat || q.reference != q.hybrid;
    SplitsWhen(q);
    if RejectionsAlong(room, tape) == 0 && AcceptableTape(START, tape) {
      NoneSplits(room, tape, q);
    }
  }

  lemma SplitsWhen(q: Quartet)
    ensures !AllSame(q) <==> q.reference != q.intrusive || q.reference != q.flat || q.reference != q.hybrid
  {
  }

  lemma AllShow(room: Room, tape: seq<BookEvent>, q: Quartet)
    requires var l := Replay(START, tape).live;
      TopLevels(l, Buy, q.reference.bid) && TopLevels(l, Sell, q.reference.ask)
    requires var l := HeldAlong(room, tape).ledger.live;
      && TopLevels(l, Buy, q.intrusive.bid) && TopLevels(l, Sell, q.intrusive.ask)
      && TopLevels(l, Buy, q.hybrid.bid) && TopLevels(l, Sell, q.hybrid.ask)
    requires var l := KeptAlong(room.names, tape).live; TopLevels(l, Buy, q.flat.bid) && TopLevels(l, Sell, q.flat.ask)
    ensures Faithful(room, tape, q) && q.intrusive == q.hybrid
  {
    hide TopLevels, Replay, HeldAlong, KeptAlong;
    SameShown(HeldAlong(room, tape).ledger, q.intrusive, q.hybrid);
  }

  lemma SameShown(l: Ledger, s: Shown, t: Shown)
    requires Shows(l, s) && Shows(l, t)
    ensures s == t
  {
    SameTops(l.live, s.bid, s.ask, t.bid, t.ask);
  }

  /** Books that have refused nothing show the same. */
  lemma NoneSplits(room: Room, tape: seq<BookEvent>, q: Quartet)
    requires RejectionsAlong(room, tape) == 0 && AcceptableTape(START, tape) && Faithful(room, tape, q)
    ensures AllSame(q)
  {
    hide Shows, RejectionsAlong, AcceptableTape, AllNamed;
    RefusedNothing(room, tape);
    KeptAll(room, tape);
    var l := Replay(START, tape);
    SameShown(l, q.reference, q.intrusive);
    SameShown(l, q.reference, q.flat);
    SameShown(l, q.reference, q.hybrid);
  }

  /** The gate of the cross-validator over a whole tape, comparing after every `every`-th event. Each comparison shows
      what the tape so far leaves the four designs with, so the two list designs always agree; and the gate passes if
      and only if they had room for all of the tape. */
  method CrossValidate(events: seq<BookEvent>, every: nat, lo: nat, hi: nat, maxOrders: nat, maxLevels: nat,
                       hash: nat -> nat)
    returns (pass: bool, diverged: nat, rejected: RefusedBy, ghost shown: seq<Quartet>)
    requires lo - lo % TICK <= hi && maxOrders > 0 && every > 0
    requires AcceptableTape(START, events) && AcceptableTo(Room(maxOrders, maxLevels, maxOrders * 7 / 10), events)
    ensures pass <==> RejectionsAlong(Room(maxOrders, maxLevels, maxOrders * 7 / 10), events) == 0
    ensures var room := Room(maxOrders, maxLevels, maxOrders * 7 / 10);
      rejected.intrusive == rejected.hybrid == RejectionsAlong(room, events)
        && rejected.flat == TurnedAlong(room.names, events)
    ensures |shown| == Comparisons(|events|, every) && diverged == |Apart(shown)|
    ensures forall k :: 0 <= k < |events| && k % every == 0 ==>
      Compared(Room(maxOrders, maxLevels, maxOrders * 7 / 10), events, every, shown, k)
  {
    hide *;
    var a := new MapBook();
    var b := new I.IntrusiveBook(maxOrders, maxLevels, hash);
    var c := new F.FlatBook(lo, hi, maxOrders, hash);
    var d := new H.HybridBook(lo, hi, maxOrders, maxLevels, hash);
    ghost var room := Room(maxOrders, maxLevels, maxOrders * 7 / 10);
    TableLimit(c, maxOrders);
    Starts(room, events, every);
    PutTogether(a, b, c, d, room, events[..0]);
    diverged, shown := 0, [];
    for i := 0 to |events|
      invariant fresh(a) && fresh(b) && fresh(b.ids) && fresh(b.ids.slots) && fresh(c) && fresh(c.ids)
      invariant fresh(c.ids.slots)
      invariant fresh(d) && fresh(d.ids) && fresh(d.ids.slots)
      invariant Along(a, b, c, d, room, events[..i])
      invariant |shown| == Comparisons(i, every) && diverged == |Apart(shown)|
      invariant forall k :: 0 <= k < i && k % every == 0 ==> Compared(room, events, every, shown, k)
      invariant RejectionsAlong(room, events[..i]) == 0 ==> diverged == 0
    {
      Steps(room, events, every, i);
      ApplyAll(a, b, c, d, events[i], room, events[..i + 1]);
      if i % every == 0 {
        var split, q := Compare(a, b, c, d, room, events[..i + 1]);
        if split {
          diverged := diverged + 1;
        }
        ShownNext(room, events, every, shown, q, i);
        shown := shown + [q];
      }
    }
    assert events[..|events|] == events;
    rejected := RefusedBy(b.rejected, c.rejected, d.rejected);
    pass := diverged == 0 && b.rejected == 0 && c.rejected == 0 && d.rejected == 0
      && |a.orders| == b.ids.size && |a.orders| == c.ids.size && |a.orders| == d.ids.size;
    Passes(a, b, c, d, room, events);
  }

  /** The comparison after the `k`-th event. */
  ghost predicate Compared(room: Room, events: seq<BookEvent>, every: nat, shown: seq<Quartet>, k: nat)
    requires every > 0 && k < |events|
  {
    var j := Comparisons(k, every);
    j < |shown| && Faithful(room, events[..k + 1], shown[j]) && shown[j].intrusive == shown[j].hybrid
  }

  lemma Starts(room: Room, events: seq<BookEvent>, every: nat)
    requires every > 0
    ensures Replay(START, events[..0]) == KeptAlong(room.names, events[..0]) == START
    ensures HeldAlong(room, events[..0]) == NOTHING_HELD
    ensures RejectionsAlong(room, events[..0]) == TurnedAlong(room.names, events[..0]) == 0
    ensures Comparisons(0, every) == 0 && |Apart([])| == 0
  {
  }

  lemma Steps(room: Room, events: seq<BookEvent>, every: nat, i: nat)
    requires AcceptableTape(START, events) && AcceptableTo(room, events) && i < |events| && every > 0
    ensures var told := events[..i + 1];
      && told != [] && told[|told| - 1] == events[i] && told[..|told| - 1] == events[..i]
      && AcceptableTape(START, told) && AcceptableTo(room, told)
      && RejectionsAlong(room, told) >= RejectionsAlong(room, events[..i])
    ensures Comparisons(i + 1, every) == Comparisons(i, every) + if i % every == 0 then 1 else 0
  {
    hide Replay, HeldAlong, Acceptable;
    assert events[..i + 1][..i] == events[..i];
    assert forall k :: 0 <= k < i + 1 ==> events[..i + 1][..k] == events[..k];
  }

  lemma ShownNext(room: Room, events: seq<BookEvent>, every: nat, shown: seq<Quartet>, q: Quartet, i: nat)
    requires every > 0 && i < |events| && |shown| == Comparisons(i, every)
    requires Faithful(room, events[..i + 1], q) && q.intrusive == q.hybrid
    ensures Compared(room, events, every, shown + [q], i)
    ensures forall k | 0 <= k < i && Compared(room, events, every, shown, k) ::
      Compared(room, events, every, shown + [q], k)
    ensures |Apart(shown + [q])| == |Apart(shown)| + if AllSame(q) then 0 else 1
  {
    hide Faithful, Comparisons;
    ApartNext(shown, q);
  }

  lemma ApartNext(shown: seq<Quartet>, q: Quartet)
    ensures |Apart(shown + [q])| == |Apart(shown)| + if AllSame(q) then 0 else 1
  {
    hide AllSame;
    var n, more := |shown|, shown + [q];
    assert n !in Apart(shown);
    forall j ensures j in Apart(more) <==> j in Apart(shown) || (j == n && !AllSame(q)) {
      assert 0 <= j < n ==> more[j] == shown[j];
    }
    assert Apart(more) == if AllSame(q) then Apart(shown) else Apart(shown) + {n};
  }

  /** Books that have refused nothing hold the same orders; and one that has refused counts it. */
  lemma Passes(a: MapBook, b: IntrusiveBook, c: FlatBook, d: HybridBook, room: Room, events: seq<BookEvent>)
    requires Along(a, b, c, d, room, events) && AcceptableTape(START, events)
    ensures b.rejected == d.rejected == RejectionsAlong(room, events) && c.rejected == TurnedAlong(room.names, events)
    ensures RejectionsAlong(room, events) == 0 ==>
      c.rejected == 0 && |a.orders| == b.ids.size == c.ids.size == d.ids.size
  {
    hide *;
    TakeApart(a, b, c, d, room, events);
    MapCount(a);
    FlatTurns(c, BookEvent(0, 0, 0, 0, 0, Add, Buy));
    ListCounts(b, d);
    if RejectionsAlong(room, events) == 0 {
      RefusedNothing(room, events);
      KeptAll(room, events);
      b.ValidIsShaped();
      KnownIs(room, b.Holding());
      KnownNames(Replay(START, events));
    }
  }

  lemma KnownNames(l: Ledger)
    ensures Known(l).names == Refs(l.live)
  {
  }

  lemma TableLimit(c: FlatBook, maxOrders: nat)
    requires c.ids.slots.Length == maxOrders
    ensures c.ids.Limit() == maxOrders * 7 / 10
  {
  }

  lemma SameTops(live: seq<Resting>, b1: seq<LevelView>, a1: seq<LevelView>, b2: seq<LevelView>, a2: seq<LevelView>)
    requires TopLevels(live, Buy, b1) && TopLevels(live, Sell, a1) && TopLevels(live, Buy, b2)
    requires TopLevels(live, Sell, a2)
    ensures b1 == b2 && a1 == a2
  {
    TopUnique(live, Buy, b1, b2);
    TopUnique(live, Sell, a1, a2);
  }
}
