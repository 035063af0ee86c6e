/** Runs after which a grid book reports a best price that is not the best. */
module StaleBestPrice {

  // Bids rest at 1000 and 2000, the better one leaves, and an order joins at 500 with no query between: the book
  // forgot its cached tick when 2000 left and takes 500 for the best of an empty grid. A single replace does the same.

  import opened Ledgers
  import opened Ranking
  import opened PriceGrid
  import opened CachedTicks
  import opened Refusals
  import H = HybridBooks
  import F = FlatBooks

  const WINDOW := Window(0, 64)

  function Bid(ref: nat, px: nat): BookEvent {
    BookEvent(0, ref, 0, px, 7, Add, Buy)
  }

  const UNBID := BookEvent(0, 2, 0, 0, 0, Delete, Buy)
  const REBID := BookEvent(0, 2, 3, 500, 7, Replace, Buy)

  const STALE: seq<BookEvent> := [Bid(1, 1000), Bid(2, 2000), UNBID, Bid(3, 500)]
  const SWAP: seq<BookEvent> := [Bid(1, 1000), Bid(2, 2000), REBID]

  const R1 := Resting(1, Buy, 1000, 7, 1)
  const R2 := Resting(2, Buy, 2000, 7, 2)
  const R3 := Resting(3, Buy, 500, 7, 3)

  const ONE := Ledger([R1], 2)
  const TWO := Ledger([R1, R2], 3)
  const LEFT := Ledger([R1], 3)
  const LAST := Ledger([R1, R3], 4)

  /** The cached ticks after a tape without lookups. */
  ghost function Unasked(w: Window, u: Upkeep, tape: seq<BookEvent>): Hints {
    if tape == [] then NO_HINTS
    else
      var before := tape[..|tape| - 1];
      HintsAfter(w, u, Unasked(w, u, before), Replay(START, before), tape[|tape| - 1])
  }

  // ---- the tapes ----

  lemma UnaskedStep(w: Window, u: Upkeep, tape: seq<BookEvent>, k: nat)
    requires k < |tape|
    ensures Replay(START, tape[..k + 1]) == After(Replay(START, tape[..k]), tape[k])
    ensures Unasked(w, u, tape[..k + 1]) ==
      HintsAfter(w, u, Unasked(w, u, tape[..k]), Replay(START, tape[..k]), tape[k])
  {
    assert tape[..k + 1][..k] == tape[..k];
    hide After, HintsAfter;
  }

  lemma EmptyLevel(px: nat)
    ensures Orders([], Buy, px) == 0
    ensures px != 1000 ==> Orders([R1], Buy, px) == 0
    ensures px != 1000 && px != 2000 ==> Orders([R1, R2], Buy, px) == 0
  {
    hide Sum;
    SumZero([], OneAt(Buy, px));
    if px != 1000 {
      SumZero([R1], OneAt(Buy, px));
      if px != 2000 {
        SumZero([R1, R2], OneAt(Buy, px));
      }
    }
  }

  /** The first two events: tick 20 is cached. */
  lemma TwoBids(u: Upkeep)
    ensures Acceptable(START, Bid(1, 1000)) && After(START, Bid(1, 1000)) == ONE
    ensures Acceptable(ONE, Bid(2, 2000)) && After(ONE, Bid(2, 2000)) == TWO
    ensures HintsAfter(WINDOW, u, NO_HINTS, START, Bid(1, 1000)) == Hints(10, UNKNOWN)
    ensures HintsAfter(WINDOW, u, Hints(10, UNKNOWN), ONE, Bid(2, 2000)) == Hints(20, UNKNOWN)
  {
    EmptyLevel(1000);
    EmptyLevel(2000);
    hide Orders;
  }

  lemma SecondLeaves()
    ensures Has([R1, R2], 2) && [R1, R2][IndexOf([R1, R2], 2)] == R2 && Delist(TWO, 2) == LEFT
    ensures HintsDelist(WINDOW, Hints(20, UNKNOWN), TWO, 2) == NO_HINTS
  {
    assert [R1, R2][1..] == [R2];
    assert IndexOf([R2], 2) == 0;
    assert RemoveAt([R1, R2], 1) == [R1];
    EmptyLevel(2000);
    hide Orders;
  }

  lemma ThirdJoins(u: Upkeep)
    ensures !Has([R1], 3) && !Has([R1, R2], 3) && Enlist(LEFT, 3, Buy, 500, 7) == LAST
    ensures HintsEnter(WINDOW, u, NO_HINTS, [R1], Buy, 500) == Hints(5, UNKNOWN)
  {
    assert [R1, R2][1..] == [R2] && [R1][1..] == [] && [R2][1..] == [];
    EmptyLevel(500);
    hide Orders;
  }

  /** Both tapes are acceptable, lead to bids at 500 and 1000, and leave tick 5 cached: in either design. */
  lemma StaleTape(u: Upkeep)
    ensures AcceptableTape(START, STALE) && Replay(START, STALE) == LAST
    ensures Unasked(WINDOW, u, STALE) == Hints(5, UNKNOWN)
  {
    hide HintsEnter, HintsDelist, Enlist, Delist, Has, IndexOf, Unasked, Replay;
    TwoBids(u);
    SecondLeaves();
    ThirdJoins(u);
    Starts(u, STALE);
    forall k: nat | k < 4 { UnaskedStep(WINDOW, u, STALE, k); }
    assert STALE[..4] == STALE;
  }

  lemma SwapTape(u: Upkeep)
    ensures AcceptableTape(START, SWAP) && Replay(START, SWAP) == LAST && Unasked(WINDOW, u, SWAP) == Hints(5, UNKNOWN)
  {
    TwoBids(u);
    SecondLeaves();
    ThirdJoins(u);
    hide HintsEnter, HintsDelist, Enlist, Delist;
    Starts(u, SWAP);
    forall k: nat | k < 3 { UnaskedStep(WINDOW, u, SWAP, k); }
    assert SWAP[..3] == SWAP;
  }

  lemma Starts(u: Upkeep, tape: seq<BookEvent>)
    ensures Replay(START, tape[..0]) == START && Unasked(WINDOW, u, tape[..0]) == NO_HINTS
  {
  }

  /** With tick 5 cached over bids at 500 and 1000 the answer is 500. */
  lemma StaleAnswer()
    ensures var keys := Prices(LAST.live, Buy);
      Reported(Buy, WINDOW, keys, 5) == 500 && IsBest(Buy, keys, 1000) && 0 !in keys
  {
    assert R1 in LAST.live && R3 in LAST.live;
    assert Prices(LAST.live, Buy) == {500, 1000};
    assert OffGrid(WINDOW, {500, 1000}) == {};
  }

  // ---- the books ----

  /** A roomy fresh book after a tape, with no query asked. */
  method FeedHybrid(d: H.HybridBook, tape: seq<BookEvent>)
    requires d.Valid() && d.Holding() == NOTHING_HELD && d.Cached() == NO_HINTS && AcceptableTape(START, tape)
    requires var room := d.Capacity(); |tape| <= room.orders && |tape| <= room.levels && |tape| <= room.names
    modifies d, d.ids, d.ids.slots
    ensures d.Valid() && d.ledger == Replay(START, tape) && d.Cached() == Unasked(d.win, PerLevel, tape)
    ensures d.rejected == old(d.rejected)
  {
    hide H.HybridBook.Valid, H.HybridBook.Cached, AllNamed, Sound, After, HeldAfter, Rejections, HintsAfter, Taken,
      Idle, Unasked, Replay, Acceptable, WellFormed;
    ghost var room, l := d.Capacity(), START;
    Starts3(PerLevel, d.win, tape);
    for i := 0 to |tape|
      invariant d.Valid() && d.Capacity() == room && d.Holding() == Known(l) && WellFormed(l)
      invariant d.rejected == old(d.rejected)
      invariant l == Replay(START, tape[..i]) && |l.live| <= i && d.Cached() == Unasked(d.win, PerLevel, tape[..i])
    {
      UnaskedStep(d.win, PerLevel, tape, i);
      FeedStep(room, l, tape[i], d.win, PerLevel, d.Cached());
      d.Apply(tape[i]);
      l := After(l, tape[i]);
    }
    assert tape[..|tape|] == tape;
  }

  lemma Starts3(u: Upkeep, w: Window, tape: seq<BookEvent>)
    ensures Replay(START, tape[..0]) == START && Unasked(w, u, tape[..0]) == NO_HINTS && WellFormed(START)
    ensures NOTHING_HELD == Known(START)
  {
  }

  /** A roomy book takes an event as the ledger does. */
  lemma FeedStep(room: Room, l: Ledger, e: BookEvent, w: Window, u: Upkeep, hs: Hints)
    requires WellFormed(l) && Acceptable(l, e) && |l.live| < room.orders && |l.live| < room.levels
    requires |l.live| < room.names
    ensures HeldAfter(room, Known(l), e) == Known(After(l, e)) && Rejections(room, Known(l), e) == 0
    ensures HintsAfter(w, u, hs, l, Taken(room, Known(l), e)) == HintsAfter(w, u, hs, l, e)
    ensures WellFormed(After(l, e)) && |After(l, e).live| <= |l.live| + 1
  {
    hide WellFormed, AllNamed, Rejections, HeldAfter, Taken, After, Refs, HintsEnter, HintsDelist;
    AmpleRoom(room, l, e);
    AfterWellFormed(l, e);
    TakenAsIs(room, l, e);
    RefsAre(l.live);
    RefsWithin(l.live);
    KnownIs(room, Known(l));
    HeldSound(room, Known(l), e);
    KnownIs(room, HeldAfter(room, Known(l), e));
    IdleNothing(w, u, hs, l, e);
  }

  lemma IdleNothing(w: Window, u: Upkeep, hs: Hints, l: Ledger, e: BookEvent)
    ensures !Has(l.live, e.ref) && !e.kind.Add? ==> HintsAfter(w, u, hs, l, Idle(e)) == hs == HintsAfter(w, u, hs, l, e)
  {
  }

  method FeedFlat(c: F.FlatBook, tape: seq<BookEvent>)
    requires c.Valid() && c.ledger == START && c.Cached() == NO_HINTS && AcceptableTape(START, tape)
    requires |tape| <= c.ids.Limit()
    modifies c, c.ids, c.ids.slots
    ensures c.Valid() && c.ledger == Replay(START, tape) && c.Cached() == Unasked(c.win, PerOrder, tape)
    ensures c.rejected == old(c.rejected)
  {
    hide F.FlatBook.Valid, F.FlatBook.Cached, After, HintsAfter, Unasked, Replay, Acceptable, WellFormed;
    Starts3(PerOrder, c.win, tape);
    for i := 0 to |tape|
      invariant c.Valid() && c.ledger == Replay(START, tape[..i]) && |c.ledger.live| <= i
      invariant c.rejected == old(c.rejected)
      invariant c.Cached() == Unasked(c.win, PerOrder, tape[..i])
    {
      UnaskedStep(c.win, PerOrder, tape, i);
      FlatRoom(c, tape[i]);
      c.Apply(tape[i]);
    }
    assert tape[..|tape|] == tape;
  }

  lemma FlatRoom(c: F.FlatBook, e: BookEvent)
    requires c.Valid() && |c.ledger.live| < c.ids.Limit() && Acceptable(c.ledger, e)
    ensures !c.Refuses(e) && |After(c.ledger, e).live| <= |c.ledger.live| + 1
  {
    hide F.FlatBook.Valid, Refs, After, Acceptable;
    FlatNames(c);
    RefsWithin(c.ledger.live);
    AmpleRoom(Room(|c.ledger.live| + 1, |c.ledger.live| + 1, |c.ledger.live| + 1), c.ledger, e);
  }

  lemma FlatNames(c: F.FlatBook)
    requires c.Valid()
    ensures WellFormed(c.ledger) && |c.ids.Contents| == |Refs(c.ledger.live)|
  {
    hide Refs, Has, F.FlatSides;
    RefsAre(c.ledger.live);
    assert c.ids.Contents.Keys == Refs(c.ledger.live);
    assert |c.ids.Contents.Keys| == |c.ids.Contents|;
  }

  /** The hybrid book after either tape: it bids 1000 and says 500. */
  method StaleHybrid(replaced: bool, hash: nat -> nat) returns (d: H.HybridBook, reported: nat)
    ensures fresh(d) && d.Valid() && d.win == WINDOW && d.rejected == 0
    ensures d.ledger == Replay(START, if replaced then SWAP else STALE)
    ensures reported == 500 && IsBest(Buy, Prices(d.ledger.live, Buy), 1000)
    ensures reported ==
      Reported(Buy, WINDOW, Prices(d.ledger.live, Buy), Unasked(WINDOW, PerLevel, if replaced then SWAP else STALE).bid)
  {
    hide H.HybridBook.Valid, H.HybridBook.Shaped, Unasked, Replay, Prices, Reported, IsBest, AcceptableTape, HintExact,
      HintsLookup, InGrid, Better, Sound;
    d := new H.HybridBook(0, 6300, 64, 64, hash);
    StaleTape(PerLevel);
    SwapTape(PerLevel);
    StaleAnswer();
    FeedHybrid(d, if replaced then SWAP else STALE);
    d.ValidIsShaped();
    reported := d.BestPrice(Buy);
  }

  /** The aggregate book likewise. */
  method StaleFlat(replaced: bool, hash: nat -> nat) returns (c: F.FlatBook, reported: nat)
    ensures fresh(c) && c.Valid() && c.win == WINDOW && c.rejected == 0
    ensures c.ledger == Replay(START, if replaced then SWAP else STALE)
    ensures reported == 500 && IsBest(Buy, Prices(c.ledger.live, Buy), 1000)
    ensures reported ==
      Reported(Buy, WINDOW, Prices(c.ledger.live, Buy), Unasked(WINDOW, PerOrder, if replaced then SWAP else STALE).bid)
  {
    hide F.FlatBook.Valid, Unasked, Replay, Prices, Reported, IsBest, AcceptableTape;
    c := new F.FlatBook(0, 6300, 64, hash);
    StaleTape(PerOrder);
    SwapTape(PerOrder);
    StaleAnswer();
    FeedFlat(c, if replaced then SWAP else STALE);
    reported := c.BestPrice(Buy);
  }
}
