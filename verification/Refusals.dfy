/** What a list book of fixed capacity makes of an event. */
module Refusals {

  // An order that finds no pool slot, or no level for its price, is dropped. One that the id table refuses is
  // linked into its level all the same, but no reference leads to it any more: it rests there for good, and
  // events that name it find nothing.

  import opened Ledgers
  import opened Ranking

  /** Order slots, levels and table entries of a book. */
  datatype Room = Room(orders: nat, levels: nat, names: nat)

  /** The orders linked in a book, and the references its id table knows. */
  datatype Held = Held(ledger: Ledger, names: set<nat>)

  const NOTHING_HELD := Held(START, {})

  /** Levels of both sides. */
  ghost function LevelCount(live: seq<Resting>): nat {
    |Prices(live, Buy)| + |Prices(live, Sell)|
  }

  /** No slot is left, or the order opens a level and none is left. */
  ghost predicate NoRoom(room: Room, live: seq<Resting>, side: Side, px: nat) {
    |live| >= room.orders || (Orders(live, side, px) == 0 && LevelCount(live) >= room.levels)
  }

  ghost function Placed(room: Room, h: Held, ref: nat, side: Side, px: nat, qty: nat): Held {
    if qty == 0 || NoRoom(room, h.ledger.live, side, px) then h
    else Recorded(room, Held(Enlist(h.ledger, ref, side, px, qty), h.names), ref)
  }

  /** A linked order's reference becomes a name while the table has room. */
  ghost function Recorded(room: Room, h: Held, ref: nat): Held {
    h.(names := if |h.names| < room.names then h.names + {ref} else h.names)
  }

  lemma RecordedCases(room: Room, h: Held, ref: nat)
    ensures |h.names| < room.names ==>
      Recorded(room, h, ref) == Held(h.ledger, h.names + {ref}) && Unrecorded(room, h) == 0
    ensures |h.names| >= room.names ==> Recorded(room, h, ref) == h && Unrecorded(room, h) == 1
  {
  }

  ghost function Unrecorded(room: Room, h: Held): nat {
    if |h.names| < room.names then 0 else 1
  }

  /** Refusals counted for an arriving order. */
  ghost function Refused(room: Room, h: Held, side: Side, px: nat, qty: nat): nat {
    if qty == 0 then 0 else if NoRoom(room, h.ledger.live, side, px) then 1 else Unrecorded(room, h)
  }

  lemma PlacedCases(room: Room, h: Held, ref: nat, side: Side, px: nat, qty: nat)
    requires qty > 0
    ensures NoRoom(room, h.ledger.live, side, px) ==>
      Placed(room, h, ref, side, px, qty) == h && Refused(room, h, side, px, qty) == 1
    ensures !NoRoom(room, h.ledger.live, side, px) ==>
      && Placed(room, h, ref, side, px, qty) == Recorded(room, Held(Enlist(h.ledger, ref, side, px, qty), h.names), ref)
      && Refused(room, h, side, px, qty) == Unrecorded(room, h)
  {
  }

  ghost function Dropped(h: Held, ref: nat): Held {
    if ref in h.names then Held(Delist(h.ledger, ref), h.names - {ref}) else h
  }

  ghost function Reduced(h: Held, ref: nat, qty: nat): Held {
    var i := IndexOf(h.ledger.live, ref);
    if ref !in h.names || i == |h.ledger.live| then h
    else if qty < h.ledger.live[i].qty then h.(ledger := Shrink(h.ledger, ref, qty))
    else Dropped(h, ref)
  }

  /** The side of a live order; of no interest for any other. */
  function SideOf(live: seq<Resting>, ref: nat): Side {
    if Has(live, ref) then live[IndexOf(live, ref)].side else Buy
  }

  ghost function Replaced(room: Room, h: Held, ref: nat, newRef: nat, px: nat, qty: nat): Held {
    if ref in h.names then Placed(room, Dropped(h, ref), newRef, SideOf(h.ledger.live, ref), px, qty) else h
  }

  /** The book after an event. */
  ghost function HeldAfter(room: Room, h: Held, e: BookEvent): Held {
    match e.kind
    case Add => Placed(room, h, e.ref, e.side, e.px, e.shares)
    case Execute => Reduced(h, e.ref, e.shares)
    case Cancel => Reduced(h, e.ref, e.shares)
    case Delete => Dropped(h, e.ref)
    case Replace => Replaced(room, h, e.ref, e.newRef, e.px, e.shares)
  }

  /** Refusals counted for an event. */
  ghost function Rejections(room: Room, h: Held, e: BookEvent): nat {
    match e.kind
    case Add => Refused(room, h, e.side, e.px, e.shares)
    case Replace =>
      if e.ref in h.names then Refused(room, Dropped(h, e.ref), SideOf(h.ledger.live, e.ref), e.px, e.shares) else 0
    case _ => 0
  }

  /** The table knows live orders only, and no more of them than it has entries for. */
  ghost predicate Sound(room: Room, h: Held) {
    && WellFormed(h.ledger)
    && (forall r :: r in h.names ==> Has(h.ledger.live, r))
    && |h.names| <= room.names
  }

  /** Every live order can be named: nothing has been lost to the table. */
  ghost predicate AllNamed(h: Held) {
    forall r :: Has(h.ledger.live, r) ==> r in h.names
  }

  // ---- a refusing book as a book of its own events ----

  /** Takes nothing from an order: an event without effect. */
  function Idle(e: BookEvent): BookEvent {
    e.(kind := Cancel, shares := 0)
  }

  /** The event whose plain effect is what the book makes of `e`. */
  ghost function Taken(room: Room, h: Held, e: BookEvent): BookEvent {
    match e.kind
    case Add => if e.shares > 0 && NoRoom(room, h.ledger.live, e.side, e.px) then Idle(e) else e
    case Replace =>
      if e.ref !in h.names then Idle(e)
      else if e.shares > 0 && NoRoom(room, Delist(h.ledger, e.ref).live, SideOf(h.ledger.live, e.ref), e.px) then
        e.(kind := Delete)
      else e
    case _ => if e.ref in h.names then e else Idle(e)
  }

  lemma IdleChangesNothing(l: Ledger, e: BookEvent)
    requires WellFormed(l)
    ensures After(l, Idle(e)) == l
  {
    var i := IndexOf(l.live, e.ref);
    if i < |l.live| {
      assert l.live[i := l.live[i].(qty := l.live[i].qty - 0)] == l.live;
    }
  }

  /** The ledger of a refusing book is that of the events it takes, and they are acceptable where the feed's are. */
  lemma TakenLedger(room: Room, h: Held, e: BookEvent)
    requires Sound(room, h) && Acceptable(h.ledger, e)
    ensures HeldAfter(room, h, e).ledger == After(h.ledger, Taken(room, h, e))
    ensures Acceptable(h.ledger, Taken(room, h, e))
  {
    hide NoRoom, WellFormed;
    IdleChangesNothing(h.ledger, e);
    var i := IndexOf(h.ledger.live, e.ref);
    assert e.ref in h.names ==> Has(h.ledger.live, e.ref);
  }

  lemma PlacedSound(room: Room, h: Held, ref: nat, side: Side, px: nat, qty: nat)
    requires Sound(room, h) && ref != 0 && !Has(h.ledger.live, ref)
    ensures Sound(room, Placed(room, h, ref, side, px, qty))
    ensures AllNamed(h) && Refused(room, h, side, px, qty) == 0 ==>
      AllNamed(Placed(room, h, ref, side, px, qty))
        && Placed(room, h, ref, side, px, qty).ledger == Enlist(h.ledger, ref, side, px, qty)
  {
    hide NoRoom, WellFormed;
    EnlistWellFormed(h.ledger, ref, side, px, qty);
    HasAppend(h.ledger.live, Resting(ref, side, px, qty, h.ledger.clock));
  }

  lemma DroppedSound(room: Room, h: Held, ref: nat)
    requires Sound(room, h)
    ensures Sound(room, Dropped(h, ref))
    ensures AllNamed(h) ==> AllNamed(Dropped(h, ref)) && Dropped(h, ref).ledger == Delist(h.ledger, ref)
    ensures ref in h.names ==> forall r :: Has(Dropped(h, ref).ledger.live, r) <==> Has(h.ledger.live, r) && r != ref
  {
    hide WellFormed;
    DelistWellFormed(h.ledger, ref);
  }

  /** Part of an order taken: the names stay what they were. */
  lemma ShrunkSound(room: Room, h: Held, ref: nat, qty: nat)
    requires Sound(room, h) && Has(h.ledger.live, ref) && qty < h.ledger.live[IndexOf(h.ledger.live, ref)].qty
    ensures var h' := h.(ledger := Shrink(h.ledger, ref, qty)); Sound(room, h') && (AllNamed(h) ==> AllNamed(h'))
  {
    hide WellFormed;
    var i := IndexOf(h.ledger.live, ref);
    ShrinkWellFormed(h.ledger, ref, qty);
    HasResize(h.ledger.live, i, h.ledger.live[i].qty - qty);
    assert Shrink(h.ledger, ref, qty).live == h.ledger.live[i := h.ledger.live[i].(qty := h.ledger.live[i].qty - qty)];
  }

  lemma ReducedSound(room: Room, h: Held, ref: nat, qty: nat)
    requires Sound(room, h)
    ensures Sound(room, Reduced(h, ref, qty))
    ensures AllNamed(h) ==> AllNamed(Reduced(h, ref, qty)) && Reduced(h, ref, qty).ledger == Shrink(h.ledger, ref, qty)
  {
    hide WellFormed, AllNamed, Dropped;
    DroppedSound(room, h, ref);
    var i := IndexOf(h.ledger.live, ref);
    if ref in h.names && qty < h.ledger.live[i].qty {
      ShrunkSound(room, h, ref, qty);
    } else if i < |h.ledger.live| {
      NamedWhole(h, ref);
    }
  }

  lemma NamedWhole(h: Held, ref: nat)
    requires Has(h.ledger.live, ref)
    ensures AllNamed(h) ==> ref in h.names
  {
  }

  /** A book that can name all its orders is, until it refuses one, simply the ledger of the tape. */
  lemma HeldSound(room: Room, h: Held, e: BookEvent)
    requires Sound(room, h) && Acceptable(h.ledger, e)
    ensures Sound(room, HeldAfter(room, h, e))
    ensures AllNamed(h) && Rejections(room, h, e) == 0 ==>
      AllNamed(HeldAfter(room, h, e)) && HeldAfter(room, h, e).ledger == After(h.ledger, e)
  {
    hide Sound, AllNamed, Placed, Dropped, Reduced, Refused, Enlist, Delist, Shrink;
    match e.kind {
      case Add => PlacedSound(room, h, e.ref, e.side, e.px, e.shares);
      case Execute => ReducedSound(room, h, e.ref, e.shares);
      case Cancel => ReducedSound(room, h, e.ref, e.shares);
      case Delete => DroppedSound(room, h, e.ref);
      case Replace => ReplacedSound(room, h, e);
    }
  }

  lemma ReplacedSound(room: Room, h: Held, e: BookEvent)
    requires Sound(room, h) && Acceptable(h.ledger, e) && e.kind.Replace?
    ensures Sound(room, HeldAfter(room, h, e))
    ensures AllNamed(h) && Rejections(room, h, e) == 0 ==>
      AllNamed(HeldAfter(room, h, e)) && HeldAfter(room, h, e).ledger == After(h.ledger, e)
  {
    hide WellFormed, Placed, Dropped, Refused, Delist, Enlist, IndexOf;
    DroppedSound(room, h, e.ref);
    if e.ref in h.names {
      PlacedSound(room, Dropped(h, e.ref), e.newRef, SideOf(h.ledger.live, e.ref), e.px, e.shares);
    }
  }

  // ---- books that have refused nothing ----

  ghost function Refs(live: seq<Resting>): set<nat> {
    set r | r in live :: r.ref
  }

  lemma RefsAre(live: seq<Resting>)
    ensures forall ref :: ref in Refs(live) <==> Has(live, ref)
  {
    forall ref ensures ref in Refs(live) <==> Has(live, ref) {
      if Has(live, ref) {
        assert live[IndexOf(live, ref)] in live;
      } else {
        assert forall i :: 0 <= i < |live| ==> live[i].ref != ref;
      }
    }
  }

  /** The ledger, every order named. */
  ghost function Known(l: Ledger): Held {
    Held(l, Refs(l.live))
  }

  lemma KnownIs(room: Room, h: Held)
    requires Sound(room, h)
    ensures AllNamed(h) <==> h == Known(h.ledger)
  {
    hide WellFormed, Has, Refs;
    RefsAre(h.ledger.live);
  }

  /** A book that names all its orders counts a refusal, and counts it once, exactly when the event leaves it short of
      the whole ledger or of a name. */
  lemma RefusedIff(room: Room, h: Held, e: BookEvent)
    requires Sound(room, h) && Acceptable(h.ledger, e) && AllNamed(h)
    ensures Rejections(room, h, e) <= 1
    ensures Rejections(room, h, e) == 0 <==> HeldAfter(room, h, e) == Known(After(h.ledger, e))
  {
    hide Sound, AllNamed, Placed, Dropped, Reduced, Refused, Enlist, Delist, Shrink, Known, SideOf;
    HeldSound(room, h, e);
    KnownIs(room, HeldAfter(room, h, e));
    match e.kind {
      case Add => PlacedShort(room, h, e.ref, e.side, e.px, e.shares);
      case Replace =>
        DroppedSound(room, h, e.ref);
        if e.ref in h.names {
          ReplacedShort(room, h, e);
        }
      case _ =>
    }
  }

  lemma PlacedShort(room: Room, h: Held, ref: nat, side: Side, px: nat, qty: nat)
    requires Sound(room, h) && ref != 0 && !Has(h.ledger.live, ref)
    ensures Refused(room, h, side, px, qty) <= 1
    ensures Refused(room, h, side, px, qty) > 0 ==>
      Placed(room, h, ref, side, px, qty) != Known(Enlist(h.ledger, ref, side, px, qty))
  {
    hide NoRoom, WellFormed, Has;
    RefsAre(h.ledger.live + [Resting(ref, side, px, qty, h.ledger.clock)]);
    HasAppend(h.ledger.live, Resting(ref, side, px, qty, h.ledger.clock));
  }

  lemma ReplacedShort(room: Room, h: Held, e: BookEvent)
    requires Sound(room, h) && Acceptable(h.ledger, e) && AllNamed(h) && e.kind.Replace? && e.ref in h.names
    ensures Rejections(room, h, e) <= 1
    ensures Rejections(room, h, e) > 0 ==> HeldAfter(room, h, e) != Known(After(h.ledger, e))
  {
    hide NoRoom, WellFormed, Placed, Refused, Enlist, Delist, Known, Dropped, IndexOf;
    DroppedSound(room, h, e.ref);
    var side := SideOf(h.ledger.live, e.ref);
    PlacedShort(room, Dropped(h, e.ref), e.newRef, side, e.px, e.shares);
  }

  /** A side has no more prices than orders. */
  lemma LevelsWithinOrders(live: seq<Resting>)
    ensures LevelCount(live) <= |live|
  {
    PricesWithin(live);
  }

  lemma {:induction false} PricesWithin(live: seq<Resting>)
    ensures |Prices(live, Buy)| + |Prices(live, Sell)| <= |live|
  {
    if live == [] {
      assert Prices(live, Buy) == {} == Prices(live, Sell);
    } else {
      var before, x := live[..|live| - 1], live[|live| - 1];
      PricesWithin(before);
      assert live == before + [x];
      PricesAppend(before, x, Buy);
      PricesAppend(before, x, Sell);
      hide Prices;
    }
  }

  /** A book with more room than it holds orders refuses nothing, and holds at most one order more. */
  lemma AmpleRoom(room: Room, l: Ledger, e: BookEvent)
    requires WellFormed(l) && Acceptable(l, e)
    requires |l.live| < room.orders && |l.live| < room.levels && |l.live| < room.names
    ensures Rejections(room, Known(l), e) == 0 && |After(l, e).live| <= |l.live| + 1
  {
    hide WellFormed, LevelCount, Orders, Prices;
    LevelsWithinOrders(l.live);
    LevelsWithinOrders(Delist(l, e.ref).live);
    RefsWithin(l.live);
    RefsWithin(Delist(l, e.ref).live);
  }

  lemma {:induction false} RefsWithin(live: seq<Resting>)
    ensures |Refs(live)| <= |live|
  {
    if live == [] {
      assert Refs(live) == {};
    } else {
      var before, x := live[..|live| - 1], live[|live| - 1];
      RefsWithin(before);
      assert Refs(live) == Refs(before) + {x.ref};
    }
  }

  /** A book that names all its orders and refuses nothing takes every event as it is, or finds nothing to do. */
  lemma TakenAsIs(room: Room, l: Ledger, e: BookEvent)
    requires Rejections(room, Known(l), e) == 0
    ensures Taken(room, Known(l), e) ==
      e || (!e.kind.Add? && !Has(l.live, e.ref) && Taken(room, Known(l), e) == Idle(e))
  {
    hide NoRoom, Has, Delist;
    RefsAre(l.live);
  }

  // ---- runs ----

  /** What a book holds after a tape. */
  ghost function HeldAlong(room: Room, tape: seq<BookEvent>): Held {
    if tape == [] then NOTHING_HELD
    else HeldAfter(room, HeldAlong(room, tape[..|tape| - 1]), tape[|tape| - 1])
  }

  /** Refusals counted along a tape. */
  ghost function RejectionsAlong(room: Room, tape: seq<BookEvent>): nat {
    if tape == [] then 0
    else
      var before := tape[..|tape| - 1];
      RejectionsAlong(room, before) + Rejections(room, HeldAlong(room, before), tape[|tape| - 1])
  }

  /** Every event is acceptable for what the book then holds. */
  ghost predicate AcceptableTo(room: Room, tape: seq<BookEvent>) {
    forall k :: 0 <= k < |tape| ==> Acceptable(HeldAlong(room, tape[..k]).ledger, tape[k])
  }

  lemma ToldFront(room: Room, tape: seq<BookEvent>)
    requires tape != []
    ensures var before := tape[..|tape| - 1];
      AcceptableTo(room, tape) <==>
        AcceptableTo(room, before) && Acceptable(HeldAlong(room, before).ledger, tape[|tape| - 1])
  {
    hide HeldAlong, Acceptable;
    var before := tape[..|tape| - 1];
    assert forall k :: 0 <= k < |before| ==> before[..k] == tape[..k] && before[k] == tape[k];
  }

  lemma {:induction false} HeldAlongSound(room: Room, tape: seq<BookEvent>)
    requires AcceptableTo(room, tape)
    ensures Sound(room, HeldAlong(room, tape))
  {
    hide HeldAfter, Sound, Acceptable, AcceptableTo;
    if tape == [] {
      StartSound(room);
    } else {
      var before := tape[..|tape| - 1];
      ToldFront(room, tape);
      HeldAlongSound(room, before);
      HeldSound(room, HeldAlong(room, before), tape[|tape| - 1]);
    }
  }

  lemma StartSound(room: Room)
    ensures Sound(room, NOTHING_HELD) && AllNamed(NOTHING_HELD) && AcceptableTo(room, [])
  {
  }

  /** Where nothing was refused, the book is the replay of the tape, and what the feed may say it may be told. */
  lemma {:induction false} RefusedNothing(room: Room, tape: seq<BookEvent>)
    requires AcceptableTape(START, tape) && RejectionsAlong(room, tape) == 0
    ensures HeldAlong(room, tape).ledger == Replay(START, tape) && AllNamed(HeldAlong(room, tape))
    ensures AcceptableTo(room, tape)
  {
    hide HeldAfter, Rejections, Sound, AllNamed, Acceptable, After, AcceptableTo, AcceptableTape;
    if tape == [] {
      StartSound(room);
    } else {
      var before := tape[..|tape| - 1];
      TapeFront(START, tape);
      RefusedNothing(room, before);
      ToldFront(room, tape);
      HeldAlongSound(room, before);
      HeldSound(room, HeldAlong(room, before), tape[|tape| - 1]);
    }
  }

  /** A tape no longer than the room a book has for anything is refused nothing. */
  lemma {:induction false} ShortTape(room: Room, tape: seq<BookEvent>)
    requires AcceptableTape(START, tape) && |tape| <= room.orders && |tape| <= room.levels && |tape| <= room.names
    ensures RejectionsAlong(room, tape) == 0 && HeldAlong(room, tape) == Known(Replay(START, tape))
    ensures WellFormed(Replay(START, tape)) && |Replay(START, tape).live| <= |tape|
    ensures AcceptableTo(room, tape)
  {
    hide HeldAfter, Rejections, Acceptable, After, WellFormed, Sound, AllNamed, AcceptableTo, AcceptableTape;
    if tape == [] {
      StartSound(room);
      KnownIs(room, NOTHING_HELD);
      SoundMeans(room, NOTHING_HELD);
    } else {
      var before, e := tape[..|tape| - 1], tape[|tape| - 1];
      TapeFront(START, tape);
      ShortTape(room, before);
      AmpleRoom(room, Replay(START, before), e);
      AfterWellFormed(Replay(START, before), e);
      RefusedNothing(room, tape);
      HeldAlongSound(room, tape);
      KnownIs(room, HeldAlong(room, tape));
    }
  }

  lemma SoundMeans(room: Room, h: Held)
    requires Sound(room, h)
    ensures WellFormed(h.ledger)
  {
  }

  // ---- the aggregate design ----

  // It keeps no lists: an order that its id table refuses is not taken at all, and nothing else is refused.

  ghost predicate Turned(names: nat, l: Ledger, e: BookEvent) {
    e.kind.Add? && e.shares > 0 && |Refs(l.live)| >= names
  }

  /** The book after an event. */
  ghost function Kept(names: nat, l: Ledger, e: BookEvent): Ledger {
    if Turned(names, l, e) then l else After(l, e)
  }

  ghost function KeptAlong(names: nat, tape: seq<BookEvent>): Ledger {
    if tape == [] then START else Kept(names, KeptAlong(names, tape[..|tape| - 1]), tape[|tape| - 1])
  }

  /** Refusals counted along a tape. */
  ghost function TurnedAlong(names: nat, tape: seq<BookEvent>): nat {
    if tape == [] then 0
    else
      var before := tape[..|tape| - 1];
      TurnedAlong(names, before) + if Turned(names, KeptAlong(names, before), tape[|tape| - 1]) then 1 else 0
  }

  /** Every order of `f` rests in `l` with the same shares. */
  ghost predicate Among(f: Ledger, l: Ledger) {
    forall r :: SharesOf(f.live, r) > 0 ==> SharesOf(f.live, r) == SharesOf(l.live, r)
  }

  lemma AmongAcceptable(f: Ledger, l: Ledger, e: BookEvent)
    requires WellFormed(f) && WellFormed(l) && Among(f, l) && Acceptable(l, e)
    ensures Acceptable(f, e)
  {
    hide WellFormed, Has, SharesOf;
    SharesOfOrder(f, e.ref);
    SharesOfOrder(l, e.ref);
    SharesOfOrder(f, e.newRef);
    SharesOfOrder(l, e.newRef);
  }

  lemma KeptAmongStep(names: nat, f: Ledger, l: Ledger, e: BookEvent)
    requires WellFormed(f) && WellFormed(l) && Among(f, l) && Acceptable(l, e)
    ensures Acceptable(f, e) && WellFormed(Kept(names, f, e)) && WellFormed(After(l, e))
    ensures Among(Kept(names, f, e), After(l, e))
  {
    AmongAcceptable(f, l, e);
    AfterWellFormed(f, e);
    AfterWellFormed(l, e);
    hide WellFormed, Has, SharesOf, After, Refs;
    forall r ensures var s := SharesOf(Kept(names, f, e).live, r); s > 0 ==> s == SharesOf(After(l, e).live, r) {
      SharesAfter(f, e, r);
      SharesAfter(l, e, r);
      SharesOfOrder(l, e.newRef);
      SharesOfOrder(l, e.ref);
    }
  }

  /** Whatever it refuses, the aggregate book holds orders of the tape only, each with its true remaining size. */
  lemma {:induction false} KeptAmong(names: nat, tape: seq<BookEvent>)
    requires AcceptableTape(START, tape)
    ensures WellFormed(KeptAlong(names, tape)) && WellFormed(Replay(START, tape))
    ensures Among(KeptAlong(names, tape), Replay(START, tape))
  {
    hide WellFormed, Among, Acceptable, After, AcceptableTape, Kept;
    if tape == [] {
      StartAmong();
    } else {
      var before := tape[..|tape| - 1];
      TapeFront(START, tape);
      KeptAmong(names, before);
      KeptAmongStep(names, KeptAlong(names, before), Replay(START, before), tape[|tape| - 1]);
    }
  }

  lemma StartAmong()
    ensures WellFormed(START) && Among(START, START)
  {
  }

  /** It refuses only what the list designs refuse. */
  lemma {:induction false} KeptAll(room: Room, tape: seq<BookEvent>)
    requires AcceptableTape(START, tape) && RejectionsAlong(room, tape) == 0
    ensures KeptAlong(room.names, tape) == Replay(START, tape) && TurnedAlong(room.names, tape) == 0
  {
    hide WellFormed, Acceptable, After, AcceptableTape, HeldAfter, Rejections, Sound, AllNamed, AcceptableTo, Turned;
    if tape != [] {
      var before, e := tape[..|tape| - 1], tape[|tape| - 1];
      TapeFront(START, tape);
      KeptAll(room, before);
      RefusedNothing(room, before);
      HeldAlongSound(room, before);
      KnownIs(room, HeldAlong(room, before));
      TurnedRefused(room, Replay(START, before), e);
    }
  }

  lemma TurnedRefused(room: Room, l: Ledger, e: BookEvent)
    ensures Turned(room.names, l, e) ==> Rejections(room, Known(l), e) > 0
  {
    hide NoRoom;
  }
}
