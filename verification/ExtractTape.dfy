/** One tape per wanted symbol. */
module TapeExtraction {

  // Splitting the feed by an index from order references to symbols, against one book of the whole feed.

  import opened ItchBytes
  import opened ItchMessages
  import opened Ledgers
  import opened Feeds
  import R = ItchReader
  import O = OpenHash

  /** Where an order's events go, and the shares it still has: `slot` is the target's index plus one, or 0 for a
      symbol nobody wants. */
  datatype Route = Route(shares: nat, slot: nat)

  // ---- keeping one symbol's orders ----

  function Unstamped(r: Resting): Resting {
    r.(stamp := 0)
  }

  function Bare(live: seq<Resting>): seq<Resting> {
    if live == [] then [] else [Unstamped(live[0])] + Bare(live[1..])
  }

  function Kept(r: Resting, owner: map<nat, nat>, slot: nat): seq<Resting> {
    if OwnerOf(owner, r.ref) == slot then [Unstamped(r)] else []
  }

  /** The orders of one slot, in order of arrival, without their stamps. */
  function Project(live: seq<Resting>, owner: map<nat, nat>, slot: nat): seq<Resting> {
    if live == [] then [] else Kept(live[0], owner, slot) + Project(live[1..], owner, slot)
  }

  lemma {:induction false} BareAt(live: seq<Resting>, i: nat)
    requires i < |live|
    ensures |Bare(live)| == |live| && Bare(live)[i] == Unstamped(live[i])
  {
    if i > 0 {
      BareAt(live[1..], i - 1);
    } else if |live| > 1 {
      BareAt(live[1..], 0);
    }
  }

  lemma {:induction false} BareIndex(live: seq<Resting>, ref: nat)
    ensures IndexOf(Bare(live), ref) == IndexOf(live, ref) && |Bare(live)| == |live|
  {
    if live != [] {
      BareIndex(live[1..], ref);
      assert Bare(live)[1..] == Bare(live[1..]);
    }
  }

  lemma {:induction false} BareAppend(live: seq<Resting>, x: Resting)
    ensures Bare(live + [x]) == Bare(live) + [Unstamped(x)]
  {
    if live == [] {
      assert live + [x] == [x];
      assert Bare([x][1..]) == [];
    } else {
      assert (live + [x])[1..] == live[1..] + [x];
      BareAppend(live[1..], x);
    }
  }

  lemma {:induction false} BareRemove(live: seq<Resting>, i: nat)
    requires i < |live|
    ensures |Bare(live)| == |live| && Bare(RemoveAt(live, i)) == RemoveAt(Bare(live), i)
  {
    hide RemoveAt, Unstamped;
    BareAt(live, i);
    RemoveBehind(live, i);
    RemoveBehind(Bare(live), i);
    assert Bare(live)[1..] == Bare(live[1..]);
    if i > 0 {
      BareRemove(live[1..], i - 1);
      assert RemoveAt(live, i)[1..] == RemoveAt(live[1..], i - 1);
    }
  }

  lemma RemoveBehind(live: seq<Resting>, i: nat)
    requires i < |live|
    ensures RemoveAt(live, i) == if i == 0 then live[1..] else [live[0]] + RemoveAt(live[1..], i - 1)
  {
  }

  lemma {:induction false} BareResize(live: seq<Resting>, i: nat, qty: nat)
    requires i < |live|
    ensures |Bare(live)| == |live|
    ensures Bare(live[i := live[i].(qty := qty)]) == Bare(live)[i := Bare(live)[i].(qty := qty)]
  {
    BareAt(live, i);
    assert Bare(live)[1..] == Bare(live[1..]);
    var m := live[i := live[i].(qty := qty)];
    if i == 0 {
      assert m[1..] == live[1..];
    } else {
      BareResize(live[1..], i - 1, qty);
      BareAt(live[1..], i - 1);
      assert m[1..] == live[1..][i - 1 := live[1..][i - 1].(qty := qty)];
    }
  }

  lemma {:induction false} ProjectConcat(a: seq<Resting>, b: seq<Resting>, owner: map<nat, nat>, slot: nat)
    ensures Project(a + b, owner, slot) == Project(a, owner, slot) + Project(b, owner, slot)
  {
    hide Kept;
    if a == [] {
      assert a + b == b;
    } else {
      assert (a + b)[1..] == a[1..] + b;
      ProjectConcat(a[1..], b, owner, slot);
    }
  }

  lemma ProjectOne(x: Resting, owner: map<nat, nat>, slot: nat)
    ensures Project([x], owner, slot) == Kept(x, owner, slot)
  {
    assert Project([x][1..], owner, slot) == [];
  }

  /** The projection around the `i`-th order, whatever stands in its place. */
  lemma ProjectAround(live: seq<Resting>, i: nat, x: Resting, owner: map<nat, nat>, slot: nat)
    requires i < |live|
    ensures var a, b := Project(live[..i], owner, slot), Project(live[i + 1..], owner, slot);
      && Project(RemoveAt(live, i), owner, slot) == a + b
      && Project(live[i := x], owner, slot) == a + (Kept(x, owner, slot) + b)
  {
    hide Project, Kept;
    ProjectConcat(live[..i], live[i + 1..], owner, slot);
    ProjectConcat([x], live[i + 1..], owner, slot);
    ProjectConcat(live[..i], [x] + live[i + 1..], owner, slot);
    ProjectOne(x, owner, slot);
    assert live[i := x] == live[..i] + ([x] + live[i + 1..]);
  }

  lemma {:induction false} ProjectFrame(live: seq<Resting>, owner: map<nat, nat>, owner': map<nat, nat>, slot: nat)
    requires forall k :: 0 <= k < |live| ==> OwnerOf(owner, live[k].ref) == OwnerOf(owner', live[k].ref)
    ensures Project(live, owner, slot) == Project(live, owner', slot)
  {
    if live != [] {
      ProjectFrame(live[1..], owner, owner', slot);
    }
  }

  lemma {:induction false} IndexConcat(a: seq<Resting>, b: seq<Resting>, ref: nat)
    requires !Has(a, ref)
    ensures IndexOf(a + b, ref) == |a| + IndexOf(b, ref)
  {
    if a == [] {
      assert a + b == b;
    } else {
      assert (a + b)[1..] == a[1..] + b;
      IndexConcat(a[1..], b, ref);
    }
  }

  lemma {:induction false} ProjectMisses(live: seq<Resting>, owner: map<nat, nat>, slot: nat, ref: nat)
    requires !Has(live, ref) || OwnerOf(owner, ref) != slot
    ensures !Has(Project(live, owner, slot), ref)
  {
    if live != [] {
      ProjectMisses(live[1..], owner, slot, ref);
      if OwnerOf(owner, live[0].ref) == slot {
        IndexConcat([Unstamped(live[0])], Project(live[1..], owner, slot), ref);
      } else {
        assert [] + Project(live[1..], owner, slot) == Project(live[1..], owner, slot);
      }
    }
  }

  lemma MissesBefore(live: seq<Resting>, ref: nat)
    ensures !Has(live[..IndexOf(live, ref)], ref)
  {
    var i := IndexOf(live, ref);
    assert forall j :: 0 <= j < i ==> live[..i][j] == live[j];
  }

  /** An order is in the projection of its own slot, between what came before it and what came after. */
  lemma ProjectFinds(live: seq<Resting>, owner: map<nat, nat>, ref: nat)
    requires Has(live, ref)
    ensures var i := IndexOf(live, ref); var slot := OwnerOf(owner, ref);
      var ps, a := Project(live, owner, slot), Project(live[..i], owner, slot);
      && IndexOf(ps, ref) == |a| < |ps| && ps[|a|] == Unstamped(live[i])
      && ps == a + ([Unstamped(live[i])] + Project(live[i + 1..], owner, slot))
  {
    var i, slot := IndexOf(live, ref), OwnerOf(owner, ref);
    var a, b := Project(live[..i], owner, slot), Project(live[i + 1..], owner, slot);
    ProjectAround(live, i, live[i], owner, slot);
    assert live[i := live[i]] == live;
    MissesBefore(live, ref);
    ProjectMisses(live[..i], owner, slot, ref);
    IndexConcat(a, [Unstamped(live[i])] + b, ref);
  }

  lemma Spliced(a: seq<Resting>, x: Resting, b: seq<Resting>, y: Resting)
    ensures var ps := a + ([x] + b);
      |a| < |ps| && ps[|a|] == x && RemoveAt(ps, |a|) == a + b && ps[|a| := y] == a + ([y] + b)
  {
  }

  /** Removing or resizing an order does so in the projection of its slot, and nothing in any other. */
  lemma ProjectChange(live: seq<Resting>, owner: map<nat, nat>, slot: nat, ref: nat, qty: nat)
    requires Has(live, ref)
    ensures var i, ps := IndexOf(live, ref), Project(live, owner, slot);
      var removed, resized := RemoveAt(live, i), live[i := live[i].(qty := qty)];
      if OwnerOf(owner, ref) == slot then
        && Has(ps, ref) && ps[IndexOf(ps, ref)] == Unstamped(live[i])
        && Project(removed, owner, slot) == RemoveAt(ps, IndexOf(ps, ref))
        && Project(resized, owner, slot) == ps[IndexOf(ps, ref) := ps[IndexOf(ps, ref)].(qty := qty)]
      else Project(removed, owner, slot) == ps && Project(resized, owner, slot) == ps && !Has(ps, ref)
  {
    hide Project, RemoveAt, IndexOf;
    var i, x := IndexOf(live, ref), live[IndexOf(live, ref)];
    var a, b := Project(live[..i], owner, slot), Project(live[i + 1..], owner, slot);
    ProjectAround(live, i, x, owner, slot);
    ProjectAround(live, i, x.(qty := qty), owner, slot);
    assert live[i := x] == live;
    if OwnerOf(owner, ref) == slot {
      ProjectFinds(live, owner, ref);
      Spliced(a, Unstamped(x), b, Unstamped(x.(qty := qty)));
    } else {
      ProjectMisses(live, owner, slot, ref);
      assert a + ([] + b) == a + b;
    }
  }

  // ---- a tape against the feed ----

  /** A ledger holds the orders of one slot of the feed, in the same order. */
  ghost predicate Follows(t: Ledger, f: Feed, slot: nat) {
    Bare(t.live) == Project(f.ledger.live, f.owner, slot)
  }

  /** Whose event it is: the added order's slot, or that of the live order it names. */
  function Addressee(f: Feed, e: BookEvent, slot: nat): nat {
    if e.kind.Add? then slot else OwnerOf(f.owner, e.ref)
  }

  lemma NotLive(live: seq<Resting>, ref: nat, k: nat)
    requires !Has(live, ref) && k < |live|
    ensures live[k].ref != ref
  {
  }

  /** Retagging a reference that is not live changes no projection. */
  lemma RetagFrame(live: seq<Resting>, owner: map<nat, nat>, ref: nat, to: nat, slot: nat)
    requires !Has(live, ref)
    ensures Project(live, owner[ref := to], slot) == Project(live, owner, slot)
  {
    forall k | 0 <= k < |live| ensures OwnerOf(owner, live[k].ref) == OwnerOf(owner[ref := to], live[k].ref) {
      NotLive(live, ref, k);
    }
    ProjectFrame(live, owner, owner[ref := to], slot);
  }

  /** Enlisting an order under a reference not live, tagged with its slot. */
  lemma EnlistFollows(t: Ledger, f: Feed, ref: nat, side: Side, px: nat, qty: nat, to: nat, slot: nat)
    requires Follows(t, f, slot) && !Has(f.ledger.live, ref)
    ensures var f' := f.(ledger := Enlist(f.ledger, ref, side, px, qty), owner := f.owner[ref := to]);
      Follows(if to == slot then Enlist(t, ref, side, px, qty) else t, f', slot)
  {
    hide Project, Bare;
    var owner := f.owner[ref := to];
    RetagFrame(f.ledger.live, f.owner, ref, to, slot);
    if qty > 0 {
      var x, y := Resting(ref, side, px, qty, f.ledger.clock), Resting(ref, side, px, qty, t.clock);
      ProjectConcat(f.ledger.live, [x], owner, slot);
      ProjectOne(x, owner, slot);
      BareAppend(t.live, y);
    }
  }

  /** A reference is live in the tape exactly when it is live in the feed under its slot, and names the same order. */
  lemma FoundFollows(t: Ledger, f: Feed, ref: nat, slot: nat)
    requires Follows(t, f, slot)
    ensures Has(t.live, ref) <==> Has(f.ledger.live, ref) && OwnerOf(f.owner, ref) == slot
    ensures Has(t.live, ref) ==>
      Unstamped(t.live[IndexOf(t.live, ref)]) == Unstamped(f.ledger.live[IndexOf(f.ledger.live, ref)])
  {
    hide Project, Bare, RemoveAt, IndexOf;
    var i, j := IndexOf(f.ledger.live, ref), IndexOf(t.live, ref);
    BareIndex(t.live, ref);
    if i < |f.ledger.live| {
      ProjectChange(f.ledger.live, f.owner, slot, ref, 0);
    } else {
      ProjectMisses(f.ledger.live, f.owner, slot, ref);
    }
    if j < |t.live| {
      BareAt(t.live, j);
    }
  }

  lemma DelistFollows(t: Ledger, f: Feed, ref: nat, slot: nat)
    requires Follows(t, f, slot)
    ensures Follows(Delist(t, ref), f.(ledger := Delist(f.ledger, ref)), slot)
  {
    hide Project, Bare, RemoveAt, IndexOf, Unstamped;
    FoundFollows(t, f, ref, slot);
    BareIndex(t.live, ref);
    if Has(f.ledger.live, ref) {
      ProjectChange(f.ledger.live, f.owner, slot, ref, 0);
    }
    if Has(t.live, ref) {
      BareRemove(t.live, IndexOf(t.live, ref));
    }
  }

  lemma ShrinkFollows(t: Ledger, f: Feed, ref: nat, qty: nat, slot: nat)
    requires Follows(t, f, slot)
    ensures Follows(Shrink(t, ref, qty), f.(ledger := Shrink(f.ledger, ref, qty)), slot)
  {
    hide Project, Bare, RemoveAt, IndexOf;
    DelistFollows(t, f, ref, slot);
    FoundFollows(t, f, ref, slot);
    if Has(f.ledger.live, ref) && qty < f.ledger.live[IndexOf(f.ledger.live, ref)].qty {
      var left := f.ledger.live[IndexOf(f.ledger.live, ref)].qty - qty;
      ProjectChange(f.ledger.live, f.owner, slot, ref, left);
      if Has(t.live, ref) {
        BareIndex(t.live, ref);
        BareResize(t.live, IndexOf(t.live, ref), left);
      }
    }
  }

  /** Removing the order a reference names, or taking shares from it. */
  lemma TakeFollows(t: Ledger, f: Feed, ref: nat, qty: nat, slot: nat)
    requires Follows(t, f, slot)
    ensures Has(t.live, ref) <==> Has(f.ledger.live, ref) && OwnerOf(f.owner, ref) == slot
    ensures Follows(Delist(t, ref), f.(ledger := Delist(f.ledger, ref)), slot)
    ensures Follows(Shrink(t, ref, qty), f.(ledger := Shrink(f.ledger, ref, qty)), slot)
    ensures Has(t.live, ref) ==> t.live[IndexOf(t.live, ref)].side == f.ledger.live[IndexOf(f.ledger.live, ref)].side
  {
    hide Follows, Delist, Shrink, IndexOf;
    FoundFollows(t, f, ref, slot);
    DelistFollows(t, f, ref, slot);
    ShrinkFollows(t, f, ref, qty, slot);
  }

  /** One event of the feed, played into the tapes of its addressee only, or into any tape when it names no live
      order, keeps every tape following. */
  lemma EventFollows(t: Ledger, f: Feed, e: BookEvent, to: nat, slot: nat)
    requires Follows(t, f, slot) && WellFormed(f.ledger) && Acceptable(f.ledger, e)
    ensures Addressee(f, e, to) == slot ==> Follows(After(t, e), Book(f, e, to), slot)
    ensures Addressee(f, e, to) != slot ==> Follows(t, Book(f, e, to), slot)
    ensures !e.kind.Add? && !Has(f.ledger.live, e.ref) ==>
      Follows(After(t, e), Book(f, e, to), slot) && Follows(t, Book(f, e, to), slot)
  {
    hide Follows, Has, IndexOf, WellFormed, Enlist, OwnerOf;
    TakeFollows(t, f, e.ref, e.shares, slot);
    if e.kind.Add? {
      EnlistFollows(t, f, e.ref, e.side, e.px, e.shares, to, slot);
    } else if e.kind.Replace? && Has(f.ledger.live, e.ref) {
      ReplaceFollows(t, f, e, to, slot);
    }
    assert !Has(f.ledger.live, e.ref) ==>
      Delist(f.ledger, e.ref) == f.ledger && Shrink(f.ledger, e.ref, e.shares) == f.ledger by {
      AbsentUnchanged(f.ledger, e.ref, e.shares);
    }
    assert !Has(t.live, e.ref) ==>
      Delist(t, e.ref) == t && Shrink(t, e.ref, e.shares) == t by { AbsentUnchanged(t, e.ref, e.shares); }
    hide Delist, Shrink;
  }

  lemma AbsentUnchanged(l: Ledger, ref: nat, qty: nat)
    ensures !Has(l.live, ref) ==> Delist(l, ref) == l && Shrink(l, ref, qty) == l
  {
  }

  lemma ReplaceFollows(t: Ledger, f: Feed, e: BookEvent, to: nat, slot: nat)
    requires Follows(t, f, slot) && WellFormed(f.ledger) && Acceptable(f.ledger, e) && e.kind.Replace?
    requires Has(f.ledger.live, e.ref)
    ensures Follows(if OwnerOf(f.owner, e.ref) == slot then After(t, e) else t, Book(f, e, to), slot)
  {
    hide Follows, Delist, Enlist, WellFormed, IndexOf;
    TakeFollows(t, f, e.ref, 0, slot);
    DelistWellFormed(f.ledger, e.ref);
    var side := f.ledger.live[IndexOf(f.ledger.live, e.ref)].side;
    var t1, f1 := Delist(t, e.ref), f.(ledger := Delist(f.ledger, e.ref));
    AbsentUnchanged(t, e.ref, 0);
    EnlistFollows(t1, f1, e.newRef, side, e.px, e.shares, OwnerOf(f.owner, e.ref), slot);
  }

  // ---- the routing index ----

  /** Every live order of the feed is indexed, with its slot and the shares it still has. */
  ghost predicate Indexed(route: map<nat, Route>, f: Feed) {
    forall k :: 0 <= k < |f.ledger.live| ==> Entry(route, f, f.ledger.live[k])
  }

  ghost predicate Entry(route: map<nat, Route>, f: Feed, r: Resting) {
    r.ref in route && route[r.ref] == Route(r.qty, OwnerOf(f.owner, r.ref))
  }

  /** The index after an event, when nothing is refused. An order is retired once its shares run out. */
  function RouteAfter(route: map<nat, Route>, e: BookEvent, to: nat): map<nat, Route> {
    if e.kind.Add? then route[e.ref := Route(e.shares, to)]
    else if e.ref !in route then route
    else
      var r := route[e.ref];
      if e.kind.Delete? then route - {e.ref}
      else if e.kind.Replace? then (route - {e.ref})[e.newRef := Route(e.shares, r.slot)]
      else if r.shares <= e.shares then route - {e.ref}
      else route[e.ref := Route(r.shares - e.shares, r.slot)]
  }

  /** The slot whose tape gets the event; 0 for none. */
  function Aim(route: map<nat, Route>, e: BookEvent, to: nat): nat {
    if e.kind.Add? then to else if e.ref in route then route[e.ref].slot else 0
  }

  lemma RestDiffers(live: seq<Resting>, i: nat, k: nat)
    requires Distinct(live) && i < |live| && k < |live| - 1
    ensures var r := RemoveAt(live, i)[k]; r.ref != live[i].ref && r in live
  {
    assert RemoveAt(live, i)[k] == live[if k < i then k else k + 1];
  }

  lemma AddIndexed(route: map<nat, Route>, f: Feed, e: BookEvent, to: nat)
    requires Indexed(route, f) && Acceptable(f.ledger, e) && e.kind.Add?
    ensures Indexed(RouteAfter(route, e, to), Book(f, e, to))
  {
    var f' := Book(f, e, to);
    forall k | 0 <= k < |f'.ledger.live| ensures Entry(RouteAfter(route, e, to), f', f'.ledger.live[k]) {
      if k < |f.ledger.live| {
        NotLive(f.ledger.live, e.ref, k);
        assert Entry(route, f, f.ledger.live[k]);
      }
    }
  }

  /** Early retirement never loses a live order: what is left in the index covers what is left in the book. */
  lemma TakeIndexed(route: map<nat, Route>, f: Feed, e: BookEvent, to: nat)
    requires Indexed(route, f) && WellFormed(f.ledger) && (e.kind.Execute? || e.kind.Cancel? || e.kind.Delete?)
    ensures Indexed(RouteAfter(route, e, to), Book(f, e, to))
  {
    var live, i := f.ledger.live, IndexOf(f.ledger.live, e.ref);
    var f', route' := Book(f, e, to), RouteAfter(route, e, to);
    if i < |live| {
      assert Entry(route, f, live[i]);
    }
    forall k | 0 <= k < |f'.ledger.live| ensures Entry(route', f', f'.ledger.live[k]) {
      if i == |live| {
        NotLive(live, e.ref, k);
        assert Entry(route, f, live[k]);
      } else if |f'.ledger.live| == |live| {
        assert Entry(route, f, live[k]);
        assert k != i ==> live[k].ref != live[i].ref;
      } else {
        RestDiffers(live, i, k);
        assert Entry(route, f, RemoveAt(live, i)[k]);
      }
    }
  }

  lemma ReplaceIndexed(route: map<nat, Route>, f: Feed, e: BookEvent, to: nat)
    requires Indexed(route, f) && WellFormed(f.ledger) && Acceptable(f.ledger, e) && e.kind.Replace?
    ensures Indexed(RouteAfter(route, e, to), Book(f, e, to))
  {
    var live, i := f.ledger.live, IndexOf(f.ledger.live, e.ref);
    var f', route' := Book(f, e, to), RouteAfter(route, e, to);
    if i < |live| {
      assert Entry(route, f, live[i]);
    }
    forall k | 0 <= k < |f'.ledger.live| ensures Entry(route', f', f'.ledger.live[k]) {
      if i == |live| {
        NotLive(live, e.ref, k);
        if e.newRef != e.ref {
          NotLive(live, e.newRef, k);
        }
        assert Entry(route, f, live[k]);
      } else if k < |live| - 1 {
        RestDiffers(live, i, k);
        var r := RemoveAt(live, i)[k];
        assert Entry(route, f, r);
        if e.newRef != e.ref {
          RestNotNew(live, e.newRef, r);
        }
      }
    }
  }

  lemma RestNotNew(live: seq<Resting>, ref: nat, r: Resting)
    requires !Has(live, ref) && r in live
    ensures r.ref != ref
  {
    var k :| 0 <= k < |live| && live[k] == r;
    NotLive(live, ref, k);
  }

  lemma RouteIndexed(route: map<nat, Route>, f: Feed, e: BookEvent, to: nat)
    requires Indexed(route, f) && WellFormed(f.ledger) && Acceptable(f.ledger, e)
    ensures Indexed(RouteAfter(route, e, to), Book(f, e, to)) && WellFormed(Book(f, e, to).ledger)
  {
    hide Indexed, WellFormed, RouteAfter;
    AfterWellFormed(f.ledger, e);
    if e.kind.Add? {
      AddIndexed(route, f, e, to);
    } else if e.kind.Replace? {
      ReplaceIndexed(route, f, e, to);
    } else {
      TakeIndexed(route, f, e, to);
    }
  }

  // ---- all tapes ----

  /** A tape that a book can replay, and that replays to its slot's part of the feed. */
  ghost predicate TapeOk(tape: seq<BookEvent>, f: Feed, slot: nat) {
    AcceptableTape(START, tape) && Follows(Replay(START, tape), f, slot)
  }

  ghost predicate TapesFollow(tapes: seq<seq<BookEvent>>, f: Feed) {
    forall s :: 0 <= s < |tapes| ==> TapeOk(tapes[s], f, s + 1)
  }

  function Pushed(tapes: seq<seq<BookEvent>>, a: nat, e: BookEvent): seq<seq<BookEvent>> {
    if 0 < a <= |tapes| then tapes[a - 1 := tapes[a - 1] + [e]] else tapes
  }

  lemma ReplayOneMore(tape: seq<BookEvent>, e: BookEvent)
    ensures Replay(START, tape + [e]) == After(Replay(START, tape), e)
    ensures AcceptableTape(START, tape) && Acceptable(Replay(START, tape), e) ==> AcceptableTape(START, tape + [e])
  {
    hide After, Acceptable;
    assert (tape + [e])[..|tape|] == tape;
    assert forall k :: 0 <= k < |tape| ==> (tape + [e])[..k] == tape[..k];
  }

  /** What the feed may say, a tape that follows it may say. */
  lemma AcceptableToo(t: Ledger, f: Feed, e: BookEvent, slot: nat)
    requires Follows(t, f, slot) && Acceptable(f.ledger, e)
    ensures Acceptable(t, e)
  {
    hide Follows, IndexOf;
    FoundFollows(t, f, e.ref, slot);
    FoundFollows(t, f, e.newRef, slot);
  }

  lemma TapeStep(tape: seq<BookEvent>, f: Feed, e: BookEvent, to: nat, slot: nat)
    requires TapeOk(tape, f, slot) && WellFormed(f.ledger) && Acceptable(f.ledger, e)
    ensures Addressee(f, e, to) == slot ==> TapeOk(tape + [e], Book(f, e, to), slot)
    ensures Addressee(f, e, to) != slot ==> TapeOk(tape, Book(f, e, to), slot)
    ensures !e.kind.Add? && !Has(f.ledger.live, e.ref) ==>
      TapeOk(tape + [e], Book(f, e, to), slot) && TapeOk(tape, Book(f, e, to), slot)
  {
    hide Follows, WellFormed, Acceptable, AcceptableTape, Addressee, Book, After, Has, Replay;
    EventFollows(Replay(START, tape), f, e, to, slot);
    ReplayOneMore(tape, e);
    AcceptableToo(Replay(START, tape), f, e, slot);
  }

  lemma AimIsAddressee(route: map<nat, Route>, f: Feed, e: BookEvent, to: nat)
    requires Indexed(route, f)
    ensures e.kind.Add? || Has(f.ledger.live, e.ref) ==> Aim(route, e, to) == Addressee(f, e, to)
  {
    if !e.kind.Add? && Has(f.ledger.live, e.ref) {
      assert Entry(route, f, f.ledger.live[IndexOf(f.ledger.live, e.ref)]);
    }
  }

  lemma PushFollows(tapes: seq<seq<BookEvent>>, route: map<nat, Route>, f: Feed, e: BookEvent, to: nat)
    requires TapesFollow(tapes, f) && Indexed(route, f) && WellFormed(f.ledger) && Acceptable(f.ledger, e)
    ensures TapesFollow(Pushed(tapes, Aim(route, e, to), e), Book(f, e, to))
  {
    hide TapeOk, Indexed, WellFormed, Acceptable, Addressee, Aim, Book, Has;
    AimIsAddressee(route, f, e, to);
    var tapes' := Pushed(tapes, Aim(route, e, to), e);
    forall s | 0 <= s < |tapes'| ensures TapeOk(tapes'[s], Book(f, e, to), s + 1) {
      TapeStep(tapes[s], f, e, to, s + 1);
    }
  }

  ghost predicate Slotted(route: map<nat, Route>, locates: map<nat, nat>, n: nat) {
    && (forall k :: k in route ==> route[k].slot <= n)
    && (forall k :: k in locates ==> locates[k] < n)
  }

  /** While the index has refused nothing, the tapes and the index are faithful to the whole feed. */
  ghost predicate Faithful(tapes: seq<seq<BookEvent>>, route: map<nat, Route>, f: Feed) {
    TapesFollow(tapes, f) && Indexed(route, f) && WellFormed(f.ledger)
  }

  lemma EventFaithful(tapes: seq<seq<BookEvent>>, route: map<nat, Route>, f: Feed, e: BookEvent, to: nat)
    requires Faithful(tapes, route, f) && Acceptable(f.ledger, e)
    ensures Faithful(Pushed(tapes, Aim(route, e, to), e), RouteAfter(route, e, to), Book(f, e, to))
  {
    hide TapesFollow, Indexed, WellFormed, Pushed, Aim, RouteAfter;
    PushFollows(tapes, route, f, e, to);
    RouteIndexed(route, f, e, to);
  }

  lemma LocatesFree(tapes: seq<seq<BookEvent>>, route: map<nat, Route>, f: Feed, locates: map<nat, nat>)
    requires Faithful(tapes, route, f)
    ensures Faithful(tapes, route, f.(locates := locates))
  {
    assert forall s :: 0 <= s < |tapes| ==> TapeOk(tapes[s], f, s + 1);
    assert forall k :: 0 <= k < |f.ledger.live| ==> Entry(route, f, f.ledger.live[k]);
  }

  lemma NamesOrders(l: Ledger, e: BookEvent)
    requires Acceptable(l, e)
    ensures e.ref != 0 && (e.kind.Replace? ==> e.newRef != 0)
  {
  }

  lemma RouteSlotted(route: map<nat, Route>, locates: map<nat, nat>, n: nat, e: BookEvent, to: nat)
    requires Slotted(route, locates, n) && to <= n
    ensures Slotted(RouteAfter(route, e, to), locates, n) && Slotted(route - {e.ref}, locates, n)
    ensures Aim(route, e, to) <= n
  {
  }

  lemma RouteCases(route: map<nat, Route>, e: BookEvent, to: nat)
    ensures e.kind.Add? ==> RouteAfter(route, e, to) == route[e.ref := Route(e.shares, to)]
    ensures !e.kind.Add? && e.ref !in route ==> RouteAfter(route, e, to) == route
    ensures !e.kind.Add? ==> RouteAfter(route, e, to) == RouteAfter(route, e, 0)
  {
  }

  lemma PushNowhere(tapes: seq<seq<BookEvent>>, e: BookEvent)
    ensures Pushed(tapes, 0, e) == tapes
  {
  }

  /** A tape gains an event that adds or names a live order of its slot, and none that adds or names one of another;
      one that names no live order may go to any tape. */
  ghost predicate Gains(tape: seq<BookEvent>, tape': seq<BookEvent>, f: Feed, e: BookEvent, to: nat, slot: nat) {
    if e.kind.Add? || Has(f.ledger.live, e.ref) then tape' == if Addressee(f, e, to) == slot then tape + [e] else tape
    else tape' == tape || tape' == tape + [e]
  }

  /** The tape consists of the events of the bodies, in order: all that concern the slot's live orders, and none that
      concern those of another. */
  ghost predicate TapeFrom(tape: seq<BookEvent>, bodies: seq<seq<Byte>>, wanted: map<nat, nat>, slot: nat)
    requires forall k :: 0 <= k < |bodies| ==> LongEnough(bodies[k])
    decreases |bodies|
  {
    if bodies == [] then tape == []
    else
      var before, p := bodies[..|bodies| - 1], bodies[|bodies| - 1];
      assert LongEnough(p);
      var f := HeardAll(before, wanted);
      if !MutatesBook(p[0]) then TapeFrom(tape, before, wanted, slot)
      else
        var e, to, shorter := EventOf(p), SlotOf(f, p), if tape == [] then [] else tape[..|tape| - 1];
        || (TapeFrom(tape, before, wanted, slot) && Gains(tape, tape, f, e, to, slot))
        || (TapeFrom(shorter, before, wanted, slot) && Gains(shorter, tape, f, e, to, slot))
  }

  lemma TapeFromMore(tape: seq<BookEvent>, tape': seq<BookEvent>, bodies: seq<seq<Byte>>, p: seq<Byte>,
                     wanted: map<nat, nat>, slot: nat)
    requires (forall k :: 0 <= k < |bodies| ==> LongEnough(bodies[k])) && LongEnough(p) && p != []
    requires TapeFrom(tape, bodies, wanted, slot)
    requires var f := HeardAll(bodies, wanted);
      if MutatesBook(p[0]) then Gains(tape, tape', f, EventOf(p), SlotOf(f, p), slot) else tape' == tape
    ensures TapeFrom(tape', bodies + [p], wanted, slot)
  {
    hide LongEnough, HeardAll, EventOf, Has;
    HasType(p);
    assert (bodies + [p])[..|bodies|] == bodies;
    if MutatesBook(p[0]) && tape' != tape {
      assert tape'[..|tape'| - 1] == tape;
    }
  }

  lemma PushGains(tapes: seq<seq<BookEvent>>, route: map<nat, Route>, f: Feed, e: BookEvent, to: nat, s: nat)
    requires Indexed(route, f) && s < |tapes|
    ensures Gains(tapes[s], Pushed(tapes, Aim(route, e, to), e)[s], f, e, to, s + 1)
  {
    hide Indexed, Has, Aim, Addressee;
    AimIsAddressee(route, f, e, to);
  }

  lemma TapesFromMore(tapes: seq<seq<BookEvent>>, tapes': seq<seq<BookEvent>>, route: map<nat, Route>,
                      bodies: seq<seq<Byte>>, p: seq<Byte>, wanted: map<nat, nat>)
    requires (forall k :: 0 <= k < |bodies| ==> LongEnough(bodies[k])) && LongEnough(p)
    requires forall s :: 0 <= s < |tapes| ==> TapeFrom(tapes[s], bodies, wanted, s + 1)
    requires Indexed(route, HeardAll(bodies, wanted))
    requires tapes' == if !MutatesBook(p[0]) then tapes
      else Pushed(tapes, Aim(route, EventOf(p), SlotOf(HeardAll(bodies, wanted), p)), EventOf(p))
    ensures |tapes'| == |tapes| && forall k :: 0 <= k < |bodies + [p]| ==> LongEnough((bodies + [p])[k])
    ensures forall s :: 0 <= s < |tapes'| ==> TapeFrom(tapes'[s], bodies + [p], wanted, s + 1)
  {
    hide LongEnough, HeardAll, EventOf, Indexed, TapeFrom, Gains, Aim, SlotOf;
    HasType(p);
    forall s | 0 <= s < |tapes'| ensures TapeFrom(tapes'[s], bodies + [p], wanted, s + 1) {
      if MutatesBook(p[0]) {
        PushGains(tapes, route, HeardAll(bodies, wanted), EventOf(p), SlotOf(HeardAll(bodies, wanted), p), s);
      }
      TapeFromMore(tapes[s], tapes'[s], bodies, p, wanted, s + 1);
    }
  }

  lemma HeardOne(bodies: seq<seq<Byte>>, p: seq<Byte>, wanted: map<nat, nat>)
    requires (forall k :: 0 <= k < |bodies| ==> LongEnough(bodies[k])) && LongEnough(p)
    ensures forall k :: 0 <= k < |bodies + [p]| ==> LongEnough((bodies + [p])[k])
    ensures HeardAll(bodies + [p], wanted) == Heard(HeardAll(bodies, wanted), p, wanted)
  {
    hide LongEnough, Heard;
    assert (bodies + [p])[..|bodies|] == bodies;
  }

  lemma HasType(p: seq<Byte>)
    requires LongEnough(p)
    ensures |p| >= 11
  {
  }

  class TapeExtractor {
    const wanted: map<nat, nat>
    const route: O.OpenHashMap<Route>
    var locates: map<nat, nat>
    var tapes: seq<seq<BookEvent>>
    var routed: nat
    var unroutable: nat
    var insertFailed: nat
    /** The feed heard so far, as one book. */
    ghost var feed: Feed
    /** The bodies it was heard from. */
    ghost var heard: seq<seq<Byte>>

    /** Feed and tapes come from the bodies heard. */
    ghost predicate Told()
      reads this
    {
      && (forall k :: 0 <= k < |heard| ==> LongEnough(heard[k]))
      && feed == HeardAll(heard, wanted)
      && (insertFailed == 0 ==> forall s :: 0 <= s < |tapes| ==> TapeFrom(tapes[s], heard, wanted, s + 1))
    }

    ghost predicate Valid()
      reads this, route, route.slots
    {
      && route.Valid()
      && (forall k :: k in wanted ==> wanted[k] < |tapes|)
      && Slotted(route.Contents, locates, |tapes|)
      && feed.locates == locates
      && (insertFailed == 0 ==> Faithful(tapes, route.Contents, feed))
    }

    constructor (wanted: map<nat, nat>, targets: nat, table: nat, hash: nat -> nat)
      requires table > 0 && forall k :: k in wanted ==> wanted[k] < targets
      ensures Valid() && fresh(route) && fresh(route.slots) && this.wanted == wanted
      ensures |tapes| == targets && insertFailed == 0 && heard == [] && Told()
    {
      this.wanted := wanted;
      route := new O.OpenHashMap(table, hash, Route(0, 0));
      locates := map[];
      tapes := seq(targets, _ => []);
      routed, unroutable, insertFailed := 0, 0, 0;
      feed, heard := SILENCE, [];
      new;
      assert forall s :: 0 <= s < targets ==> TapeOk(tapes[s], feed, s + 1);
    }

    lemma Extracted()
      requires Valid() && Told()
      ensures feed == HeardAll(heard, wanted)
      ensures insertFailed == 0 ==>
        TapesFollow(tapes, feed) && forall s :: 0 <= s < |tapes| ==> TapeFrom(tapes[s], heard, wanted, s + 1)
    {
    }

    /** Sends one event to the tape its order belongs to and keeps the index. */
    method Dispatch(e: BookEvent, slot: nat)
      requires route.Valid() && Slotted(route.Contents, locates, |tapes|) && slot <= |tapes|
      requires e.ref != 0 && (e.kind.Replace? ==> e.newRef != 0)
      modifies `tapes, `routed, `unroutable, `insertFailed, route, route.slots
      ensures route.Valid() && Slotted(route.Contents, locates, |tapes|) && |tapes| == |old(tapes)|
      ensures tapes == Pushed(old(tapes), Aim(old(route.Contents), e, slot), e)
      ensures routed == old(routed) + if Aim(old(route.Contents), e, slot) > 0 then 1 else 0
      ensures unroutable == old(unroutable) + if !e.kind.Add? && e.ref !in old(route.Contents) then 1 else 0
      ensures insertFailed == old(insertFailed) ==> route.Contents == RouteAfter(old(route.Contents), e, slot)
      ensures old(insertFailed) <= insertFailed <= old(insertFailed) + 1
    {
      hide O.OpenHashMap.Valid, Slotted, Pushed, RouteAfter;
      ghost var before := route.Contents;
      RouteSlotted(before, locates, |tapes|, e, slot);
      RouteCases(before, e, slot);
      PushNowhere(tapes, e);
      if e.kind.Add? {
        Index(e.ref, Route(e.shares, slot));
        Push(slot, e);
        return;
      }
      var at := route.Find(e.ref);
      if at < 0 {
        unroutable := unroutable + 1;
        return;
      }
      var r := route.slots[at].value;
      Push(r.slot, e);
      Update(at, e, r);
    }

    /** Enters an order in the index, or counts the refusal. */
    method Index(ref: nat, r: Route)
      requires route.Valid() && ref != 0
      modifies `insertFailed, route, route.slots
      ensures route.Valid() && (insertFailed == old(insertFailed) || insertFailed == old(insertFailed) + 1)
      ensures route.Contents == if insertFailed == old(insertFailed) then old(route.Contents)[ref := r]
        else old(route.Contents)
    {
      hide O.OpenHashMap.Valid;
      var ok := route.Insert(ref, r);
      insertFailed := insertFailed + if ok then 0 else 1;
    }

    /** What an event does to the index entry of the order it names. */
    method Update(at: nat, e: BookEvent, r: Route)
      requires route.Valid() && e.ref != 0 && e.ref in route.Contents && !e.kind.Add?
        && (e.kind.Replace? ==> e.newRef != 0)
      requires at < route.slots.Length && route.slots[at] == O.Slot(e.ref, r) && route.Contents[e.ref] == r
      modifies `insertFailed, route, route.slots
      ensures route.Valid() && (insertFailed == old(insertFailed) || insertFailed == old(insertFailed) + 1)
      ensures route.Contents == if insertFailed == old(insertFailed) then RouteAfter(old(route.Contents), e, 0)
        else old(route.Contents) - {e.ref}
    {
      hide O.OpenHashMap.Valid;
      if e.kind.Delete? {
        var _ := route.Erase(e.ref);
      } else if e.kind.Replace? {
        var _ := route.Erase(e.ref);
        Index(e.newRef, Route(e.shares, r.slot));
      } else {
        Spend(at, e, r);
      }
    }

    /** Takes executed or cancelled shares off an indexed order, and retires it when none are left. */
    method Spend(at: nat, e: BookEvent, r: Route)
      requires route.Valid() && e.ref != 0 && e.ref in route.Contents && (e.kind.Execute? || e.kind.Cancel?)
      requires at < route.slots.Length && route.slots[at] == O.Slot(e.ref, r) && route.Contents[e.ref] == r
      modifies route, route.slots
      ensures route.Valid() && route.Contents == RouteAfter(old(route.Contents), e, 0)
    {
      hide O.OpenHashMap.Valid;
      var take := if e.shares < r.shares then e.shares else r.shares;
      route.Assign(at, Route(r.shares - take, r.slot));
      if r.shares - take == 0 {
        var _ := route.Erase(e.ref);
      }
    }

    method Push(slot: nat, e: BookEvent)
      requires slot <= |tapes|
      modifies `tapes, `routed
      ensures tapes == Pushed(old(tapes), slot, e) && |tapes| == |old(tapes)|
      ensures routed == old(routed) + if slot > 0 then 1 else 0
    {
      if slot > 0 {
        tapes := tapes[slot - 1 := tapes[slot - 1] + [e]];
        routed := routed + 1;
      }
    }

    /** A message that changes books. */
    method HearEvent(e: BookEvent, slot: nat)
      requires Valid() && Acceptable(feed.ledger, e) && slot <= |tapes|
      modifies this, route, route.slots
      ensures Valid() && feed == Book(old(feed), e, slot) && heard == old(heard)
      ensures |tapes| == |old(tapes)| && insertFailed >= old(insertFailed)
      ensures tapes == Pushed(old(tapes), Aim(old(route.Contents), e, slot), e)
    {
      hide Faithful, Slotted, O.OpenHashMap.Valid, RouteAfter, Aim, Acceptable, After;
      if insertFailed == 0 {
        EventFaithful(tapes, route.Contents, feed, e, slot);
      }
      NamesOrders(feed.ledger, e);
      feed := Book(feed, e, slot);
      Dispatch(e, slot);
    }

    /** A directory message names the symbol that a locate code stands for. */
    method HearDirectory(locate: nat, stock: nat)
      requires Valid()
      modifies this
      ensures Valid() && tapes == old(tapes) && insertFailed == old(insertFailed) && heard == old(heard)
      ensures feed == if stock in wanted then old(feed).(locates := old(feed).locates[locate := wanted[stock]])
        else old(feed)
    {
      hide Faithful, O.OpenHashMap.Valid;
      if stock in wanted {
        var more := locates[locate := wanted[stock]];
        if insertFailed == 0 {
          LocatesFree(tapes, route.Contents, feed, more);
        }
        locates, feed := more, feed.(locates := more);
      }
    }

    lemma FeedHeard()
      requires Told()
      ensures (forall k :: 0 <= k < |heard| ==> LongEnough(heard[k])) && feed == HeardAll(heard, wanted)
    {
    }

    lemma RouteIndexes()
      requires Valid()
      ensures insertFailed == 0 ==> Indexed(route.Contents, feed)
      ensures feed.locates == locates && forall locate: nat :: SlotAt(locates, locate) <= |tapes|
    {
    }

    /** One message of the feed. */
    method Hear(p: seq<Byte>)
      requires Valid() && Told() && LongEnough(p) && AcceptableNext(feed, p)
      modifies this, route, route.slots
      ensures Valid() && Told() && heard == old(heard) + [p]
      ensures feed == Heard(old(feed), p, wanted)
      ensures |tapes| == |old(tapes)| && insertFailed >= old(insertFailed)
    {
      hide Faithful, EventOf, O.OpenHashMap.Valid, Book, Acceptable, Slotted, Indexed, TapeFrom, HeardAll, LongEnough,
        Aim;
      HasType(p);
      assert p[0] == STOCK_DIRECTORY ==> |p| >= 19 by { ViewsFit(p); }
      RouteIndexes();
      ghost var f, index, was, before := feed, route.Contents, tapes, heard;
      if p[0] == STOCK_DIRECTORY {
        HearDirectory(Locate(p), Stock(p, 11));
      } else if MutatesBook(p[0]) {
        HearEvent(EventOf(p), SlotAt(locates, Locate(p)));
      }
      if insertFailed == 0 {
        TapesFromMore(was, tapes, index, before, p, wanted);
      }
      HeardOne(before, p, wanted);
      heard := before + [p];
    }
  }

  lemma {:induction false} BareSum(live: seq<Resting>, w: Resting -> nat)
    requires forall r: Resting :: w(Unstamped(r)) == w(r)
    ensures Sum(Bare(live), w) == Sum(live, w)
  {
    if live != [] {
      BareSum(live[1..], w);
      SumConcat([live[0]], live[1..], w);
      SumConcat([Unstamped(live[0])], Bare(live[1..]), w);
      SumAppend([], live[0], w);
      SumAppend([], Unstamped(live[0]), w);
      assert [] + [live[0]] == [live[0]] && [] + [Unstamped(live[0])] == [Unstamped(live[0])];
      assert [live[0]] + live[1..] == live;
    }
  }

  lemma BareTop(live: seq<Resting>, side: Side, out: seq<LevelView>)
    ensures TopLevels(Bare(live), side, out) <==> TopLevels(live, side, out)
  {
    forall px: nat ensures Orders(Bare(live), side, px) == Orders(live, side, px) {
      BareSum(live, OneAt(side, px));
    }
    forall px: nat ensures Shares(Bare(live), side, px) == Shares(live, side, px) {
      BareSum(live, QtyAt(side, px));
    }
    hide Orders, Shares, Bare, Better;
  }

  /** A book that replays a tape shows, at every depth of its snapshot, the wanted symbol's orders of the feed. */
  lemma TapeShowsSymbol(tape: seq<BookEvent>, f: Feed, slot: nat, side: Side, out: seq<LevelView>)
    requires TapeOk(tape, f, slot)
    ensures TopLevels(Replay(START, tape).live, side, out) <==>
      TopLevels(Project(f.ledger.live, f.owner, slot), side, out)
  {
    hide TopLevels;
    BareTop(Replay(START, tape).live, side, out);
  }

  // ---- from the file to the tapes ----

  /** The bodies a pass hands out. */
  function HandedOut(bs: seq<seq<Byte>>): (hs: seq<seq<Byte>>)
    ensures forall k :: 0 <= k < |hs| ==> LongEnough(hs[k])
  {
    if bs == [] then []
    else HandedOut(bs[..|bs| - 1]) + if LongEnough(bs[|bs| - 1]) then [bs[|bs| - 1]] else []
  }

  lemma {:induction false} HandedSkips(bs: seq<seq<Byte>>, n: nat)
    requires n <= |bs| && forall k :: n <= k < |bs| ==> !LongEnough(bs[k])
    ensures HandedOut(bs) == HandedOut(bs[..n])
  {
    hide LongEnough;
    if n == |bs| {
      assert bs[..n] == bs;
    } else {
      HandedSkips(bs[..|bs| - 1], n);
      assert bs[..|bs| - 1][..n] == bs[..n];
    }
  }

  lemma {:induction false} HandedPrefix(bs: seq<seq<Byte>>, n: nat)
    requires n <= |bs|
    ensures HandedOut(bs[..n]) <= HandedOut(bs)
  {
    hide LongEnough;
    if n < |bs| {
      HandedPrefix(bs[..|bs| - 1], n);
      assert bs[..|bs| - 1][..n] == bs[..n];
    } else {
      assert bs[..n] == bs;
    }
  }

  /** Handing out goes body by body. */
  lemma {:induction false} HandedConcat(a: seq<seq<Byte>>, b: seq<seq<Byte>>)
    ensures HandedOut(a + b) == HandedOut(a) + HandedOut(b)
  {
    hide LongEnough;
    if b == [] {
      assert a + b == a;
    } else {
      HandedConcat(a, b[..|b| - 1]);
      assert (a + b)[..|a + b| - 1] == a + b[..|b| - 1];
    }
  }

  /** It leaves out a body too short for the header or for its type, and no other. */
  lemma HandedSingle(p: seq<Byte>)
    ensures HandedOut([p]) == if |p| >= 11 && |p| >= RtlSpecLength(p[0]) then [p] else []
  {
    hide SpecLength;
    if p != [] {
      SpecTablesAgree(p[0]);
    }
    assert HandedOut([p][..0]) == [];
  }

  lemma HandedOne(now: seq<seq<Byte>>, before: seq<seq<Byte>>, p: seq<Byte>)
    requires now != [] && now[|now| - 1] == p && LongEnough(p)
    requires HandedOut(now[..|now| - 1]) == HandedOut(before)
    ensures HandedOut(now) == HandedOut(before) + [p]
  {
    hide LongEnough;
  }

  lemma HeardNext(bodies: seq<seq<Byte>>, wanted: map<nat, nat>, some: seq<seq<Byte>>, p: seq<Byte>)
    requires forall k :: 0 <= k < |bodies| ==> LongEnough(bodies[k])
    requires LongEnough(p) && some + [p] <= bodies && forall k :: 0 <= k < |some| ==> LongEnough(some[k])
    requires AcceptableFeed(bodies, wanted)
    ensures AcceptableNext(HeardAll(some, wanted), p)
    ensures HeardAll(some + [p], wanted) == Heard(HeardAll(some, wanted), p, wanted)
  {
    hide LongEnough, AcceptableNext, Heard;
    assert bodies[..|some|] == some && bodies[|some|] == p;
    assert (some + [p])[..|some|] == some;
  }

  lemma NothingHeard(wanted: map<nat, nat>)
    ensures HandedOut([]) == [] && HeardAll([], wanted) == SILENCE
  {
  }

  /** The extraction over a whole file. If the index refused no order, every tape can be replayed by a book, and
      replays to exactly the wanted symbol's orders of the whole feed, in order of arrival. */
  method Extract(data: seq<Byte>, wanted: map<nat, nat>, targets: nat, table: nat, hash: nat -> nat)
    returns (tapes: seq<seq<BookEvent>>, insertFailed: nat)
    requires table > 0 && forall k :: k in wanted ==> wanted[k] < targets
    requires AcceptableFeed(HandedOut(R.Split(data)), wanted)
    ensures |tapes| == targets
    ensures FeedTold(HandedOut(R.Split(data)), wanted)
    ensures insertFailed == 0 ==>
      var bodies := HandedOut(R.Split(data));
      && TapesFollow(tapes, HeardAll(bodies, wanted))
      && forall s :: 0 <= s < targets ==> TapeFrom(tapes[s], bodies, wanted, s + 1)
  {
    hide R.Split, LongEnough, AcceptableFeed, AcceptableNext, Heard, HandedOut, HeardAll, R.Reader.Valid,
      TapeExtractor.Valid, TapeExtractor.Told, TapeFrom, TapesFollow, R.Stuck,
      FeedTold;
    ghost var bodies := HandedOut(R.Split(data));
    var reader := new R.Reader(data);
    var x := new TapeExtractor(wanted, targets, table, hash);
    NothingHeard(wanted);
    while true
      invariant reader.Valid() && reader.data == data && fresh(reader)
      invariant x.Valid() && x.wanted == wanted && |x.tapes| == targets && fresh(x) && fresh(x.route)
      invariant fresh(x.route.slots)
      invariant x.Told() && x.heard == HandedOut(reader.seen)
      decreases |data| - reader.cur
    {
      ghost var before := reader.seen;
      assert reader.cur <= |data| by { reader.CursorInside(); }
      var ok, p := reader.Next();
      assert reader.cur <= |data| by { reader.CursorInside(); }
      ghost var now := reader.seen;
      ghost var skipped := |now| - if ok then 1 else 0;
      assert now[..skipped][..|before|] == before;
      HandedSkips(now[..skipped], |before|);
      if !ok {
        assert now[..|now|] == now;
        break;
      }
      reader.SeenIsPrefix();
      HandedPrefix(R.Split(data), |now|);
      assert R.Split(data)[..|now|] == now;
      HandedOne(now, before, p);
      HeardNext(bodies, wanted, HandedOut(before), p);
      x.FeedHeard();
      x.Hear(p);
    }
    tapes, insertFailed := x.tapes, x.insertFailed;
    x.Extracted();
    FeedMeans(bodies, wanted);
  }
}
