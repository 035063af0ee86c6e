/** The order-id table. */
module OpenHash {

  // Open addressing, linear probing, deletion by backward shift.

  import opened Wrapping

  const EMPTY: nat := 0

  datatype Slot<V> = Slot(key: nat, value: V)

  /** Steps of `Next` needed to walk from `a` to `b`. */
  function Dist(a: nat, b: nat, n: nat): nat
    requires a < n && b < n
  {
    if a <= b then b - a else b + n - a
  }

  /** The slot a key hashes to. */
  function Home(hash: nat -> nat, key: nat, n: nat): (r: nat)
    requires n > 0
    ensures r < n
  {
    hash(key) % n
  }

  /** Slots of `s` that hold an entry. */
  ghost function Occupied<V>(s: seq<Slot<V>>): nat {
    if s == [] then 0 else Occupied(s[1..]) + (if s[0].key == EMPTY then 0 else 1)
  }

  lemma {:induction false} OccupiedUpdate<V>(s: seq<Slot<V>>, i: nat, x: Slot<V>)
    requires i < |s|
    ensures Occupied(s[i := x]) + (if s[i].key == EMPTY then 0 else 1)
         == Occupied(s) + (if x.key == EMPTY then 0 else 1)
  {
    if i == 0 {
      assert s[i := x][1..] == s[1..];
    } else {
      OccupiedUpdate(s[1..], i - 1, x);
      assert s[i := x][1..] == s[1..][i - 1 := x];
    }
  }

  lemma {:induction false} OccupiedOfEmpty<V>(s: seq<Slot<V>>)
    requires forall i :: 0 <= i < |s| ==> s[i].key == EMPTY
    ensures Occupied(s) == 0
  {
    if s != [] {
      OccupiedOfEmpty(s[1..]);
    }
  }

  lemma {:induction false} EmptySlotExists<V>(s: seq<Slot<V>>) returns (e: nat)
    requires Occupied(s) < |s|
    ensures e < |s| && s[e].key == EMPTY
  {
    if s[0].key == EMPTY {
      e := 0;
    } else {
      e := EmptySlotExists(s[1..]);
      e := e + 1;
    }
  }

  ghost predicate NoDuplicates<V>(s: seq<Slot<V>>) {
    forall i, j :: 0 <= i < |s| && 0 <= j < |s| && s[i].key != EMPTY && s[i].key == s[j].key ==> i == j
  }

  /** No empty slot lies between the home of a stored key and the slot holding it. */
  ghost predicate Reachable<V>(s: seq<Slot<V>>, hash: nat -> nat) {
    forall k, p {:trigger Dist(Home(hash, s[k].key, |s|), p, |s|)} ::
      0 <= k < |s| && 0 <= p < |s| && s[k].key != EMPTY
      && Dist(Home(hash, s[k].key, |s|), p, |s|) < Dist(Home(hash, s[k].key, |s|), k, |s|)
      ==> s[p].key != EMPTY
  }

  ghost predicate Stored<V>(s: seq<Slot<V>>, key: nat) {
    key != EMPTY && exists i :: 0 <= i < |s| && s[i].key == key
  }

  /** The table holds exactly the finite map `m`. */
  ghost predicate Holds<V>(s: seq<Slot<V>>, m: map<nat, V>) {
    && (forall i :: 0 <= i < |s| && s[i].key != EMPTY ==> s[i].key in m && m[s[i].key] == s[i].value)
    && (forall key :: key in m ==> Stored(s, key))
  }

  ghost predicate TableOk<V>(s: seq<Slot<V>>, hash: nat -> nat, m: map<nat, V>) {
    NoDuplicates(s) && Reachable(s, hash) && Holds(s, m)
  }

  /** What holds while a deletion closes its gap, `t` being the table with slot `gap` cleared: only
      entries beyond the last slot looked at, `j`, may have the gap on their probe path. */
  ghost predicate ReachableBut<V>(t: seq<Slot<V>>, hash: nat -> nat, gap: nat, j: nat)
    requires gap < |t| && j < |t|
  {
    forall k, p {:trigger Dist(Home(hash, t[k].key, |t|), p, |t|)} ::
      0 <= k < |t| && 0 <= p < |t| && t[k].key != EMPTY
      && Dist(Home(hash, t[k].key, |t|), p, |t|) < Dist(Home(hash, t[k].key, |t|), k, |t|)
      ==> t[p].key != EMPTY || (p == gap && Dist(gap, j, |t|) < Dist(gap, k, |t|))
  }

  /** Every slot strictly after `gap` up to and including `j` is in use. */
  ghost predicate Run<V>(t: seq<Slot<V>>, gap: nat, j: nat)
    requires gap < |t| && j < |t|
  {
    forall p :: 0 <= p < |t| && 0 < Dist(gap, p, |t|) <= Dist(gap, j, |t|) ==> t[p].key != EMPTY
  }

  /** The entry at `j` copied into the gap, and its old slot cleared. */
  function Shift<V>(t: seq<Slot<V>>, gap: nat, j: nat): (u: seq<Slot<V>>)
    requires gap < |t| && j < |t|
    ensures |u| == |t|
  {
    t[gap := t[j]][j := Slot(EMPTY, t[j].value)]
  }

  /** With the gap left open, a search from the home `k` still meets an entry at `j`: it may stay where it is. */
  predicate StaysPut(gap: nat, k: nat, j: nat) {
    if gap <= j then gap < k && k <= j else gap < k || k <= j
  }

  lemma StaysPutMeaning(gap: nat, k: nat, j: nat, n: nat)
    requires gap < n && k < n && j < n && gap != j
    ensures StaysPut(gap, k, j) <==> 0 < Dist(gap, k, n) <= Dist(gap, j, n)
  {
  }

  /** A search for `key` has come from its home to slot `i`, passing only entries of other keys. */
  ghost predicate Passed<V>(s: seq<Slot<V>>, hash: nat -> nat, key: nat, i: nat)
    requires i < |s|
  {
    var h := Home(hash, key, |s|);
    forall p :: 0 <= p < |s| && Dist(h, p, |s|) < Dist(h, i, |s|) ==> s[p].key != key && s[p].key != EMPTY
  }

  lemma SearchStart<V>(s: seq<Slot<V>>, hash: nat -> nat, key: nat)
    requires |s| > 0
    ensures Passed(s, hash, key, Home(hash, key, |s|))
  {
  }

  lemma SearchStep<V>(s: seq<Slot<V>>, hash: nat -> nat, key: nat, i: nat, e: nat)
    requires i < |s| && e < |s| && Passed(s, hash, key, i)
    requires s[i].key != key && s[i].key != EMPTY && s[e].key == EMPTY
    ensures Passed(s, hash, key, Next(i, |s|)) && Dist(Next(i, |s|), e, |s|) < Dist(i, e, |s|)
  {
  }

  lemma SearchFound<V>(s: seq<Slot<V>>, m: map<nat, V>, i: nat)
    requires i < |s| && s[i].key != EMPTY && Holds(s, m)
    ensures s[i].key in m && s[i].value == m[s[i].key]
  {
  }

  /** A search that meets an empty slot has proved the key absent. */
  lemma SearchExhausted<V>(s: seq<Slot<V>>, hash: nat -> nat, m: map<nat, V>, key: nat, i: nat)
    requires i < |s| && key != EMPTY && s[i].key == EMPTY && Passed(s, hash, key, i)
    requires Reachable(s, hash) && Holds(s, m)
    ensures key !in m
  {
    assert forall p :: 0 <= p < |s| ==> s[p].key != key;
    assert key in m ==> Stored(s, key);
  }

  /** Entering a new key into the first empty slot of its probe path. */
  lemma InsertKeeps<V>(s: seq<Slot<V>>, hash: nat -> nat, m: map<nat, V>, i: nat, key: nat, v: V)
    requires TableOk(s, hash, m) && i < |s| && s[i].key == EMPTY && key != EMPTY && key !in m
    requires Passed(s, hash, key, i)
    ensures TableOk(s[i := Slot(key, v)], hash, m[key := v])
  {
    var t := s[i := Slot(key, v)];
    forall k | k in m[key := v] ensures Stored(t, k) {
      if k == key {
        assert t[i].key == key;
      } else {
        assert Stored(s, k);
        var x :| 0 <= x < |s| && s[x].key == k;
        assert t[x].key == k;
      }
    }
  }

  /** What is reachable and unique depends on the keys alone. */
  lemma SameKeysReach<V>(s: seq<Slot<V>>, t: seq<Slot<V>>, hash: nat -> nat)
    requires Reachable(s, hash)
    requires |t| == |s| && forall i :: 0 <= i < |s| ==> t[i].key == s[i].key
    ensures Reachable(t, hash)
  {
  }

  lemma SameKeysUnique<V>(s: seq<Slot<V>>, t: seq<Slot<V>>)
    requires NoDuplicates(s)
    requires |t| == |s| && forall i :: 0 <= i < |s| ==> t[i].key == s[i].key
    ensures NoDuplicates(t)
  {
  }

  lemma AssignHolds<V>(s: seq<Slot<V>>, m: map<nat, V>, i: nat, v: V)
    requires NoDuplicates(s) && Holds(s, m) && i < |s| && s[i].key != EMPTY
    ensures Holds(s[i := Slot(s[i].key, v)], m[s[i].key := v])
  {
    var t := s[i := Slot(s[i].key, v)];
    forall k | k in m ensures Stored(t, k) {
      assert Stored(s, k);
      var x :| 0 <= x < |s| && s[x].key == k;
      assert t[x].key == k;
    }
  }

  /** Overwriting the value of a stored key. */
  lemma AssignKeeps<V>(s: seq<Slot<V>>, hash: nat -> nat, m: map<nat, V>, i: nat, v: V)
    requires TableOk(s, hash, m) && i < |s| && s[i].key != EMPTY
    ensures TableOk(s[i := Slot(s[i].key, v)], hash, m[s[i].key := v])
    ensures Occupied(s[i := Slot(s[i].key, v)]) == Occupied(s)
  {
    hide NoDuplicates, Reachable, Holds;
    var t := s[i := Slot(s[i].key, v)];
    OccupiedUpdate(s, i, t[i]);
    SameKeysReach(s, t, hash);
    SameKeysUnique(s, t);
    AssignHolds(s, m, i, v);
  }

  /** Clearing a slot removes exactly its key. */
  lemma ClearHolds<V>(s: seq<Slot<V>>, m: map<nat, V>, i: nat)
    requires NoDuplicates(s) && Holds(s, m) && i < |s| && s[i].key != EMPTY
    ensures NoDuplicates(s[i := Slot(EMPTY, s[i].value)])
    ensures Holds(s[i := Slot(EMPTY, s[i].value)], m - {s[i].key})
  {
    var t := s[i := Slot(EMPTY, s[i].value)];
    forall k | k in m - {s[i].key} ensures Stored(t, k) {
      assert Stored(s, k);
      var x :| 0 <= x < |s| && s[x].key == k;
      assert t[x].key == k;
    }
  }

  lemma GapOpens<V>(s: seq<Slot<V>>, hash: nat -> nat, i: nat)
    requires Reachable(s, hash) && i < |s|
    ensures ReachableBut(s[i := Slot(EMPTY, s[i].value)], hash, i, i)
    ensures Run(s[i := Slot(EMPTY, s[i].value)], i, i)
  {
  }

  /** Moving the entry at `j` back into the gap keeps what the table holds. */
  lemma MoveHolds<V>(t: seq<Slot<V>>, m: map<nat, V>, gap: nat, j: nat)
    requires gap < |t| && j < |t| && gap != j && t[gap].key == EMPTY && Holds(t, m)
    ensures Holds(Shift(t, gap, j), m)
  {
    var u := Shift(t, gap, j);
    forall k | k in m ensures Stored(u, k) {
      assert Stored(t, k);
      var x :| 0 <= x < |t| && t[x].key == k;
      assert u[if x == j then gap else x].key == k;
    }
  }

  lemma MoveUnique<V>(t: seq<Slot<V>>, gap: nat, j: nat)
    requires gap < |t| && j < |t| && gap != j && t[gap].key == EMPTY && NoDuplicates(t)
    ensures NoDuplicates(Shift(t, gap, j))
  {
  }

  /** Moving the entry at `j` back into the gap makes `j` the new gap. */
  lemma MoveReaches<V>(t: seq<Slot<V>>, hash: nat -> nat, gap: nat, last: nat, j: nat)
    requires gap < |t| && last < |t| && j == Next(last, |t|) && gap != j
    requires t[gap].key == EMPTY && t[j].key != EMPTY
    requires ReachableBut(t, hash, gap, last) && Run(t, gap, last)
    requires !StaysPut(gap, Home(hash, t[j].key, |t|), j)
    ensures ReachableBut(Shift(t, gap, j), hash, j, j) && Run(Shift(t, gap, j), j, j)
  {
    var n := |t|;
    var u := Shift(t, gap, j);
    forall k, p | 0 <= k < n && 0 <= p < n && u[k].key != EMPTY && p != j && p != gap
      && Dist(Home(hash, u[k].key, n), p, n) < Dist(Home(hash, u[k].key, n), k, n)
      ensures t[p].key != EMPTY
    {
      if k == gap {
        var h := Home(hash, t[j].key, n);
        assert Dist(h, p, n) < Dist(h, j, n);
      }
    }
  }

  /** Leaving the entry at `j` in place lets the scan go on. */
  lemma StayReaches<V>(t: seq<Slot<V>>, hash: nat -> nat, gap: nat, last: nat, j: nat)
    requires gap < |t| && last < |t| && j == Next(last, |t|) && gap != j
    requires t[j].key != EMPTY
    requires ReachableBut(t, hash, gap, last) && Run(t, gap, last)
    requires StaysPut(gap, Home(hash, t[j].key, |t|), j)
    ensures ReachableBut(t, hash, gap, j) && Run(t, gap, j)
  {
  }

  /** When the scan meets an empty slot the gap may be left empty. */
  lemma GapCloses<V>(t: seq<Slot<V>>, hash: nat -> nat, gap: nat, last: nat, e: nat)
    requires gap < |t| && last < |t| && e < |t| && Dist(gap, last, |t|) < Dist(gap, e, |t|)
    requires t[gap].key == EMPTY && t[Next(last, |t|)].key == EMPTY
    requires ReachableBut(t, hash, gap, last)
    ensures Reachable(t, hash)
  {
    var n, j := |t|, Next(last, |t|);
    forall k, p | 0 <= k < n && 0 <= p < n && t[k].key != EMPTY
      && Dist(Home(hash, t[k].key, n), p, n) < Dist(Home(hash, t[k].key, n), k, n)
      ensures t[p].key != EMPTY
    {
      var toward := Dist(Home(hash, t[k].key, n), j, n);
    }
  }

  /** The state of a deletion between two turns of its loop: `t` is the table with the gap at `i`
      cleared, `j` the last slot looked at, `e` some slot that was empty all along. */
  ghost predicate Closing<V>(t: seq<Slot<V>>, hash: nat -> nat, m: map<nat, V>, size: nat, i: nat, j: nat, e: nat) {
    && i < |t| && j < |t| && e < |t| && t[e].key == EMPTY && t[i].key == EMPTY
    && NoDuplicates(t) && Holds(t, m) && Occupied(t) == size
    && ReachableBut(t, hash, i, j) && Run(t, i, j)
    && Dist(i, j, |t|) < Dist(i, e, |t|)
  }

  lemma ClosingStarts<V>(s: seq<Slot<V>>, hash: nat -> nat, m: map<nat, V>, i: nat, e: nat)
    requires TableOk(s, hash, m) && i < |s| && e < |s| && s[i].key != EMPTY && s[e].key == EMPTY && Occupied(s) > 0
    ensures Closing(s[i := Slot(EMPTY, s[i].value)], hash, m - {s[i].key}, Occupied(s) - 1, i, i, e)
  {
    hide NoDuplicates, Reachable, Holds, ReachableBut, Run;
    OccupiedUpdate(s, i, Slot(EMPTY, s[i].value));
    ClearHolds(s, m, i);
    GapOpens(s, hash, i);
  }

  /** The scan cannot come round to its own gap. */
  lemma ClosingElsewhere<V>(t: seq<Slot<V>>, hash: nat -> nat, m: map<nat, V>, size: nat, i: nat, last: nat, e: nat)
    requires Closing(t, hash, m, size, i, last, e)
    ensures Next(last, |t|) != i && t[i].key == EMPTY == t[e].key && last != e
  {
    hide NoDuplicates, Reachable, Holds, ReachableBut, Run;
  }

  lemma ClosingStays<V>(t: seq<Slot<V>>, hash: nat -> nat, m: map<nat, V>, size: nat, i: nat, last: nat, e: nat)
    requires Closing(t, hash, m, size, i, last, e)
    requires var j := Next(last, |t|); t[j].key != EMPTY && StaysPut(i, Home(hash, t[j].key, |t|), j)
    ensures Closing(t, hash, m, size, i, Next(last, |t|), e)
    ensures Dist(Next(last, |t|), e, |t|) < Dist(last, e, |t|)
  {
    hide NoDuplicates, Reachable, Holds, ReachableBut, Run;
    StayReaches(t, hash, i, last, Next(last, |t|));
  }

  lemma ClosingMoves<V>(t: seq<Slot<V>>, hash: nat -> nat, m: map<nat, V>, size: nat, i: nat, last: nat, e: nat)
    requires Closing(t, hash, m, size, i, last, e)
    requires var j := Next(last, |t|); t[j].key != EMPTY && !StaysPut(i, Home(hash, t[j].key, |t|), j)
    ensures var j := Next(last, |t|); Closing(Shift(t, i, j), hash, m, size, j, j, e)
    ensures Dist(Next(last, |t|), e, |t|) < Dist(last, e, |t|)
  {
    hide NoDuplicates, Reachable, Holds, ReachableBut, Run;
    var j := Next(last, |t|);
    OccupiedUpdate(t, i, t[j]);
    OccupiedUpdate(t[i := t[j]], j, Slot(EMPTY, t[j].value));
    MoveHolds(t, m, i, j);
    MoveUnique(t, i, j);
    MoveReaches(t, hash, i, last, j);
  }

  lemma ClosingEnds<V>(t: seq<Slot<V>>, hash: nat -> nat, m: map<nat, V>, size: nat, i: nat, last: nat, e: nat)
    requires Closing(t, hash, m, size, i, last, e) && t[Next(last, |t|)].key == EMPTY
    ensures TableOk(t, hash, m) && Occupied(t) == size
  {
    hide NoDuplicates, Reachable, Holds, ReachableBut, Run;
    GapCloses(t, hash, i, last, e);
  }

  /** `OpenHashMap`: `hash` stands for the mixing function, of which nothing is assumed. */
  class OpenHashMap<V> {
    const slots: array<Slot<V>>
    const hash: nat -> nat
    var size: nat
    ghost var Contents: map<nat, V>

    /** Most entries the table accepts: seven tenths of its slots. */
    function Limit(): nat {
      slots.Length * 7 / 10
    }

    ghost predicate Valid()
      reads this, slots
    {
      && slots.Length > 0
      && TableOk(slots[..], hash, Contents)
      && size == Occupied(slots[..]) == |Contents| <= Limit()
    }

    constructor (capacity: nat, hash: nat -> nat, blank: V)
      requires capacity > 0
      ensures Valid() && Contents == map[] && slots.Length == capacity && fresh(slots)
    {
      slots := new Slot<V>[capacity](_ => Slot(EMPTY, blank));
      this.hash := hash;
      size, Contents := 0, map[];
      new;
      OccupiedOfEmpty(slots[..]);
    }

    /** The slot holding `key`, or -1: the pointer that `find` returns. */
    method Find(key: nat) returns (at: int)
      requires Valid() && key != EMPTY
      ensures at >= 0 <==> key in Contents
      ensures at >= 0 ==> at < slots.Length && slots[at] == Slot(key, Contents[key])
    {
      hide NoDuplicates, Reachable, Holds, Passed;
      ghost var s := slots[..];
      ghost var e := EmptySlotExists(s);
      var i: nat := Home(hash, key, slots.Length);
      SearchStart(s, hash, key);
      while true
        invariant i < slots.Length
        invariant Passed(s, hash, key, i)
        decreases Dist(i, e, slots.Length)
      {
        assert s[i] == slots[i];
        if slots[i].key == key {
          SearchFound(s, Contents, i);
          return i;
        }
        if slots[i].key == EMPTY {
          SearchExhausted(s, hash, Contents, key, i);
          return -1;
        }
        SearchStep(s, hash, key, i, e);
        i := Next(i, slots.Length);
      }
    }

    /** Writing through the pointer that `find` returned. */
    method Assign(at: nat, v: V)
      requires Valid() && at < slots.Length && slots[at].key != EMPTY
      modifies this, slots
      ensures Valid() && Contents == old(Contents)[old(slots[at].key) := v]
    {
      var key := slots[at].key;
      slots[at] := Slot(key, v);
      Contents := Contents[key := v];
      AssignKeeps(old(slots[..]), hash, old(Contents), at, v);
      assert slots[..] == old(slots[..])[at := Slot(key, v)];
    }

    /** Refuses only a key that is not there, and only at the load limit. */
    method Insert(key: nat, v: V) returns (ok: bool)
      requires Valid() && key != EMPTY
      modifies this, slots
      ensures Valid()
      ensures ok <==> key in old(Contents) || |old(Contents)| + 1 <= Limit()
      ensures Contents == if ok then old(Contents)[key := v] else old(Contents)
    {
      hide NoDuplicates, Reachable, Holds, Passed;
      ghost var s := slots[..];
      ghost var e := EmptySlotExists(s);
      var i: nat := Home(hash, key, slots.Length);
      SearchStart(s, hash, key);
      while true
        invariant i < slots.Length && slots[..] == s && size == old(size) && Contents == old(Contents)
        invariant Passed(s, hash, key, i)
        decreases Dist(i, e, slots.Length)
      {
        if slots[i].key == key {
          SearchFound(s, Contents, i);
          Assign(i, v);
          return true;
        }
        if slots[i].key == EMPTY {
          SearchExhausted(s, hash, Contents, key, i);
          if size + 1 > slots.Length * 7 / 10 {
            return false;
          }
          InsertKeeps(s, hash, Contents, i, key, v);
          OccupiedUpdate(s, i, Slot(key, v));
          slots[i] := Slot(key, v);
          size := size + 1;
          Contents := Contents[key := v];
          assert slots[..] == s[i := Slot(key, v)];
          return true;
        }
        SearchStep(s, hash, key, i, e);
        i := Next(i, slots.Length);
      }
    }

    /** The shift loop of `erase`, run on a table whose slot `at` is to be vacated: closes the gap and
        leaves a well-formed table of the finite map `m`. */
    method CloseGap(at: nat, ghost t0: seq<Slot<V>>, ghost m: map<nat, V>, ghost left: nat, ghost e: nat)
      requires at < slots.Length && e < slots.Length && t0 == slots[..][at := Slot(EMPTY, slots[at].value)]
      requires Closing(t0, hash, m, left, at, at, e)
      modifies slots
      ensures TableOk(slots[..], hash, m) && Occupied(slots[..]) == left
    {
      hide TableOk, Closing;
      ghost var t := t0;
      ClosingElsewhere(t0, hash, m, left, at, at, e);
      var i: nat, j: nat := at, at;
      while true
        invariant i < slots.Length && j < slots.Length && |t| == slots.Length && e < slots.Length && j != e
        invariant t[i] == Slot(EMPTY, slots[i].value)
        invariant forall p :: 0 <= p < slots.Length && p != i ==> slots[p] == t[p]
        invariant Closing(t, hash, m, left, i, j, e)
        decreases Dist(j, e, slots.Length)
      {
        ghost var last := j;
        j := Next(j, slots.Length);
        ClosingElsewhere(t, hash, m, left, i, last, e);
        if slots[j].key == EMPTY {
          ClosingEnds(t, hash, m, left, i, last, e);
          break;
        }
        var k := Home(hash, slots[j].key, slots.Length);
        if StaysPut(i, k, j) {
          ClosingStays(t, hash, m, left, i, last, e);
          continue;
        }
        ClosingMoves(t, hash, m, left, i, last, e);
        t := Shift(t, i, j);
        slots[i] := slots[j];
        i := j;
      }
      slots[i] := Slot(EMPTY, slots[i].value);
      assert slots[..] == t;
    }

    /** Deletion leaves exactly the old map without `key`. */
    method Erase(key: nat) returns (found: bool)
      requires Valid() && key != EMPTY
      modifies this, slots
      ensures Valid()
      ensures found <==> key in old(Contents)
      ensures Contents == old(Contents) - {key}
    {
      hide TableOk, Closing;
      var at := Find(key);
      if at < 0 {
        return false;
      }
      ghost var s := slots[..];
      ghost var e := EmptySlotExists(s);
      OccupiedUpdate(s, at, Slot(EMPTY, s[at].value));
      ClosingStarts(s, hash, Contents, at, e);
      CloseGap(at, s[at := Slot(EMPTY, s[at].value)], Contents - {key}, size - 1, e);
      size := size - 1;
      Contents := Contents - {key};
      return true;
    }
  }
}
