/** The pooled intrusive lists shared by the two designs that keep order identity: every price level owns
    a doubly linked FIFO threaded through one pool of orders by index. */
module Pools {
  import opened Ledgers
  import opened Ranking
  import opened Refusals

  const NONE: int := -1

  datatype Order = Order(id: nat, stamp: nat, qty: nat, prev: int, next: int, level: int, side: Side)

  datatype Level = Level(price: nat, qty: nat, orders: nat, head: int, tail: int)

  const BLANK_ORDER := Order(0, 0, 0, NONE, NONE, NONE, Buy)
  const BLANK_LEVEL := Level(0, 0, 0, NONE, NONE)

  /** A price level of one side. */
  datatype Key = Key(side: Side, px: nat)

  function KeyOf(r: Resting): Key {
    Key(r.side, r.px)
  }

  ghost predicate Unique<T>(s: seq<T>) {
    forall i, j :: 0 <= i < j < |s| ==> s[i] != s[j]
  }

  // ---- chains ----

  /** Pool indices of one level's orders, oldest first: `fifo[i]` is where the pool keeps `live[i]`. */
  ghost function Chain(fifo: seq<nat>, live: seq<Resting>, key: Key): seq<nat>
    requires |fifo| == |live|
  {
    if live == [] then []
    else
      var n := |live| - 1;
      Chain(fifo[..n], live[..n], key) + (if KeyOf(live[n]) == key then [fifo[n]] else [])
  }

  lemma ChainAppend(fifo: seq<nat>, live: seq<Resting>, key: Key, oi: nat, x: Resting)
    requires |fifo| == |live|
    ensures Chain(fifo + [oi], live + [x], key) == Chain(fifo, live, key) + (if KeyOf(x) == key then [oi] else [])
  {
    assert (fifo + [oi])[..|live|] == fifo && (live + [x])[..|live|] == live;
  }

  /** Position in its chain of the `i`-th live order. */
  ghost function Rank(fifo: seq<nat>, live: seq<Resting>, i: nat): nat
    requires |fifo| == |live| && i < |live|
  {
    |Chain(fifo[..i], live[..i], KeyOf(live[i]))|
  }

  lemma {:induction false} ChainRank(fifo: seq<nat>, live: seq<Resting>, i: nat)
    requires |fifo| == |live| && i < |live|
    ensures var c := Chain(fifo, live, KeyOf(live[i])); Rank(fifo, live, i) < |c| && c[Rank(fifo, live, i)] == fifo[i]
  {
    var n := |live| - 1;
    if i < n {
      ChainRank(fifo[..n], live[..n], i);
      assert fifo[..n][..i] == fifo[..i] && live[..n][..i] == live[..i];
    }
  }

  /** Every entry of a chain is the pool index of a live order of that level. */
  lemma {:induction false} ChainOrigin(fifo: seq<nat>, live: seq<Resting>, key: Key, k: nat) returns (i: nat)
    requires |fifo| == |live| && k < |Chain(fifo, live, key)|
    ensures i < |live| && KeyOf(live[i]) == key && fifo[i] == Chain(fifo, live, key)[k] && Rank(fifo, live, i) == k
  {
    var n := |live| - 1;
    if k < |Chain(fifo[..n], live[..n], key)| {
      i := ChainOrigin(fifo[..n], live[..n], key, k);
      assert fifo[..n][..i] == fifo[..i] && live[..n][..i] == live[..i];
    } else {
      i := n;
    }
  }

  lemma ChainUnique(fifo: seq<nat>, live: seq<Resting>, key: Key)
    requires |fifo| == |live| && Unique(fifo)
    ensures Unique(Chain(fifo, live, key))
  {
    var c := Chain(fifo, live, key);
    forall a, b | 0 <= a < b < |c| ensures c[a] != c[b] {
      var i := ChainOrigin(fifo, live, key, a);
      var j := ChainOrigin(fifo, live, key, b);
    }
  }

  /** Taking the youngest order out. */
  lemma ChainRemoveLast(fifo: seq<nat>, live: seq<Resting>, key: Key)
    requires |fifo| == |live| > 0
    ensures var i := |live| - 1;
      Chain(RemoveAt(fifo, i), RemoveAt(live, i), key)
      == if KeyOf(live[i]) == key then RemoveAt(Chain(fifo, live, key), Rank(fifo, live, i)) else Chain(fifo, live, key)
  {
    var i := |live| - 1;
    assert RemoveAt(fifo, i) == fifo[..i] && RemoveAt(live, i) == live[..i];
    var c := Chain(fifo[..i], live[..i], key);
    assert RemoveAt(c + [fifo[i]], |c|) == c;
  }

  /** Taking an older order out commutes with leaving the youngest aside. */
  lemma RemoveFront<T>(s: seq<T>, i: nat)
    requires i + 1 < |s|
    ensures RemoveAt(s, i)[..|s| - 2] == RemoveAt(s[..|s| - 1], i) && RemoveAt(s, i)[|s| - 2] == s[|s| - 1]
    ensures s[..|s| - 1][..i] == s[..i]
  {
    var n := |s| - 1;
    assert RemoveAt(s, i) == RemoveAt(s[..n], i) + [s[n]];
  }

  lemma ChainLast(fifo: seq<nat>, live: seq<Resting>, key: Key)
    requires |fifo| == |live| > 0
    ensures var n := |live| - 1;
      Chain(fifo, live, key) == Chain(fifo[..n], live[..n], key) + (if KeyOf(live[n]) == key then [fifo[n]] else [])
  {
  }

  lemma {:induction false} ChainRemove(fifo: seq<nat>, live: seq<Resting>, i: nat, key: Key)
    requires |fifo| == |live| && i < |live|
    ensures Rank(fifo, live, i) < |Chain(fifo, live, KeyOf(live[i]))|
    ensures Chain(RemoveAt(fifo, i), RemoveAt(live, i), key)
         == if KeyOf(live[i]) == key then RemoveAt(Chain(fifo, live, key), Rank(fifo, live, i))
           else Chain(fifo, live, key)
  {
    hide Chain, RemoveAt;
    ChainRank(fifo, live, i);
    var n := |live| - 1;
    if i == n {
      ChainRemoveLast(fifo, live, key);
    } else {
      RemoveFront(fifo, i);
      RemoveFront(live, i);
      ChainRemove(fifo[..n], live[..n], i, key);
      ChainLast(fifo, live, key);
      ChainLast(RemoveAt(fifo, i), RemoveAt(live, i), key);
      var c, last := Chain(fifo[..n], live[..n], key), if KeyOf(live[n]) == key then [fifo[n]] else [];
      if KeyOf(live[i]) == key {
        ChainRank(fifo[..n], live[..n], i);
        RemoveEarlier(c, last, Rank(fifo, live, i));
      }
    }
  }

  lemma RemoveEarlier<T>(a: seq<T>, b: seq<T>, i: nat)
    requires i < |a|
    ensures RemoveAt(a + b, i) == RemoveAt(a, i) + b
  {
  }

  lemma {:induction false} ChainResize(fifo: seq<nat>, live: seq<Resting>, i: nat, qty: nat, key: Key)
    requires |fifo| == |live| && i < |live|
    ensures Chain(fifo, live[i := live[i].(qty := qty)], key) == Chain(fifo, live, key)
  {
    var n := |live| - 1;
    if i == n {
      assert live[i := live[i].(qty := qty)][..n] == live[..n];
    } else {
      ChainResize(fifo[..n], live[..n], i, qty, key);
      assert live[i := live[i].(qty := qty)][..n] == live[..n][i := live[i].(qty := qty)];
    }
  }

  lemma {:induction false} ChainLength(fifo: seq<nat>, live: seq<Resting>, key: Key)
    requires |fifo| == |live|
    ensures |Chain(fifo, live, key)| == Orders(live, key.side, key.px)
  {
    if live != [] {
      ChainLength(fifo[..|live| - 1], live[..|live| - 1], key);
    }
  }

  lemma {:induction false} ChainPrefix(fifo: seq<nat>, live: seq<Resting>, i: nat, key: Key)
    requires |fifo| == |live| && i <= |live|
    ensures |Chain(fifo[..i], live[..i], key)| <= |Chain(fifo, live, key)|
    ensures Chain(fifo[..i], live[..i], key) == Chain(fifo, live, key)[..|Chain(fifo[..i], live[..i], key)|]
  {
    var n := |live| - 1;
    if i == |live| {
      assert fifo[..i] == fifo && live[..i] == live;
    } else {
      ChainPrefix(fifo[..n], live[..n], i, key);
      assert fifo[..n][..i] == fifo[..i] && live[..n][..i] == live[..i];
    }
  }

  // ---- links ----

  ghost predicate LinkAt(orders: seq<Order>, c: seq<nat>, k: nat)
    requires k < |c|
  {
    && c[k] < |orders|
    && orders[c[k]].prev == (if k == 0 then NONE else c[k - 1])
    && orders[c[k]].next == (if k + 1 == |c| then NONE else c[k + 1])
  }

  /** The level's list, from head to tail and back, is exactly the chain. */
  ghost predicate Linked(orders: seq<Order>, head: int, tail: int, c: seq<nat>) {
    && head == (if c == [] then NONE else c[0])
    && tail == (if c == [] then NONE else c[|c| - 1])
    && (forall k :: 0 <= k < |c| ==> LinkAt(orders, c, k))
  }

  /** Taking order `oi` out of its list. */
  function Unlinked(orders: seq<Order>, oi: nat): (r: seq<Order>)
    requires oi < |orders| && orders[oi].prev < |orders| && orders[oi].next < |orders|
    ensures |r| == |orders|
  {
    var o := orders[oi];
    var a := if o.prev >= 0 then orders[o.prev := orders[o.prev].(next := o.next)] else orders;
    var b := if o.next >= 0 then a[o.next := a[o.next].(prev := o.prev)] else a;
    b[oi := b[oi].(prev := NONE, next := NONE, level := NONE)]
  }

  /** Writing order `x` into slot `oi` and hanging it behind `tail`. */
  function Appended(orders: seq<Order>, oi: nat, x: Order, tail: int): (r: seq<Order>)
    requires oi < |orders| && tail < |orders|
    ensures |r| == |orders|
  {
    var a := orders[oi := x.(prev := tail, next := NONE)];
    if tail >= 0 then a[tail := a[tail].(next := oi)] else a
  }

  /** The neighbours named by a linked node are in the pool. */
  lemma LinkedNeighbours(orders: seq<Order>, c: seq<nat>, k: nat, head: int, tail: int)
    requires Linked(orders, head, tail, c) && k < |c|
    ensures c[k] < |orders| && orders[c[k]].prev < |orders| && orders[c[k]].next < |orders| && head < |orders|
    ensures tail < |orders|
    ensures orders[c[k]].prev >= 0 ==> k > 0 && orders[c[k]].prev == c[k - 1]
    ensures orders[c[k]].next >= 0 ==> k + 1 < |c| && orders[c[k]].next == c[k + 1]
  {
    assert LinkAt(orders, c, k);
    assert LinkAt(orders, c, 0) && LinkAt(orders, c, |c| - 1);
    assert k > 0 ==> LinkAt(orders, c, k - 1);
    assert k + 1 < |c| ==> LinkAt(orders, c, k + 1);
  }

  /** Taking a node out touches only the links of its neighbours. */
  lemma UnlinkedSpares(orders: seq<Order>, c: seq<nat>, k: nat, head: int, tail: int, x: nat)
    requires Linked(orders, head, tail, c) && k < |c| && x < |orders| && x != c[k]
    ensures c[k] < |orders| && orders[c[k]].prev < |orders| && orders[c[k]].next < |orders|
    ensures var o := Unlinked(orders, c[k])[x]; o == orders[x].(prev := o.prev, next := o.next)
    ensures x !in c ==> Unlinked(orders, c[k])[x] == orders[x]
  {
    LinkedNeighbours(orders, c, k, head, tail);
  }

  /** The rest of the chain stays linked. */
  lemma UnlinkLinked(orders: seq<Order>, c: seq<nat>, k: nat, head: int, tail: int)
    requires Linked(orders, head, tail, c) && Unique(c) && k < |c|
    ensures c[k] < |orders| && orders[c[k]].prev < |orders| && orders[c[k]].next < |orders|
    ensures var o := orders[c[k]];
            Linked(Unlinked(orders, c[k]), if o.prev >= 0 then head else o.next, if o.next >= 0 then tail else o.prev,
              RemoveAt(c, k))
  {
    LinkedNeighbours(orders, c, k, head, tail);
    var d, r := RemoveAt(c, k), Unlinked(orders, c[k]);
    assert LinkAt(orders, c, k);
    forall m | 0 <= m < |d| ensures LinkAt(r, d, m) {
      var at := if m < k then m else m + 1;
      assert LinkAt(orders, c, at);
      assert m > 0 ==> d[m - 1] == c[if m - 1 < k then m - 1 else m];
      assert m + 1 < |d| ==> d[m + 1] == c[if m + 1 < k then m + 1 else m + 2];
    }
  }

  lemma AppendLinked(orders: seq<Order>, c: seq<nat>, head: int, tail: int, oi: nat, x: Order)
    requires Linked(orders, head, tail, c) && Unique(c) && oi < |orders| && oi !in c
    ensures tail < |orders|
    ensures Linked(Appended(orders, oi, x, tail), if tail >= 0 then head else oi, oi, c + [oi])
  {
    if c != [] {
      LinkedNeighbours(orders, c, 0, head, tail);
    }
    var r := Appended(orders, oi, x, tail);
    forall m | 0 <= m < |c| + 1 ensures LinkAt(r, c + [oi], m) {
      if m < |c| {
        assert LinkAt(orders, c, m);
      }
    }
  }

  lemma OtherLinked(orders: seq<Order>, orders': seq<Order>, head: int, tail: int, c: seq<nat>)
    requires Linked(orders, head, tail, c) && |orders'| == |orders|
    requires forall k :: 0 <= k < |c| && c[k] < |orders| ==>
               orders'[c[k]].prev == orders[c[k]].prev && orders'[c[k]].next == orders[c[k]].next
    ensures Linked(orders', head, tail, c)
  {
    forall k | 0 <= k < |c| ensures LinkAt(orders', c, k) {
      assert LinkAt(orders, c, k);
    }
  }

  // ---- the pools as a whole ----

  ghost predicate NodeAt(orders: seq<Order>, fifo: seq<nat>, live: seq<Resting>, reg: map<Key, nat>, i: nat)
    requires i < |live| && |fifo| == |live|
  {
    && fifo[i] < |orders|
    && KeyOf(live[i]) in reg
    && orders[fifo[i]].id == live[i].ref
    && orders[fifo[i]].qty == live[i].qty
    && orders[fifo[i]].side == live[i].side
    && orders[fifo[i]].level == reg[KeyOf(live[i])]
  }

  /** The pool keeps every live order, each in a slot of its own, under the level that `reg` gives its price. */
  ghost predicate Nodes(orders: seq<Order>, fifo: seq<nat>, live: seq<Resting>, reg: map<Key, nat>) {
    && |fifo| == |live|
    && Unique(fifo)
    && (forall i :: 0 <= i < |live| ==> NodeAt(orders, fifo, live, reg, i))
  }

  ghost predicate LevelAt(orders: seq<Order>, levels: seq<Level>, fifo: seq<nat>, live: seq<Resting>, li: nat, key: Key)
    requires |fifo| == |live|
  {
    && li < |levels|
    && levels[li].price == key.px
    && levels[li].qty == Shares(live, key.side, key.px)
    && levels[li].orders == Orders(live, key.side, key.px)
    && Linked(orders, levels[li].head, levels[li].tail, Chain(fifo, live, key))
  }

  /** Every registered level lists its orders oldest first and carries their total and number. */
  ghost predicate Levels(orders: seq<Order>, levels: seq<Level>, fifo: seq<nat>, live: seq<Resting>,
                         reg: map<Key, nat>) {
    && |fifo| == |live|
    && (forall a, b :: a in reg && b in reg && reg[a] == reg[b] ==> a == b)
    && (forall key :: key in reg ==> LevelAt(orders, levels, fifo, live, reg[key], key))
  }

  /** Free and used order slots partition the pool. */
  ghost predicate FreeOrders(fifo: seq<nat>, free: seq<nat>, n: nat) {
    && Unique(free)
    && (forall i :: 0 <= i < |free| ==> free[i] < n && free[i] !in fifo)
    && |fifo| + |free| == n
  }

  /** Free and registered levels partition the pool. */
  ghost predicate FreeLevels(reg: map<Key, nat>, free: seq<nat>, n: nat) {
    && Unique(free)
    && (forall i, key :: 0 <= i < |free| && key in reg ==> free[i] != reg[key])
    && (forall i :: 0 <= i < |free| ==> free[i] < n)
    && |reg| + |free| == n
  }

  lemma FreeOrdersReturn(fifo: seq<nat>, free: seq<nat>, n: nat, i: nat)
    requires FreeOrders(fifo, free, n) && Unique(fifo) && i < |fifo| && fifo[i] < n
    ensures FreeOrders(RemoveAt(fifo, i), free + [fifo[i]], n)
  {
    var m := RemoveAt(fifo, i);
    forall k | 0 <= k < |m| ensures m[k] != fifo[i] && m[k] in fifo {
      assert m[k] == fifo[if k < i then k else k + 1];
    }
    assert fifo[i] !in m;
  }

  lemma FreeOrdersTake(fifo: seq<nat>, free: seq<nat>, n: nat)
    requires FreeOrders(fifo, free, n) && Unique(fifo) && free != []
    ensures FreeOrders(fifo + [free[|free| - 1]], free[..|free| - 1], n)
    ensures Unique(fifo + [free[|free| - 1]]) && free[|free| - 1] < n && free[|free| - 1] !in fifo
  {
  }

  // ---- creating and dropping a level ----

  /** A level that is not registered has no orders. */
  lemma Unregistered(orders: seq<Order>, fifo: seq<nat>, live: seq<Resting>, reg: map<Key, nat>, key: Key)
    requires Nodes(orders, fifo, live, reg) && key !in reg
    ensures Orders(live, key.side, key.px) == 0
  {
    forall i | 0 <= i < |live| ensures OneAt(key.side, key.px)(live[i]) == 0 {
      assert NodeAt(orders, fifo, live, reg, i);
    }
    SumZero(live, OneAt(key.side, key.px));
  }

  /** A registered level is in the pool, under its price. */
  lemma LevelPriced(orders: seq<Order>, levels: seq<Level>, fifo: seq<nat>, live: seq<Resting>, reg: map<Key, nat>,
                    key: Key)
    requires Levels(orders, levels, fifo, live, reg) && key in reg
    ensures reg[key] < |levels| && levels[reg[key]].price == key.px
    ensures forall a, b :: a in reg && b in reg && reg[a] == reg[b] ==> a == b
  {
    assert LevelAt(orders, levels, fifo, live, reg[key], key);
  }

  lemma CreateKeeps(orders: seq<Order>, levels: seq<Level>, fifo: seq<nat>, live: seq<Resting>, reg: map<Key, nat>,
                    key: Key, li: nat)
    requires Nodes(orders, fifo, live, reg) && Levels(orders, levels, fifo, live, reg)
    requires key !in reg && li < |levels| && forall k :: k in reg ==> reg[k] != li
    ensures Nodes(orders, fifo, live, reg[key := li])
    ensures Levels(orders, levels[li := Level(key.px, 0, 0, NONE, NONE)], fifo, live, reg[key := li])
  {
    var reg', levels' := reg[key := li], levels[li := Level(key.px, 0, 0, NONE, NONE)];
    Unregistered(orders, fifo, live, reg, key);
    LevelEmpty(live, key.side, key.px);
    ChainLength(fifo, live, key);
    forall i | 0 <= i < |live| ensures NodeAt(orders, fifo, live, reg', i) {
      assert NodeAt(orders, fifo, live, reg, i);
    }
    forall k | k in reg' ensures LevelAt(orders, levels', fifo, live, reg'[k], k) {
      assert k != key ==> LevelAt(orders, levels, fifo, live, reg[k], k);
    }
  }

  lemma DropKeeps(orders: seq<Order>, levels: seq<Level>, fifo: seq<nat>, live: seq<Resting>, reg: map<Key, nat>,
                  key: Key)
    requires Nodes(orders, fifo, live, reg) && Levels(orders, levels, fifo, live, reg)
    requires key in reg && Orders(live, key.side, key.px) == 0
    ensures Nodes(orders, fifo, live, reg - {key})
    ensures Levels(orders, levels, fifo, live, reg - {key})
  {
    forall i | 0 <= i < |live| ensures NodeAt(orders, fifo, live, reg - {key}, i) {
      assert NodeAt(orders, fifo, live, reg, i);
      LevelOfMember(live, i);
    }
  }

  lemma FreeLevelsTake(reg: map<Key, nat>, free: seq<nat>, n: nat, key: Key)
    requires FreeLevels(reg, free, n) && free != [] && key !in reg
    ensures FreeLevels(reg[key := free[|free| - 1]], free[..|free| - 1], n)
    ensures free[|free| - 1] < n && forall k :: k in reg ==> reg[k] != free[|free| - 1]
  {
  }

  lemma FreeLevelsReturn(reg: map<Key, nat>, free: seq<nat>, n: nat, key: Key)
    requires FreeLevels(reg, free, n) && key in reg && reg[key] < n
    requires forall a, b :: a in reg && b in reg && reg[a] == reg[b] ==> a == b
    ensures FreeLevels(reg - {key}, free + [reg[key]], n)
  {
  }

  // ---- appending, taking out and resizing an order ----

  function LevelPlus(L: Level, oi: nat, qty: nat): Level {
    Level(L.price, L.qty + qty, L.orders + 1, if L.tail >= 0 then L.head else oi, oi)
  }

  function LevelMinus(L: Level, o: Order): Level
    requires L.qty >= o.qty && L.orders >= 1
  {
    Level(L.price, L.qty - o.qty, L.orders - 1, if o.prev >= 0 then L.head else o.next,
      if o.next >= 0 then L.tail else o.prev)
  }

  lemma AppendNodes(orders: seq<Order>, fifo: seq<nat>, live: seq<Resting>, reg: map<Key, nat>, oi: nat, x: Resting,
                    o: Order, tail: int)
    requires Nodes(orders, fifo, live, reg) && oi < |orders| && oi !in fifo && KeyOf(x) in reg && tail < |orders|
    requires tail != oi
    requires o.id == x.ref && o.qty == x.qty && o.side == x.side && o.level == reg[KeyOf(x)]
    ensures Nodes(Appended(orders, oi, o, tail), fifo + [oi], live + [x], reg)
  {
    forall i | 0 <= i < |live| + 1 ensures NodeAt(Appended(orders, oi, o, tail), fifo + [oi], live + [x], reg, i) {
      if i < |live| {
        assert NodeAt(orders, fifo, live, reg, i);
        assert fifo[i] in fifo;
      }
    }
  }

  lemma AppendLevels(orders: seq<Order>, levels: seq<Level>, fifo: seq<nat>, live: seq<Resting>, reg: map<Key, nat>,
                     oi: nat, x: Resting, o: Order)
    requires Nodes(orders, fifo, live, reg) && Levels(orders, levels, fifo, live, reg)
    requires oi < |orders| && oi !in fifo && KeyOf(x) in reg
    ensures reg[KeyOf(x)] < |levels| && var L := levels[reg[KeyOf(x)]];
            L.tail < |orders| && L.tail != oi
            && Levels(Appended(orders, oi, o, L.tail), levels[reg[KeyOf(x)] := LevelPlus(L, oi, x.qty)], fifo + [oi],
              live + [x], reg)
  {
    var li := reg[KeyOf(x)];
    assert LevelAt(orders, levels, fifo, live, li, KeyOf(x));
    var L := levels[li];
    var own := Chain(fifo, live, KeyOf(x));
    ChainUnique(fifo, live, KeyOf(x));
    ChainOutside(fifo, live, KeyOf(x), oi);
    AppendLinked(orders, own, L.head, L.tail, oi, o);
    var orders', levels' := Appended(orders, oi, o, L.tail), levels[li := LevelPlus(L, oi, x.qty)];
    forall key | key in reg ensures LevelAt(orders', levels', fifo + [oi], live + [x], reg[key], key) {
      hide Linked;
      assert LevelAt(orders, levels, fifo, live, reg[key], key);
      ChainAppend(fifo, live, key, oi, x);
      LevelAppend(live, x, key.side, key.px);
      if key != KeyOf(x) {
        AppendElsewhere(orders, fifo, live, key, KeyOf(x), L, levels[reg[key]], oi, o);
        assert Chain(fifo + [oi], live + [x], key) == Chain(fifo, live, key);
      }
    }
  }

  /** Hanging an order behind one level's tail leaves the list of every other level as it is. */
  lemma AppendElsewhere(orders: seq<Order>, fifo: seq<nat>, live: seq<Resting>, key: Key, own: Key, L: Level, M: Level,
                        oi: nat, o: Order)
    requires |fifo| == |live| && Unique(fifo) && oi < |orders| && oi !in fifo && key != own && L.tail < |orders|
    requires Linked(orders, L.head, L.tail, Chain(fifo, live, own))
    requires Linked(orders, M.head, M.tail, Chain(fifo, live, key))
    ensures Linked(Appended(orders, oi, o, L.tail), M.head, M.tail, Chain(fifo, live, key))
  {
    var c, d := Chain(fifo, live, own), Chain(fifo, live, key);
    ChainOutside(fifo, live, key, oi);
    ChainsApart(fifo, live, key, own);
    forall k | 0 <= k < |d| && d[k] < |orders| ensures Appended(orders, oi, o, L.tail)[d[k]] == orders[d[k]] {
      assert d[k] in d;
    }
    OtherLinked(orders, Appended(orders, oi, o, L.tail), M.head, M.tail, d);
  }

  lemma ChainOutside(fifo: seq<nat>, live: seq<Resting>, key: Key, oi: nat)
    requires |fifo| == |live| && oi !in fifo
    ensures oi !in Chain(fifo, live, key)
  {
    var c := Chain(fifo, live, key);
    forall k | 0 <= k < |c| ensures c[k] != oi {
      var i := ChainOrigin(fifo, live, key, k);
    }
  }

  /** No order is on the lists of two levels. */
  lemma ChainsApart(fifo: seq<nat>, live: seq<Resting>, a: Key, b: Key)
    requires |fifo| == |live| && Unique(fifo) && a != b
    ensures forall x :: x in Chain(fifo, live, a) ==> x !in Chain(fifo, live, b)
  {
    var c, d := Chain(fifo, live, a), Chain(fifo, live, b);
    forall k, m | 0 <= k < |c| && 0 <= m < |d| ensures c[k] != d[m] {
      var i := ChainOrigin(fifo, live, a, k);
      var j := ChainOrigin(fifo, live, b, m);
    }
  }

  lemma UnlinkNodes(orders: seq<Order>, levels: seq<Level>, fifo: seq<nat>, live: seq<Resting>, reg: map<Key, nat>,
                    i: nat)
    requires Nodes(orders, fifo, live, reg) && Levels(orders, levels, fifo, live, reg) && i < |live|
    ensures fifo[i] < |orders| && orders[fifo[i]].prev < |orders| && orders[fifo[i]].next < |orders|
    ensures Nodes(Unlinked(orders, fifo[i]), RemoveAt(fifo, i), RemoveAt(live, i), reg)
  {
    hide Linked, Chain, Unlinked;
    var key, fifo', live' := KeyOf(live[i]), RemoveAt(fifo, i), RemoveAt(live, i);
    assert NodeAt(orders, fifo, live, reg, i);
    assert LevelAt(orders, levels, fifo, live, reg[key], key);
    var L, c := levels[reg[key]], Chain(fifo, live, key);
    ChainRank(fifo, live, i);
    LinkedNeighbours(orders, c, Rank(fifo, live, i), L.head, L.tail);
    forall j | 0 <= j < |live'| ensures NodeAt(Unlinked(orders, fifo[i]), fifo', live', reg, j) {
      var k := if j < i then j else j + 1;
      assert fifo'[j] == fifo[k] && live'[j] == live[k];
      assert NodeAt(orders, fifo, live, reg, k);
      UnlinkedSpares(orders, c, Rank(fifo, live, i), L.head, L.tail, fifo[k]);
    }
    forall a, b | 0 <= a < b < |fifo'| ensures fifo'[a] != fifo'[b] {
      assert fifo'[a] == fifo[if a < i then a else a + 1] && fifo'[b] == fifo[if b < i then b else b + 1];
    }
  }

  lemma UnlinkLevels(orders: seq<Order>, levels: seq<Level>, fifo: seq<nat>, live: seq<Resting>, reg: map<Key, nat>,
                     i: nat)
    requires Nodes(orders, fifo, live, reg) && Levels(orders, levels, fifo, live, reg) && i < |live|
    ensures fifo[i] < |orders| && KeyOf(live[i]) in reg && reg[KeyOf(live[i])] < |levels|
    ensures orders[fifo[i]].prev < |orders| && orders[fifo[i]].next < |orders|
    ensures var o, L := orders[fifo[i]], levels[reg[KeyOf(live[i])]];
            L.qty >= o.qty && L.orders >= 1
            && Levels(Unlinked(orders, fifo[i]), levels[reg[KeyOf(live[i])] := LevelMinus(L, o)], RemoveAt(fifo, i),
              RemoveAt(live, i), reg)
  {
    hide Linked, Chain, Unlinked, RemoveAt, Shares, Orders;
    var own := KeyOf(live[i]);
    assert NodeAt(orders, fifo, live, reg, i);
    assert LevelAt(orders, levels, fifo, live, reg[own], own);
    LevelOfMember(live, i);
    var L, o, c, at := levels[reg[own]], orders[fifo[i]], Chain(fifo, live, own), Rank(fifo, live, i);
    ChainRank(fifo, live, i);
    ChainUnique(fifo, live, own);
    UnlinkLinked(orders, c, at, L.head, L.tail);
    var orders', levels' := Unlinked(orders, fifo[i]), levels[reg[own] := LevelMinus(L, o)];
    forall key | key in reg ensures LevelAt(orders', levels', RemoveAt(fifo, i), RemoveAt(live, i), reg[key], key) {
      assert LevelAt(orders, levels, fifo, live, reg[key], key);
      ChainRemove(fifo, live, i, key);
      LevelRemove(live, i, key.side, key.px);
      if key != own {
        UnlinkElsewhere(orders, levels, fifo, live, i, key, L, levels[reg[key]]);
      }
    }
  }

  /** Taking an order out leaves the list of every other level as it is. */
  lemma UnlinkElsewhere(orders: seq<Order>, levels: seq<Level>, fifo: seq<nat>, live: seq<Resting>, i: nat, key: Key,
                        L: Level, M: Level)
    requires |fifo| == |live| && Unique(fifo) && i < |live| && key != KeyOf(live[i])
    requires Linked(orders, L.head, L.tail, Chain(fifo, live, KeyOf(live[i])))
    requires Linked(orders, M.head, M.tail, Chain(fifo, live, key))
    ensures fifo[i] < |orders| && orders[fifo[i]].prev < |orders| && orders[fifo[i]].next < |orders|
    ensures Linked(Unlinked(orders, fifo[i]), M.head, M.tail, Chain(fifo, live, key))
  {
    var c, d, at := Chain(fifo, live, KeyOf(live[i])), Chain(fifo, live, key), Rank(fifo, live, i);
    ChainRank(fifo, live, i);
    ChainsApart(fifo, live, key, KeyOf(live[i]));
    LinkedNeighbours(orders, c, at, L.head, L.tail);
    forall k | 0 <= k < |d| && d[k] < |orders| ensures Unlinked(orders, fifo[i])[d[k]] == orders[d[k]] {
      assert d[k] in d;
      UnlinkedSpares(orders, c, at, L.head, L.tail, d[k]);
    }
    OtherLinked(orders, Unlinked(orders, fifo[i]), M.head, M.tail, d);
  }

  lemma ResizeNodes(orders: seq<Order>, fifo: seq<nat>, live: seq<Resting>, reg: map<Key, nat>, i: nat, qty: nat)
    requires Nodes(orders, fifo, live, reg) && i < |live|
    ensures fifo[i] < |orders| && KeyOf(live[i]) in reg && orders[fifo[i]].qty == live[i].qty
    ensures Nodes(orders[fifo[i] := orders[fifo[i]].(qty := qty)], fifo, live[i := live[i].(qty := qty)], reg)
  {
    assert NodeAt(orders, fifo, live, reg, i);
    var orders', live' := orders[fifo[i] := orders[fifo[i]].(qty := qty)], live[i := live[i].(qty := qty)];
    forall j | 0 <= j < |live| ensures NodeAt(orders', fifo, live', reg, j) {
      assert NodeAt(orders, fifo, live, reg, j);
    }
  }

  lemma ResizeKeeps(orders: seq<Order>, levels: seq<Level>, fifo: seq<nat>, live: seq<Resting>, reg: map<Key, nat>,
                    i: nat, take: nat)
    requires Nodes(orders, fifo, live, reg) && Levels(orders, levels, fifo, live, reg) && i < |live|
    requires take <= live[i].qty
    ensures fifo[i] < |orders| && KeyOf(live[i]) in reg && reg[KeyOf(live[i])] < |levels|
    ensures orders[fifo[i]].qty == live[i].qty && levels[reg[KeyOf(live[i])]].qty >= take
    ensures var li := reg[KeyOf(live[i])];
      var orders' := orders[fifo[i] := orders[fifo[i]].(qty := live[i].qty - take)];
      var levels' := levels[li := levels[li].(qty := levels[li].qty - take)];
      var live' := live[i := live[i].(qty := live[i].qty - take)];
      Nodes(orders', fifo, live', reg) && Levels(orders', levels', fifo, live', reg)
  {
    hide Nodes, Linked, Chain, Shares, Orders;
    var own := KeyOf(live[i]);
    ResizeNodes(orders, fifo, live, reg, i, live[i].qty - take);
    assert LevelAt(orders, levels, fifo, live, reg[own], own);
    LevelOfMember(live, i);
    var li := reg[own];
    var orders' := orders[fifo[i] := orders[fifo[i]].(qty := live[i].qty - take)];
    var levels' := levels[li := levels[li].(qty := levels[li].qty - take)];
    var live' := live[i := live[i].(qty := live[i].qty - take)];
    forall key | key in reg ensures LevelAt(orders', levels', fifo, live', reg[key], key) {
      assert LevelAt(orders, levels, fifo, live, reg[key], key);
      ChainResize(fifo, live, i, live[i].qty - take, key);
      LevelResize(live, i, live[i].qty - take, key.side, key.px);
      OtherLinked(orders, orders', levels[reg[key]].head, levels[reg[key]].tail, Chain(fifo, live, key));
    }
  }

  // ---- registered levels and named orders ----

  /** A full free list: low indices are handed out first. */
  function Countdown(n: nat): (s: seq<nat>)
    ensures |s| == n && forall i :: 0 <= i < n ==> s[i] == n - 1 - i
  {
    seq(n, i requires 0 <= i < n => n - 1 - i)
  }

  lemma EmptyPools(orders: seq<Order>, levels: seq<Level>)
    ensures Nodes(orders, [], [], map[]) && Levels(orders, levels, [], [], map[])
  {
  }

  /** Prices of one side at which a level is registered. */
  ghost function RegPrices(reg: map<Key, nat>, side: Side): set<nat> {
    set key | key in reg && key.side == side :: key.px
  }

  lemma RegPricesMean(reg: map<Key, nat>, side: Side)
    ensures forall px :: px in RegPrices(reg, side) <==> Key(side, px) in reg
  {
    forall px ensures px in RegPrices(reg, side) <==> Key(side, px) in reg {
      if Key(side, px) in reg {
        assert Key(side, px).side == side && Key(side, px).px == px;
      }
    }
  }

  /** Every registered level has an order. */
  ghost predicate NoneEmpty(reg: map<Key, nat>, live: seq<Resting>) {
    forall key :: key in reg ==> Orders(live, key.side, key.px) > 0
  }

  /** The id table leads to the pool slots of live orders. It need not know every live order. */
  ghost predicate Located(at: map<nat, nat>, fifo: seq<nat>, live: seq<Resting>) {
    && |fifo| == |live|
    && (forall ref :: ref in at ==> Has(live, ref) && at[ref] == fifo[IndexOf(live, ref)])
  }

  lemma LocatedRemove(at: map<nat, nat>, fifo: seq<nat>, live: seq<Resting>, i: nat)
    requires Located(at, fifo, live) && Distinct(live) && i < |live|
    ensures Located(at - {live[i].ref}, RemoveAt(fifo, i), RemoveAt(live, i))
  {
    RemoveDistinct(live, i);
    var m, f := RemoveAt(live, i), RemoveAt(fifo, i);
    forall ref | ref in at - {live[i].ref} ensures Has(m, ref) && at[ref] == f[IndexOf(m, ref)] {
      var k := IndexOf(live, ref);
      var j := if k < i then k else k - 1;
      assert m[j] == live[k] && f[j] == fifo[k];
      IndexAt(m, j);
    }
  }

  /** A newly linked order, entered in the table or refused by it. */
  lemma LocatedAppend(at: map<nat, nat>, fifo: seq<nat>, live: seq<Resting>, x: Resting, oi: nat)
    requires Located(at, fifo, live) && Distinct(live) && !Has(live, x.ref)
    ensures Located(at[x.ref := oi], fifo + [oi], live + [x]) && Located(at, fifo + [oi], live + [x])
  {
    var m, f := live + [x], fifo + [oi];
    assert Distinct(m) by {
      forall j | 0 <= j < |live| ensures live[j].ref != x.ref {
        assert IndexOf(live, x.ref) == |live|;
      }
    }
    IndexAt(m, |live|);
    forall ref | ref in at ensures Has(m, ref) && at[ref] == f[IndexOf(m, ref)] && ref != x.ref {
      IndexAt(m, IndexOf(live, ref));
      assert m[IndexOf(live, ref)].ref == ref;
    }
  }

  lemma LocatedResize(at: map<nat, nat>, fifo: seq<nat>, live: seq<Resting>, i: nat, qty: nat)
    requires Located(at, fifo, live) && Distinct(live) && i < |live|
    ensures Located(at, fifo, live[i := live[i].(qty := qty)])
  {
    var m := live[i := live[i].(qty := qty)];
    forall ref | ref in at ensures Has(m, ref) && at[ref] == fifo[IndexOf(m, ref)] {
      var k := IndexOf(live, ref);
      assert m[k].ref == ref;
      IndexAt(m, k);
    }
  }

  lemma Registered(orders: seq<Order>, fifo: seq<nat>, live: seq<Resting>, reg: map<Key, nat>, side: Side, px: nat)
    requires Nodes(orders, fifo, live, reg) && NoneEmpty(reg, live)
    ensures Key(side, px) in reg <==> Orders(live, side, px) > 0
  {
    RegMeans(orders, fifo, live, reg);
  }

  /** As many levels are registered as there are live prices. */
  lemma RegSize(orders: seq<Order>, fifo: seq<nat>, live: seq<Resting>, reg: map<Key, nat>)
    requires Nodes(orders, fifo, live, reg) && NoneEmpty(reg, live)
    ensures |reg| == LevelCount(live)
  {
    hide Nodes, NoneEmpty, Prices, RegPrices;
    RegMeans(orders, fifo, live, reg);
    RegCount(reg);
  }

  lemma RegCount(reg: map<Key, nat>)
    ensures |reg| == |RegPrices(reg, Buy)| + |RegPrices(reg, Sell)|
  {
    hide RegPrices, AtPrices;
    var ps, qs := RegPrices(reg, Buy), RegPrices(reg, Sell);
    RegPricesMean(reg, Buy);
    RegPricesMean(reg, Sell);
    AtPricesSize(Buy, ps);
    AtPricesSize(Sell, qs);
    var bids, asks := AtPrices(Buy, ps), AtPrices(Sell, qs);
    assert reg.Keys == bids + asks by {
      forall key ensures key in reg.Keys <==> key in bids + asks {
        assert key == Key(key.side, key.px);
      }
    }
    assert bids !! asks;
  }

  ghost function AtPrices(side: Side, ps: set<nat>): set<Key> {
    set px | px in ps :: Key(side, px)
  }

  lemma {:induction false} AtPricesSize(side: Side, ps: set<nat>)
    ensures |AtPrices(side, ps)| == |ps|
    ensures forall key :: key in AtPrices(side, ps) <==> key.side == side && key.px in ps
  {
    if ps == {} {
      assert AtPrices(side, ps) == {};
    } else {
      var px :| px in ps;
      AtPricesSize(side, ps - {px});
      assert AtPrices(side, ps) == AtPrices(side, ps - {px}) + {Key(side, px)};
    }
  }

  lemma ResizeNoneEmpty(reg: map<Key, nat>, live: seq<Resting>, i: nat, qty: nat)
    requires NoneEmpty(reg, live) && i < |live|
    ensures NoneEmpty(reg, live[i := live[i].(qty := qty)])
  {
    forall key | key in reg { LevelResize(live, i, qty, key.side, key.px); }
  }

  /** Only the departed order's own level can have become empty. */
  lemma RemoveNoneEmpty(reg: map<Key, nat>, live: seq<Resting>, i: nat)
    requires NoneEmpty(reg, live) && i < |live|
    ensures var key, m := KeyOf(live[i]), RemoveAt(live, i);
      Orders(m, key.side, key.px) == Orders(live, key.side, key.px) - 1
      && NoneEmpty(if Orders(m, key.side, key.px) == 0 then reg - {key} else reg, m)
  {
    LevelRemove(live, i, live[i].side, live[i].px);
    forall key | key in reg { LevelRemove(live, i, key.side, key.px); }
  }

  lemma AppendNoneEmpty(reg: map<Key, nat>, live: seq<Resting>, x: Resting, li: nat)
    requires NoneEmpty(reg, live)
    ensures NoneEmpty(reg[KeyOf(x) := li], live + [x])
    ensures KeyOf(x) in reg ==> NoneEmpty(reg, live + [x])
  {
    LevelAppend(live, x, x.side, x.px);
    forall key | key in reg { LevelAppend(live, x, key.side, key.px); }
  }

  lemma SlotInPool(orders: seq<Order>, fifo: seq<nat>, live: seq<Resting>, reg: map<Key, nat>, i: nat)
    requires Nodes(orders, fifo, live, reg) && i < |live|
    ensures fifo[i] < |orders| && Unique(fifo) && orders[fifo[i]].side == live[i].side
    ensures orders[fifo[i]].qty == live[i].qty
    ensures KeyOf(live[i]) in reg && orders[fifo[i]].level == reg[KeyOf(live[i])]
  {
    assert NodeAt(orders, fifo, live, reg, i);
  }

  /** The registered levels are the live ones. */
  lemma RegMeans(orders: seq<Order>, fifo: seq<nat>, live: seq<Resting>, reg: map<Key, nat>)
    requires Nodes(orders, fifo, live, reg) && NoneEmpty(reg, live)
    ensures forall side, px :: Key(side, px) in reg <==> Orders(live, side, px) > 0
    ensures forall side :: RegPrices(reg, side) == Prices(live, side)
  {
    forall side, px ensures Key(side, px) in reg <==> Orders(live, side, px) > 0 {
      if Key(side, px) !in reg {
        Unregistered(orders, fifo, live, reg, Key(side, px));
      }
    }
    forall side ensures RegPrices(reg, side) == Prices(live, side) {
      RegPricesMean(reg, side);
      PricesLive(live, side);
    }
  }

  // ---- queue position ----

  /** Shares of the orders on a piece of a list. */
  ghost function ChainQty(orders: seq<Order>, c: seq<nat>): nat {
    if c == [] then 0
    else
      var x := c[|c| - 1];
      ChainQty(orders, c[..|c| - 1]) + (if x < |orders| then orders[x].qty else 0)
  }

  lemma {:induction false} ChainQtyIsShares(orders: seq<Order>, fifo: seq<nat>, live: seq<Resting>, key: Key)
    requires |fifo| == |live|
    requires forall i :: 0 <= i < |live| ==> fifo[i] < |orders| && orders[fifo[i]].qty == live[i].qty
    ensures ChainQty(orders, Chain(fifo, live, key)) == Shares(live, key.side, key.px)
  {
    if live != [] {
      var n := |live| - 1;
      ChainQtyIsShares(orders, fifo[..n], live[..n], key);
      var before := Chain(fifo[..n], live[..n], key);
      if KeyOf(live[n]) == key {
        assert (before + [fifo[n]])[..|before|] == before;
      } else {
        assert before + [] == before;
      }
    }
  }

  /** The list from its head down to an order holds exactly the shares stamped before it. */
  lemma ListAhead(orders: seq<Order>, fifo: seq<nat>, live: seq<Resting>, reg: map<Key, nat>, i: nat)
    requires Nodes(orders, fifo, live, reg) && i < |live|
    requires forall a, b :: 0 <= a < b < |live| ==> live[a].stamp < live[b].stamp
    ensures var c := Chain(fifo, live, KeyOf(live[i]));
      Rank(fifo, live, i) < |c| && c[Rank(fifo, live, i)] == fifo[i]
      && ChainQty(orders, c[..Rank(fifo, live, i)]) == Ahead(live, live[i].side, live[i].px, live[i].stamp)
  {
    var key := KeyOf(live[i]);
    forall j | 0 <= j < |live| ensures fifo[j] < |orders| && orders[fifo[j]].qty == live[j].qty {
      assert NodeAt(orders, fifo, live, reg, j);
    }
    ChainRank(fifo, live, i);
    ChainPrefix(fifo, live, i, key);
    ChainQtyIsShares(orders, fifo[..i], live[..i], key);
    AheadIsBefore(live, i);
  }
}
