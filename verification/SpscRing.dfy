/** The single-producer ring. */
module SpscRings {

  // A step system: one step is one atomic access or one access to a slot. A slot write stays pending, invisible
  // to the consumer, until it is flushed; a releasing store of the tail flushes it first, a relaxed one does not.

  import opened Wrapping

  datatype Ordering = AcqRel | Relaxed

  datatype Caching = Cached | Uncached

  datatype Config = Config(capacity: nat, ordering: Ordering, caching: Caching)

  /** Where each thread is in its operation. */
  datatype Producer<T> = PIdle | PReload(v: T) | PWrite(v: T) | PPublish(v: T)

  datatype Consumer<T> = CIdle | CReload | CRead | CPublish(out: T)

  /** `buf` is memory as the consumer sees it. The last four fields are history: the values pushed and popped,
      and how many pops and pushes each side has last seen of the other. */
  datatype Ring<T> = Ring(
    buf: seq<T>, pending: map<nat, T>, head: nat, tail: nat, cachedHead: nat, cachedTail: nat,
    producer: Producer<T>, consumer: Consumer<T>,
    pushed: seq<T>, popped: seq<T>, seenHead: nat, seenTail: nat)

  datatype Action<T> = Produce(v: T) | Consume | Flush(slot: nat)

  function Empty<T>(c: Config, blank: T): Ring<T> {
    Ring(seq(c.capacity, _ => blank), map[], 0, 0, 0, 0, PIdle, CIdle, [], [], 0, 0)
  }

  function Visible<T>(buf: seq<T>, pending: map<nat, T>): (r: seq<T>)
    ensures |r| == |buf|
  {
    seq(|buf|, i requires 0 <= i < |buf| => if i in pending then pending[i] else buf[i])
  }

  /** Loading the other side's index; only the cached ring keeps the value. */
  function ReadHead<T>(c: Config, r: Ring<T>): Ring<T> {
    r.(cachedHead := if c.caching == Cached then r.head else r.cachedHead, seenHead := |r.popped|)
  }

  function ReadTail<T>(c: Config, r: Ring<T>): Ring<T> {
    r.(cachedTail := if c.caching == Cached then r.tail else r.cachedTail, seenTail := |r.pushed|)
  }

  /** The next access of `try_push(v)`; a failed push is simply tried again. */
  function ProducerStep<T>(c: Config, r: Ring<T>, v: T): Ring<T> {
    match r.producer
    case PIdle =>
      if c.caching == Cached && Next(r.tail, c.capacity) != r.cachedHead then r.(producer := PWrite(v))
      else r.(producer := PReload(v))
    case PReload(w) =>
      var seen := ReadHead(c, r);
      if Next(r.tail, c.capacity) == r.head then seen.(producer := PIdle) else seen.(producer := PWrite(w))
    case PWrite(w) => r.(pending := r.pending[r.tail := w], producer := PPublish(w))
    case PPublish(w) =>
      var stored := r.(tail := Next(r.tail, c.capacity), pushed := r.pushed + [w], producer := PIdle);
      if c.ordering == AcqRel then stored.(buf := Visible(r.buf, r.pending), pending := map[]) else stored
  }

  /** The next access of `try_pop`. */
  function ConsumerStep<T>(c: Config, r: Ring<T>): Ring<T> {
    match r.consumer
    case CIdle =>
      if c.caching == Cached && r.head != r.cachedTail then r.(consumer := CRead) else r.(consumer := CReload)
    case CReload =>
      var seen := ReadTail(c, r);
      if r.head == r.tail then seen.(consumer := CIdle) else seen.(consumer := CRead)
    case CRead => if r.head < |r.buf| then r.(consumer := CPublish(r.buf[r.head])) else r
    case CPublish(out) => r.(head := Next(r.head, c.capacity), popped := r.popped + [out], consumer := CIdle)
  }

  /** The hardware makes a pending write visible when it likes. */
  function FlushStep<T>(r: Ring<T>, slot: nat): Ring<T> {
    if slot in r.pending && slot < |r.buf|
    then r.(buf := r.buf[slot := r.pending[slot]], pending := r.pending - {slot})
    else r
  }

  function Step<T>(c: Config, r: Ring<T>, a: Action<T>): Ring<T> {
    match a
    case Produce(v) => ProducerStep(c, r, v)
    case Consume => ConsumerStep(c, r)
    case Flush(slot) => FlushStep(r, slot)
  }

  function Run<T>(c: Config, r: Ring<T>, actions: seq<Action<T>>): Ring<T> {
    if actions == [] then r else Step(c, Run(c, r, actions[..|actions| - 1]), actions[|actions| - 1])
  }

  // ---- slots of a running count ----

  /** The slot of the `k`-th value ever pushed. */
  function SlotOf(k: nat, n: nat): (s: nat)
    ensures n > 0 ==> s < n
  {
    if k == 0 then 0 else Next(SlotOf(k - 1, n), n)
  }

  lemma {:induction false} SlotAhead(k: nat, d: nat, n: nat)
    requires d < n
    ensures SlotOf(k + d, n) == if SlotOf(k, n) + d < n then SlotOf(k, n) + d else SlotOf(k, n) + d - n
  {
    if d > 0 {
      SlotAhead(k, d - 1, n);
    }
  }

  /** Counts less than a lap apart have different slots. */
  lemma SlotsApart(a: nat, b: nat, n: nat)
    requires a <= b < a + n
    ensures SlotOf(a, n) == SlotOf(b, n) <==> a == b
  {
    SlotAhead(a, b - a, n);
  }

  // ---- the invariant ----

  ghost predicate Holds<T>(r: Ring<T>, n: nat, k: nat)
    requires |r.buf| == n > 0 && k < |r.pushed|
  {
    r.buf[SlotOf(k, n)] == r.pushed[k]
  }

  /** Indices are the running counts wrapped; each cached index lags on the safe side; what lies between head
      and tail is visible and is what was pushed; a pending write is the producer's own and unpublished. */
  ghost predicate Inv<T>(c: Config, r: Ring<T>) {
    var n, h, t := c.capacity, |r.popped|, |r.pushed|;
    && n >= 2 && |r.buf| == n
    && h <= t < h + n
    && r.popped == r.pushed[..h]
    && r.head == SlotOf(h, n) && r.tail == SlotOf(t, n)
    && (c.caching == Cached ==> r.cachedHead == SlotOf(r.seenHead, n)) && r.seenHead <= h && t < r.seenHead + n
    && (c.caching == Cached ==> r.cachedTail == SlotOf(r.seenTail, n)) && h <= r.seenTail <= t
    && (forall k :: h <= k < t ==> Holds(r, n, k))
    && (r.producer.PWrite? || r.producer.PPublish? ==> t + 1 < r.seenHead + n)
    && (if r.producer.PPublish?
        then r.pending == map[r.tail := r.producer.v] || (r.pending == map[] && r.buf[r.tail] == r.producer.v)
        else r.pending == map[])
    && (r.consumer.CRead? || r.consumer.CPublish? ==> h < r.seenTail)
    && (r.consumer.CPublish? ==> r.consumer.out == r.pushed[h])
  }

  lemma EmptyInv<T>(c: Config, blank: T)
    requires c.capacity >= 2
    ensures Inv(c, Empty(c, blank))
  {
  }

  lemma SlotLap(k: nat, n: nat)
    requires n > 0
    ensures SlotOf(k + n, n) == SlotOf(k, n)
  {
    SlotAhead(k, n - 1, n);
    assert SlotOf(k + n, n) == Next(SlotOf(k + n - 1, n), n);
  }

  /** The producer's test for a full ring, on the head itself and on a lagging copy of it. */
  lemma FullTest(h: nat, t: nat, n: nat)
    requires n >= 2 && h <= t < h + n
    ensures Next(SlotOf(t, n), n) == SlotOf(h, n) <==> t + 1 == h + n
  {
    assert SlotOf(t + 1, n) == Next(SlotOf(t, n), n);
    if t + 1 < h + n {
      SlotsApart(h, t + 1, n);
    } else {
      SlotLap(h, n);
    }
  }

  lemma SameSlotsInv<T>(c: Config, r: Ring<T>, r': Ring<T>)
    requires |r.buf| == c.capacity > 0 && r'.buf == r.buf && r'.pushed == r.pushed && r'.popped == r.popped
    requires forall k :: |r.popped| <= k < |r.pushed| ==> Holds(r, c.capacity, k)
    ensures forall k :: |r.popped| <= k < |r.pushed| ==> Holds(r', c.capacity, k)
  {
    forall k | |r.popped| <= k < |r.pushed| ensures Holds(r', c.capacity, k) {
      assert Holds(r, c.capacity, k);
    }
  }

  lemma IdleInv<T>(c: Config, r: Ring<T>, v: T)
    requires Inv(c, r) && r.producer.PIdle?
    ensures Inv(c, ProducerStep(c, r, v))
  {
    hide Holds, SlotOf, Next;
    FullTest(r.seenHead, |r.pushed|, c.capacity);
    SameSlotsInv(c, r, ProducerStep(c, r, v));
  }

  lemma ReloadInv<T>(c: Config, r: Ring<T>, v: T)
    requires Inv(c, r) && r.producer.PReload?
    ensures Inv(c, ProducerStep(c, r, v))
  {
    hide Holds, SlotOf, Next;
    FullTest(|r.popped|, |r.pushed|, c.capacity);
    SameSlotsInv(c, r, ProducerStep(c, r, v));
  }

  /** Publication makes the producer's slot show the value, and leaves the others as they are. */
  lemma PublishShows<T>(c: Config, r: Ring<T>, v: T, s: nat)
    requires Inv(c, r) && (c.ordering == AcqRel || r.pending == map[]) && r.producer.PPublish? && s < c.capacity
    ensures var r' := ProducerStep(c, r, v);
      |r'.buf| == c.capacity && r'.buf[s] == if s == r.tail then r.producer.v else r.buf[s]
  {
    hide SlotOf, Holds, Visible, Next;
    VisibleAt(r.buf, r.pending, s);
    if r.pending == map[] {
      assert s !in r.pending;
    } else {
      assert s in r.pending <==> s == r.tail;
    }
  }

  lemma VisibleAt<T>(buf: seq<T>, pending: map<nat, T>, s: nat)
    requires s < |buf|
    ensures Visible(buf, pending)[s] == if s in pending then pending[s] else buf[s]
  {
  }

  lemma PublishInv<T>(c: Config, r: Ring<T>, v: T)
    requires Inv(c, r) && (c.ordering == AcqRel || r.pending == map[]) && r.producer.PPublish?
    ensures Inv(c, ProducerStep(c, r, v))
  {
    hide Visible;
    var n, h, t := c.capacity, |r.popped|, |r.pushed|;
    var r' := ProducerStep(c, r, v);
    assert SlotOf(t + 1, n) == Next(r.tail, n);
    PublishShows(c, r, v, 0);
    forall k | h <= k < |r'.pushed| ensures Holds(r', n, k) {
      PublishShows(c, r, v, SlotOf(k, n));
      if k < t {
        assert Holds(r, n, k);
        SlotsApart(k, t, n);
      }
    }
  }

  lemma ProducerInv<T>(c: Config, r: Ring<T>, v: T)
    requires Inv(c, r) && (c.ordering == AcqRel || r.pending == map[])
    ensures Inv(c, ProducerStep(c, r, v))
  {
    match r.producer {
      case PIdle => IdleInv(c, r, v);
      case PReload(_) => ReloadInv(c, r, v);
      case PWrite(_) =>
        SameSlotsInv(c, r, ProducerStep(c, r, v));
      case PPublish(_) => PublishInv(c, r, v);
    }
  }

  lemma PopInv<T>(c: Config, r: Ring<T>)
    requires Inv(c, r) && r.consumer.CPublish?
    ensures Inv(c, ConsumerStep(c, r))
  {
    var n, h, t := c.capacity, |r.popped|, |r.pushed|;
    assert SlotOf(h + 1, n) == Next(r.head, n);
    var r' := ConsumerStep(c, r);
    hide SlotOf, Next;
    forall k | |r'.popped| <= k < t ensures Holds(r', n, k) {
      assert Holds(r, n, k);
    }
  }

  lemma ConsumerInv<T>(c: Config, r: Ring<T>)
    requires Inv(c, r)
    ensures Inv(c, ConsumerStep(c, r))
  {
    hide SlotOf, Next;
    if r.consumer.CPublish? {
      PopInv(c, r);
    } else {
      var n, h, t := c.capacity, |r.popped|, |r.pushed|;
      SlotsApart(h, t, n);
      SlotsApart(h, r.seenTail, n);
      if h < t {
        assert Holds(r, n, h);
      }
      SameSlotsInv(c, r, ConsumerStep(c, r));
    }
  }

  lemma FlushInv<T>(c: Config, r: Ring<T>, slot: nat)
    requires Inv(c, r)
    ensures Inv(c, FlushStep(r, slot))
  {
    var n, h, t := c.capacity, |r.popped|, |r.pushed|;
    var r' := FlushStep(r, slot);
    forall k | h <= k < t ensures Holds(r', n, k) {
      assert Holds(r, n, k);
      SlotsApart(k, t, n);
    }
  }

  lemma {:induction false} RunInv<T>(c: Config, r: Ring<T>, actions: seq<Action<T>>)
    requires Inv(c, r) && c.ordering == AcqRel
    ensures Inv(c, Run(c, r, actions))
  {
    if actions != [] {
      var a := actions[|actions| - 1];
      RunInv(c, r, actions[..|actions| - 1]);
      var s := Run(c, r, actions[..|actions| - 1]);
      match a {
        case Produce(v) => ProducerInv(c, s, v);
        case Consume => ConsumerInv(c, s);
        case Flush(slot) => FlushInv(c, s, slot);
      }
    }
  }

  // ---- what the ring guarantees ----

  /** The values between head and tail. */
  function InFlight<T>(c: Config, r: Ring<T>): seq<T>
    requires |r.buf| == c.capacity > 0 && |r.popped| <= |r.pushed|
  {
    seq(|r.pushed| - |r.popped|, i requires 0 <= i => r.buf[SlotOf(|r.popped| + i, c.capacity)])
  }

  lemma InFlightIs<T>(c: Config, r: Ring<T>)
    requires Inv(c, r)
    ensures InFlight(c, r) == r.pushed[|r.popped|..]
  {
    forall i | 0 <= i < |r.pushed| - |r.popped| ensures InFlight(c, r)[i] == r.pushed[|r.popped| + i] {
      assert Holds(r, c.capacity, |r.popped| + i);
    }
  }

  /** Nothing is lost, duplicated or reordered: in every run, what was popped followed by what is in the ring is
      what was pushed. */
  lemma FirstInFirstOut<T>(c: Config, blank: T, actions: seq<Action<T>>)
    requires c.capacity >= 2 && c.ordering == AcqRel
    ensures var r := Run(c, Empty(c, blank), actions);
      |r.buf| == c.capacity && |r.popped| <= |r.pushed| && r.popped + InFlight(c, r) == r.pushed
  {
    EmptyInv(c, blank);
    RunInv(c, Empty(c, blank), actions);
    var r := Run(c, Empty(c, blank), actions);
    InFlightIs(c, r);
    assert r.pushed == r.pushed[..|r.popped|] + r.pushed[|r.popped|..];
  }

  predicate ProducerHolds<T>(r: Ring<T>, slot: nat) {
    (r.producer.PWrite? || r.producer.PPublish?) && slot == r.tail
  }

  predicate ConsumerHolds<T>(r: Ring<T>, slot: nat) {
    (r.consumer.CRead? || r.consumer.CPublish?) && slot == r.head
  }

  /** The slot being written is never the slot being read. */
  lemma Exclusive<T>(c: Config, blank: T, actions: seq<Action<T>>, slot: nat)
    requires c.capacity >= 2 && c.ordering == AcqRel
    ensures var r := Run(c, Empty(c, blank), actions); !(ProducerHolds(r, slot) && ConsumerHolds(r, slot))
  {
    EmptyInv(c, blank);
    RunInv(c, Empty(c, blank), actions);
    var r := Run(c, Empty(c, blank), actions);
    SlotsApart(|r.popped|, |r.pushed|, c.capacity);
  }

  /** The cached ring loads the other side's index only when what it last saw of it is used up: a push when it knows of
      no free slot, a pop when it knows of no value. Without the cache every call loads it. */
  lemma RereadsOnlyWhenUsedUp<T>(c: Config, r: Ring<T>, v: T)
    requires Inv(c, r)
    ensures r.producer.PIdle? ==>
      (ProducerStep(c, r, v).producer.PReload?
       <==> (c.caching == Cached ==> |r.pushed| + 1 == r.seenHead + c.capacity))
    ensures r.consumer.CIdle? ==>
      (ConsumerStep(c, r).consumer.CReload? <==> (c.caching == Cached ==> |r.popped| == r.seenTail))
  {
    hide SlotOf, Next, Holds;
    FullTest(r.seenHead, |r.pushed|, c.capacity);
    SlotsApart(|r.popped|, r.seenTail, c.capacity);
  }

  /** A push that re-reads the head fails exactly when the ring then holds its capacity, one less than its
      slots; a pop that re-reads the tail fails exactly when the ring is then empty. */
  lemma FailsOnlyWhenFull<T>(c: Config, r: Ring<T>, v: T)
    requires Inv(c, r)
    ensures r.producer.PReload? ==>
      (ProducerStep(c, r, v).producer.PIdle? <==> |r.pushed| - |r.popped| == c.capacity - 1)
    ensures r.consumer.CReload? ==> (ConsumerStep(c, r).consumer.CIdle? <==> |r.pushed| == |r.popped|)
  {
    var n, h, t := c.capacity, |r.popped|, |r.pushed|;
    SlotsApart(h, t, n);
    SlotAhead(h, n - 1, n);
    assert SlotOf(t + 1, n) == Next(r.tail, n);
    if t + 1 < h + n {
      SlotsApart(h, t + 1, n);
    }
  }

  /** Publishing with a relaxed store breaks the ring: here the consumer sees the new tail before the slot, and
      pops the blank that was there instead of the value pushed. */
  lemma RelaxedPopsUnwritten(v: int)
    requires v != 0
    ensures var c := Config(2, Relaxed, Cached); var r := Run(c, Empty(c, 0), RelaxedRun(v));
      r.pushed == [v] && r.popped == [0]
  {
    hide Run, Empty, ConsumerStep;
    var c, a := Config(2, Relaxed, Cached), RelaxedRun(v);
    RelaxedPublishes(v);
    var s := Run(c, Empty(c, 0), a[..3]);
    RunOne(c, Empty(c, 0), a, 3);
    RunOne(c, Empty(c, 0), a, 4);
    RunOne(c, Empty(c, 0), a, 5);
    RunOne(c, Empty(c, 0), a, 6);
    assert a[..7] == a;
    RelaxedPops(s, v);
  }

  lemma RelaxedPublishes(v: int)
    ensures var c := Config(2, Relaxed, Cached);
      Run(c, Empty(c, 0), RelaxedRun(v)[..3])
      == Empty(c, 0).(pending := map[0 := v], tail := 1, pushed := [v], producer := PIdle)
  {
    hide Run;
    var c, a := Config(2, Relaxed, Cached), RelaxedRun(v);
    var e := Empty(c, 0);
    RunOne(c, e, a, 0);
    RunOne(c, e, a, 1);
    RunOne(c, e, a, 2);
    assert Run(c, e, a[..0]) == e by { RunNone(c, e, a); }
  }

  lemma RelaxedPops(s: Ring<int>, v: int)
    requires var c := Config(2, Relaxed, Cached);
      s == Empty(c, 0).(pending := map[0 := v], tail := 1, pushed := [v], producer := PIdle)
    ensures var c := Config(2, Relaxed, Cached);
      var r := ConsumerStep(c, ConsumerStep(c, ConsumerStep(c, ConsumerStep(c, s))));
      r.pushed == [v] && r.popped == [0]
  {
  }

  lemma RunNone<T>(c: Config, r: Ring<T>, actions: seq<Action<T>>)
    ensures Run(c, r, actions[..0]) == r
  {
  }

  function RelaxedRun(v: int): seq<Action<int>> {
    [Produce(v), Produce(v), Produce(v), Consume, Consume, Consume, Consume]
  }

  lemma RunOne<T>(c: Config, r: Ring<T>, actions: seq<Action<T>>, k: nat)
    requires k < |actions|
    ensures Run(c, r, actions[..k + 1]) == Step(c, Run(c, r, actions[..k]), actions[k])
  {
    assert actions[..k + 1][..k] == actions[..k];
  }

  // ---- progress ----

  predicate Full<T>(c: Config, r: Ring<T>) {
    |r.pushed| >= |r.popped| + c.capacity - 1
  }

  predicate Drained<T>(r: Ring<T>) {
    |r.pushed| <= |r.popped|
  }

  /** How far a thread is from completing its operation; spinning on a full or a drained ring brings it no nearer. */
  function PushRank<T>(c: Config, r: Ring<T>): nat {
    match r.producer
    case PIdle => 4
    case PReload(_) => if Full(c, r) then 4 else 3
    case PWrite(_) => 2
    case PPublish(_) => 1
  }

  function PopRank<T>(r: Ring<T>): nat {
    match r.consumer
    case CIdle => 4
    case CReload => if Drained(r) then 4 else 3
    case CRead => 2
    case CPublish(_) => 1
  }

  /** A producer's step completes the push or comes nearer to it unless the ring is full, and never sets the
      consumer back. */
  lemma ProducerAdvances<T>(c: Config, r: Ring<T>, v: T)
    requires Inv(c, r) && c.ordering == AcqRel
    ensures var r' := ProducerStep(c, r, v);
      && Inv(c, r') && r'.popped == r.popped && r'.consumer == r.consumer && PopRank(r') <= PopRank(r)
      && (if r.producer.PPublish?
          then r'.producer == PIdle && r'.pushed == r.pushed + [r.producer.v] && !Full(c, r)
               && PushRank(c, r) == 1 && PushRank(c, r') == 4
          else
            r'.pushed == r.pushed
            && if Full(c, r) then PushRank(c, r') == PushRank(c, r) else PushRank(c, r') < PushRank(c, r))
      && (r'.producer.PIdle? || r'.producer.v == if r.producer.PIdle? then v else r.producer.v)
  {
    hide Holds, SlotOf, Next, Visible;
    ProducerInv(c, r, v);
    FullTest(|r.popped|, |r.pushed|, c.capacity);
    FullTest(r.seenHead, |r.pushed|, c.capacity);
  }

  lemma ConsumerAdvances<T>(c: Config, r: Ring<T>)
    requires Inv(c, r)
    ensures var r' := ConsumerStep(c, r);
      && Inv(c, r') && r'.pushed == r.pushed && r'.producer == r.producer && PushRank(c, r') <= PushRank(c, r)
      && (if r.consumer.CPublish?
          then r'.consumer == CIdle && r'.popped == r.popped + [r.consumer.out] && !Drained(r)
               && r.pushed[|r.popped|] == r.consumer.out && PopRank(r) == 1 && PopRank(r') == 4
          else r'.popped == r.popped && if Drained(r) then PopRank(r') == PopRank(r) else PopRank(r') < PopRank(r))
  {
    hide Holds, SlotOf, Next;
    ConsumerInv(c, r);
    SlotsApart(|r.popped|, |r.pushed|, c.capacity);
    SlotsApart(|r.popped|, r.seenTail, c.capacity);
  }

  lemma FlushAdvances<T>(c: Config, r: Ring<T>, slot: nat)
    requires Inv(c, r)
    ensures var r' := FlushStep(r, slot);
      && Inv(c, r') && r'.pushed == r.pushed && r'.popped == r.popped && r'.producer == r.producer
      && r'.consumer == r.consumer && PushRank(c, r') == PushRank(c, r) && PopRank(r') == PopRank(r)
  {
    hide Inv;
    FlushInv(c, r, slot);
  }

  // ---- the object ----

  /** The steps of one whole push with the other thread at rest, or one thread running both ends, which always
      sees its own writes. */
  function WholePush<T>(c: Config, r: Ring<T>, v: T, steps: nat): Ring<T>
    decreases steps
  {
    var next := FlushStep(ProducerStep(c, r, v), r.tail);
    if steps == 0 || next.producer.PIdle? then next else WholePush(c, next, v, steps - 1)
  }

  function WholePop<T>(c: Config, r: Ring<T>, steps: nat): Ring<T>
    decreases steps
  {
    var next := ConsumerStep(c, r);
    if steps == 0 || next.consumer.CIdle? then next else WholePop(c, next, steps - 1)
  }

  lemma SeenStepInv<T>(c: Config, r: Ring<T>, v: T)
    requires Inv(c, r) && r.pending == map[]
    ensures var next := FlushStep(ProducerStep(c, r, v), r.tail); Inv(c, next) && next.pending == map[]
  {
    hide Holds, SlotOf;
    ProducerInv(c, r, v);
    FlushInv(c, ProducerStep(c, r, v), r.tail);
  }

  lemma {:induction false} WholePushInv<T>(c: Config, r: Ring<T>, v: T, steps: nat)
    requires Inv(c, r) && r.pending == map[]
    ensures Inv(c, WholePush(c, r, v, steps))
    decreases steps
  {
    hide Inv, ProducerStep, FlushStep;
    SeenStepInv(c, r, v);
    var next := FlushStep(ProducerStep(c, r, v), r.tail);
    if steps > 0 && !next.producer.PIdle? {
      WholePushInv(c, next, v, steps - 1);
    }
  }

  lemma {:induction false} WholePopInv<T>(c: Config, r: Ring<T>, steps: nat)
    requires Inv(c, r)
    ensures Inv(c, WholePop(c, r, steps))
    decreases steps
  {
    hide Inv;
    ConsumerInv(c, r);
    var next := ConsumerStep(c, r);
    if steps > 0 && !next.consumer.CIdle? {
      WholePopInv(c, next, steps - 1);
    }
  }

  /** What a whole push does: it re-reads the head when it must, and it fails only if the ring is then full. */
  lemma PushSteps<T>(c: Config, r: Ring<T>, v: T)
    requires r.producer == PIdle && r.pending == map[] && r.tail < |r.buf|
    ensures var reread := c.caching == Uncached || Next(r.tail, c.capacity) == r.cachedHead;
      var seen := if reread then ReadHead(c, r) else r;
      WholePush(c, r, v, 3) ==
      if reread && Next(r.tail, c.capacity) == r.head then seen
      else seen.(buf := r.buf[r.tail := v], tail := Next(r.tail, c.capacity), pushed := r.pushed + [v])
  {
    hide Next;
    assert Visible(r.buf[r.tail := v], map[]) == r.buf[r.tail := v];
    assert map[r.tail := v] - {r.tail} == map[];
  }

  lemma PushContents<T>(c: Config, r: Ring<T>, v: T)
    requires Inv(c, r) && r.producer == PIdle
    ensures r.tail < |r.buf| && r.pending == map[]
    ensures |InFlight(c, r)| <= c.capacity - 1
    ensures Next(r.tail, c.capacity) == r.head <==> |InFlight(c, r)| == c.capacity - 1
    ensures c.caching == Cached && Next(r.tail, c.capacity) != r.cachedHead ==> |InFlight(c, r)| < c.capacity - 1
    ensures var r' := WholePush(c, r, v, 3);
      Inv(c, r')
        && InFlight(c, r') == if |InFlight(c, r)| < c.capacity - 1 then InFlight(c, r) + [v] else InFlight(c, r)
  {
    hide SlotOf, Holds, WholePush, InFlight, Next;
    FullTest(|r.popped|, |r.pushed|, c.capacity);
    FullTest(r.seenHead, |r.pushed|, c.capacity);
    InFlightIs(c, r);
    WholePushInv(c, r, v, 3);
    PushSteps(c, r, v);
    InFlightIs(c, WholePush(c, r, v, 3));
  }

  lemma PopSteps<T>(c: Config, r: Ring<T>)
    requires r.consumer == CIdle && r.head < |r.buf|
    ensures var reread := c.caching == Uncached || r.head == r.cachedTail;
      var seen := if reread then ReadTail(c, r) else r;
      WholePop(c, r, 3) ==
      if reread && r.head == r.tail then seen
      else seen.(head := Next(r.head, c.capacity), popped := r.popped + [r.buf[r.head]])
  {
    hide Next;
  }

  lemma PopContents<T>(c: Config, r: Ring<T>)
    requires Inv(c, r) && r.consumer == CIdle
    ensures r.head < |r.buf|
    ensures r.head == r.tail <==> InFlight(c, r) == []
    ensures c.caching == Cached && r.head != r.cachedTail ==> InFlight(c, r) != []
    ensures Inv(c, WholePop(c, r, 3))
    ensures InFlight(c, r) == [] ==> InFlight(c, WholePop(c, r, 3)) == []
    ensures InFlight(c, r) != [] ==> InFlight(c, r) == [r.buf[r.head]] + InFlight(c, WholePop(c, r, 3))
  {
    hide SlotOf, Holds, WholePop, InFlight, Next;
    SlotsApart(|r.popped|, |r.pushed|, c.capacity);
    SlotsApart(|r.popped|, r.seenTail, c.capacity);
    InFlightIs(c, r);
    WholePopInv(c, r, 3);
    PopSteps(c, r);
    InFlightIs(c, WholePop(c, r, 3));
    if |r.popped| < |r.pushed| {
      assert Holds(r, c.capacity, |r.popped|);
    }
  }

  /** The ring with its two operations as written. Each is run here to completion by one thread; that two threads
      may interleave them is what the step system is for, and each method is shown to be a run of its steps. */
  class SpscRing<T> {
    const config: Config
    const buf: array<T>
    var head: nat
    var tail: nat
    var cachedHead: nat
    var cachedTail: nat
    ghost var pushed: seq<T>
    ghost var popped: seq<T>
    ghost var seenHead: nat
    ghost var seenTail: nat

    ghost function State(): Ring<T>
      reads this, buf
    {
      Ring(buf[..], map[], head, tail, cachedHead, cachedTail, PIdle, CIdle, pushed, popped, seenHead, seenTail)
    }

    ghost predicate Valid()
      reads this, buf
    {
      Inv(config, State())
    }

    /** What is in the ring, oldest first, as its slots hold it. */
    ghost function Contents(): seq<T>
      requires Valid()
      reads this, buf
    {
      InFlight(config, State())
    }

    constructor (config: Config, blank: T)
      requires config.capacity >= 2
      ensures Valid() && fresh(buf) && this.config == config && State() == Empty(config, blank)
    {
      this.config := config;
      buf := new T[config.capacity](_ => blank);
      head, tail, cachedHead, cachedTail := 0, 0, 0, 0;
      pushed, popped, seenHead, seenTail := [], [], 0, 0;
      new;
      EmptyInv(config, blank);
      assert State().buf == Empty(config, blank).buf;
    }

    method TryPush(v: T) returns (ok: bool)
      requires Valid()
      modifies this, buf
      ensures Valid() && State() == WholePush(config, old(State()), v, 3)
      ensures ok <==> |old(Contents())| < config.capacity - 1
      ensures Contents() == if ok then old(Contents()) + [v] else old(Contents())
    {
      hide Inv, WholePush, InFlight;
      ghost var c, r := config, State();
      PushContents(c, r, v);
      PushSteps(c, r, v);
      var next := Next(tail, config.capacity);
      if config.caching == Uncached || next == cachedHead {
        cachedHead, seenHead := if config.caching == Cached then head else cachedHead, |popped|;
        if next == head {
          return false;
        }
      }
      buf[tail] := v;
      assert buf[..] == r.buf[tail := v];
      tail, pushed := next, pushed + [v];
      return true;
    }

    method TryPop(was: T) returns (ok: bool, out: T)
      requires Valid()
      modifies this
      ensures Valid() && State() == WholePop(config, old(State()), 3)
      ensures ok <==> old(Contents()) != []
      ensures ok ==> old(Contents()) == [out] + Contents()
      ensures !ok ==> Contents() == old(Contents()) && out == was
    {
      hide Inv, WholePop, InFlight;
      ghost var c, r := config, State();
      PopContents(c, r);
      PopSteps(c, r);
      if config.caching == Uncached || head == cachedTail {
        cachedTail, seenTail := if config.caching == Cached then tail else cachedTail, |pushed|;
        if head == tail {
          return false, was;
        }
      }
      out := buf[head];
      head, popped := Next(head, config.capacity), popped + [out];
      return true, out;
    }
  }
}
