/** The three-thread pipeline. */
module Pipelines {

  // The feed pushes the tape, the strategy runs a deterministic stage over it, the gateway folds the fills into
  // a digest; two rings join them. One step is one ring access by one thread.

  import opened SpscRings

  datatype Msg<T> = Item(value: T) | Eof

  /** What is run: the tape, the stage (state and event to state and fills), and the digest. */
  datatype Program<!S, !E, !F, !D> = Program(
    tape: seq<E>, start: S, stage: (S, E) -> (S, seq<F>), zero: D, feed: (D, F) -> D,
    ring: Config, blankEvent: E, blankFill: F)

  datatype Strategy<S, F> = Waiting(s: S) | Emitting(s: S, fills: seq<F>) | Closing | Finished

  /** `out` is the history of what the gateway received. */
  datatype State<S, E, F, D> = State(
    ring1: Ring<Msg<E>>, ring2: Ring<Msg<F>>, sent: nat, strategy: Strategy<S, F>,
    digest: D, fills: nat, closed: bool, out: seq<F>)

  datatype Move = Feed | Strategy | Gateway | Flush1(slot: nat) | Flush2(slot: nat)

  // ---- the single-threaded run ----

  function Serial<S, E, F>(stage: (S, E) -> (S, seq<F>), s: S, tape: seq<E>): (r: (S, seq<F>)) {
    if tape == [] then (s, [])
    else
      var (t, out) := Serial(stage, s, tape[..|tape| - 1]);
      var (u, fills) := stage(t, tape[|tape| - 1]);
      (u, out + fills)
  }

  function Digest<F, D>(feed: (D, F) -> D, zero: D, fills: seq<F>): D {
    if fills == [] then zero else feed(Digest(feed, zero, fills[..|fills| - 1]), fills[|fills| - 1])
  }

  lemma {:induction false} DigestConcat<F, D>(feed: (D, F) -> D, zero: D, a: seq<F>, b: seq<F>)
    ensures Digest(feed, zero, a + b) == Digest(feed, Digest(feed, zero, a), b)
  {
    if b == [] {
      assert a + b == a;
    } else {
      DigestConcat(feed, zero, a, b[..|b| - 1]);
      assert (a + b)[..|a + b| - 1] == a + b[..|b| - 1];
    }
  }

  function Keeping<F>(): (seq<F>, F) -> seq<F> {
    (kept, x) => kept + [x]
  }

  lemma KeepsOne<F>(kept: seq<F>, x: F)
    ensures Keeping()(kept, x) == kept + [x]
  {
  }

  /** A digest that keeps everything it is fed is the fills themselves, each once and in order. */
  lemma {:induction false} DigestRecords<F>(fills: seq<F>)
    ensures Digest(Keeping(), [], fills) == fills
  {
    hide Keeping;
    if fills != [] {
      DigestRecords(fills[..|fills| - 1]);
      KeepsOne(fills[..|fills| - 1], fills[|fills| - 1]);
      assert fills[..|fills| - 1] + [fills[|fills| - 1]] == fills;
    }
  }

  function Fills<S, E, F, D>(p: Program<S, E, F, D>): seq<F> {
    Serial(p.stage, p.start, p.tape).1
  }

  // ---- the threads ----

  function Items<T>(xs: seq<T>): seq<Msg<T>> {
    seq(|xs|, i requires 0 <= i < |xs| => Item(xs[i]))
  }

  /** The `k`-th message the feed sends: the tape, then the end marker. */
  function FeedMsg<S, E, F, D>(p: Program<S, E, F, D>, k: nat): Msg<E> {
    if k < |p.tape| then Item(p.tape[k]) else Eof
  }

  function Launch<S, E, F, D>(p: Program<S, E, F, D>): State<S, E, F, D> {
    State(Empty(p.ring, Item(p.blankEvent)), Empty(p.ring, Item(p.blankFill)), 0, Waiting(p.start),
          p.zero, 0, false, [])
  }

  function FeedStep<S, E, F, D>(p: Program<S, E, F, D>, st: State<S, E, F, D>): State<S, E, F, D> {
    if st.sent > |p.tape| then st
    else st.(ring1 := ProducerStep(p.ring, st.ring1, FeedMsg(p, st.sent)),
             sent := if st.ring1.producer.PPublish? then st.sent + 1 else st.sent)
  }

  /** After an event: emit its fills, if it has any, before looking for the next one. */
  function Emit<S, F>(r: (S, seq<F>)): Strategy<S, F> {
    if r.1 == [] then Waiting(r.0) else Emitting(r.0, r.1)
  }

  function StrategyStep<S, E, F, D>(p: Program<S, E, F, D>, st: State<S, E, F, D>): State<S, E, F, D> {
    match st.strategy
    case Waiting(s) =>
      var popped := st.(ring1 := ConsumerStep(p.ring, st.ring1));
      (match st.ring1.consumer
       case CPublish(Item(e)) => popped.(strategy := Emit(p.stage(s, e)))
       case CPublish(Eof) => popped.(strategy := Closing)
       case _ => popped)
    case Emitting(s, fills) =>
      if fills == [] then st.(strategy := Waiting(s))
      else
        var pushed := st.(ring2 := ProducerStep(p.ring, st.ring2, Item(fills[0])));
        if st.ring2.producer.PPublish? then pushed.(strategy := Emit((s, fills[1..]))) else pushed
    case Closing =>
      var pushed := st.(ring2 := ProducerStep(p.ring, st.ring2, Eof));
      if st.ring2.producer.PPublish? then pushed.(strategy := Finished) else pushed
    case Finished => st
  }

  function GatewayStep<S, E, F, D>(p: Program<S, E, F, D>, st: State<S, E, F, D>): State<S, E, F, D> {
    if st.closed then st
    else
      var popped := st.(ring2 := ConsumerStep(p.ring, st.ring2));
      match st.ring2.consumer
      case CPublish(Item(f)) => popped.(digest := p.feed(st.digest, f), fills := st.fills + 1, out := st.out + [f])
      case CPublish(Eof) => popped.(closed := true)
      case _ => popped
  }

  function MoveStep<S, E, F, D>(p: Program<S, E, F, D>, st: State<S, E, F, D>, m: Move): State<S, E, F, D> {
    match m
    case Feed => FeedStep(p, st)
    case Strategy => StrategyStep(p, st)
    case Gateway => GatewayStep(p, st)
    case Flush1(slot) => st.(ring1 := FlushStep(st.ring1, slot))
    case Flush2(slot) => st.(ring2 := FlushStep(st.ring2, slot))
  }

  function Schedule<S, E, F, D>(p: Program<S, E, F, D>, st: State<S, E, F, D>, moves: seq<Move>): State<S, E, F, D> {
    if moves == [] then st
    else MoveStep(p, Schedule(p, st, moves[..|moves| - 1]), moves[|moves| - 1])
  }

  predicate Done<S, E, F, D>(p: Program<S, E, F, D>, st: State<S, E, F, D>) {
    st.sent > |p.tape| && st.strategy.Finished? && st.closed
  }

  // ---- the invariant ----

  /** The stage's state and fills after `k` events. */
  function After<S, E, F, D>(p: Program<S, E, F, D>, k: nat): (S, seq<F>)
    requires k <= |p.tape|
  {
    Serial(p.stage, p.start, p.tape[..k])
  }

  ghost predicate FeedInv<S, E, F, D>(p: Program<S, E, F, D>, st: State<S, E, F, D>) {
    && st.sent == |st.ring1.pushed| <= |p.tape| + 1
    && (forall k :: 0 <= k < st.sent ==> st.ring1.pushed[k] == FeedMsg(p, k))
    && (st.ring1.producer.PIdle? || (st.sent <= |p.tape| && st.ring1.producer.v == FeedMsg(p, st.sent)))
  }

  /** What the strategy has pushed and still holds is what the single-threaded run emits for the events popped. */
  ghost predicate StrategyInv<S, E, F, D>(p: Program<S, E, F, D>, st: State<S, E, F, D>) {
    var k, r := |st.ring1.popped|, st.ring2;
    match st.strategy
    case Waiting(s) => k <= |p.tape| && s == After(p, k).0 && r.pushed == Items(After(p, k).1) && r.producer.PIdle?
    case Emitting(s, fills) =>
      && k <= |p.tape| && st.ring1.consumer.CIdle? && fills != []
      && s == After(p, k).0 && r.pushed + Items(fills) == Items(After(p, k).1)
      && (r.producer.PIdle? || r.producer.v == Item(fills[0]))
    case Closing =>
      && k == |p.tape| + 1 && st.ring1.consumer.CIdle? && r.pushed == Items(Fills(p))
      && (r.producer.PIdle? || r.producer.v == Eof)
    case Finished =>
      && k == |p.tape| + 1 && st.ring1.consumer.CIdle? && r.pushed == Items(Fills(p)) + [Eof] && r.producer.PIdle?
  }

  ghost predicate GatewayInv<S, E, F, D>(p: Program<S, E, F, D>, st: State<S, E, F, D>) {
    && st.ring2.popped == Items(st.out) + (if st.closed then [Eof] else [])
    && st.digest == Digest(p.feed, p.zero, st.out) && st.fills == |st.out|
    && (st.closed ==> st.ring2.consumer.CIdle?)
  }

  ghost predicate RingsInv<S, E, F, D>(p: Program<S, E, F, D>, st: State<S, E, F, D>) {
    p.ring.ordering == AcqRel && Inv(p.ring, st.ring1) && Inv(p.ring, st.ring2)
  }

  ghost predicate PipelineInv<S, E, F, D>(p: Program<S, E, F, D>, st: State<S, E, F, D>) {
    RingsInv(p, st) && FeedInv(p, st) && StrategyInv(p, st) && GatewayInv(p, st)
  }

  // ---- progress ----

  predicate CanMove<S, E, F, D>(p: Program<S, E, F, D>, st: State<S, E, F, D>, m: Move) {
    match m
    case Feed => st.sent <= |p.tape| && !Full(p.ring, st.ring1)
    case Strategy =>
      (match st.strategy
       case Waiting(_) => !Drained(st.ring1)
       case Finished => false
       case _ => !Full(p.ring, st.ring2))
    case Gateway => !st.closed && !Drained(st.ring2)
    case _ => false
  }

  /** What is left to do: five for each push and pop to come, less the progress made on the current ones. */
  function Work<S, E, F, D>(p: Program<S, E, F, D>, st: State<S, E, F, D>): int {
    5 * (2 * (|p.tape| + 1) - |st.ring1.pushed| - |st.ring1.popped|)
    + 5 * (2 * (|Fills(p)| + 1) - |st.ring2.pushed| - |st.ring2.popped|)
    + (if st.sent > |p.tape| then 0 else PushRank(p.ring, st.ring1))
    + (match st.strategy case Waiting(_) => PopRank(st.ring1) case Finished => 0 case _ => PushRank(p.ring, st.ring2))
    + (if st.closed then 0 else PopRank(st.ring2))
  }

  /** One move never adds work, takes some away if its thread could move, and leaves every other thread that could
      move able to. */
  ghost predicate Progress<S, E, F, D>(p: Program<S, E, F, D>, st: State<S, E, F, D>, m: Move) {
    var st' := MoveStep(p, st, m);
    && Work(p, st') <= Work(p, st)
    && (CanMove(p, st, m) ==> Work(p, st') < Work(p, st))
    && (forall t :: t != m && CanMove(p, st, t) ==> CanMove(p, st', t))
  }

  lemma FeedKeeps<S, E, F, D>(p: Program<S, E, F, D>, st: State<S, E, F, D>)
    requires PipelineInv(p, st)
    ensures PipelineInv(p, FeedStep(p, st))
  {
    hide Inv, ProducerStep, Fills, After, Items, PushRank, PopRank, GatewayInv;
    ProducerAdvances(p.ring, st.ring1, FeedMsg(p, st.sent));
    GatewayFrame(p, st, FeedStep(p, st));
  }

  lemma FeedProgress<S, E, F, D>(p: Program<S, E, F, D>, st: State<S, E, F, D>)
    requires RingsInv(p, st) && st.sent == |st.ring1.pushed|
    ensures Progress(p, st, Feed)
  {
    hide Inv, ProducerStep, Fills, FeedMsg, PushRank, PopRank;
    ProducerAdvances(p.ring, st.ring1, FeedMsg(p, st.sent));
  }

  lemma ItemsSplit<T>(a: seq<T>, b: seq<T>)
    ensures Items(a + b) == Items(a) + Items(b)
  {
  }

  lemma GatewayKeeps<S, E, F, D>(p: Program<S, E, F, D>, st: State<S, E, F, D>)
    requires PipelineInv(p, st)
    ensures PipelineInv(p, GatewayStep(p, st))
  {
    ConsumerAdvances(p.ring, st.ring2);
    hide Inv, ConsumerStep, Fills, After, FeedMsg, PushRank, PopRank;
    match st.ring2.consumer {
      case CPublish(Item(f)) =>
        ItemsSplit(st.out, [f]);
        assert Items([f]) == [Item(f)];
        assert (st.out + [f])[..|st.out|] == st.out;
      case _ =>
    }
  }

  lemma GatewayProgress<S, E, F, D>(p: Program<S, E, F, D>, st: State<S, E, F, D>)
    requires RingsInv(p, st)
    ensures Progress(p, st, Gateway)
  {
    hide Inv, ConsumerStep, Fills, PushRank, PopRank;
    ConsumerAdvances(p.ring, st.ring2);
  }

  lemma StageAdvances<S, E, F, D>(p: Program<S, E, F, D>, k: nat)
    requires k < |p.tape|
    ensures var (u, fills) := p.stage(After(p, k).0, p.tape[k]);
      After(p, k + 1) == (u, After(p, k).1 + fills)
  {
    assert p.tape[..k + 1][..k] == p.tape[..k];
  }

  lemma GatewayFrame<S, E, F, D>(p: Program<S, E, F, D>, st: State<S, E, F, D>, st': State<S, E, F, D>)
    requires GatewayInv(p, st) && st'.ring2.popped == st.ring2.popped && st'.ring2.consumer == st.ring2.consumer
    requires st'.out == st.out && st'.digest == st.digest && st'.fills == st.fills && st'.closed == st.closed
    ensures GatewayInv(p, st')
  {
  }

  /** Popping an event, or the end marker. */
  lemma WaitingKeeps<S, E, F, D>(p: Program<S, E, F, D>, st: State<S, E, F, D>)
    requires PipelineInv(p, st) && st.strategy.Waiting?
    ensures PipelineInv(p, StrategyStep(p, st))
  {
    ConsumerAdvances(p.ring, st.ring1);
    var k := |st.ring1.popped|;
    match st.ring1.consumer {
      case CPublish(Item(e)) =>
        StageAdvances(p, k);
        var fills := p.stage(st.strategy.s, e).1;
        ItemsSplit(After(p, k).1, fills);
      case CPublish(Eof) =>
        assert p.tape[..|p.tape|] == p.tape;
      case _ =>
    }
    GatewayFrame(p, st, StrategyStep(p, st));
    hide Inv, ConsumerStep, After, GatewayInv, PushRank, PopRank, Items;
  }

  lemma WaitingProgress<S, E, F, D>(p: Program<S, E, F, D>, st: State<S, E, F, D>)
    requires RingsInv(p, st) && StrategyInv(p, st) && st.strategy.Waiting?
    ensures Progress(p, st, Strategy)
  {
    hide Inv, ConsumerStep, Fills, After, Items;
    ConsumerAdvances(p.ring, st.ring1);
    assert st.ring2.producer.PIdle?;
    assert PushRank(p.ring, st.ring2) == 4;
  }

  /** What is pushed and still to be emitted stays the same when one fill goes out. */
  lemma EmitOne<F>(pushed: seq<Msg<F>>, fills: seq<F>)
    requires fills != []
    ensures pushed + Items(fills) == (pushed + [Item(fills[0])]) + Items(fills[1..])
    ensures fills[1..] == [] ==> pushed + Items(fills) == pushed + [Item(fills[0])]
  {
    ItemsSplit([fills[0]], fills[1..]);
    assert [fills[0]] + fills[1..] == fills;
    assert Items([fills[0]]) == [Item(fills[0])];
  }

  /** Pushing one fill. */
  lemma EmittingKeeps<S, E, F, D>(p: Program<S, E, F, D>, st: State<S, E, F, D>)
    requires PipelineInv(p, st) && st.strategy.Emitting?
    ensures PipelineInv(p, StrategyStep(p, st))
  {
    hide Inv, ProducerStep, After, Fills, GatewayInv, PushRank, PopRank, Items;
    ProducerAdvances(p.ring, st.ring2, Item(st.strategy.fills[0]));
    EmitOne(st.ring2.pushed, st.strategy.fills);
    GatewayFrame(p, st, StrategyStep(p, st));
  }

  /** Pushing the end marker. */
  lemma ClosingKeeps<S, E, F, D>(p: Program<S, E, F, D>, st: State<S, E, F, D>)
    requires PipelineInv(p, st) && st.strategy.Closing?
    ensures PipelineInv(p, StrategyStep(p, st))
  {
    hide Inv, ProducerStep, After, Fills, GatewayInv, PushRank, PopRank, Items;
    ProducerAdvances(p.ring, st.ring2, Eof);
    GatewayFrame(p, st, StrategyStep(p, st));
  }

  lemma PushingProgress<S, E, F, D>(p: Program<S, E, F, D>, st: State<S, E, F, D>)
    requires RingsInv(p, st) && StrategyInv(p, st) && (st.strategy.Emitting? || st.strategy.Closing?)
    ensures Progress(p, st, Strategy)
  {
    hide Inv, ProducerStep, Fills, After, Items;
    ProducerAdvances(p.ring, st.ring2, if st.strategy.Emitting? then Item(st.strategy.fills[0]) else Eof);
    assert st.ring1.consumer.CIdle?;
    assert PopRank(st.ring1) == 4;
  }

  lemma FlushSound<S, E, F, D>(p: Program<S, E, F, D>, st: State<S, E, F, D>, m: Move)
    requires PipelineInv(p, st) && (m.Flush1? || m.Flush2?)
    ensures PipelineInv(p, MoveStep(p, st, m)) && Progress(p, st, m)
  {
    hide Inv, FlushStep, After, Fills, GatewayInv, PushRank, PopRank, Items;
    FlushAdvances(p.ring, st.ring1, m.slot);
    FlushAdvances(p.ring, st.ring2, m.slot);
    GatewayFrame(p, st, MoveStep(p, st, m));
  }

  lemma StrategySound<S, E, F, D>(p: Program<S, E, F, D>, st: State<S, E, F, D>)
    requires PipelineInv(p, st)
    ensures PipelineInv(p, StrategyStep(p, st)) && Progress(p, st, Strategy)
  {
    match st.strategy {
      case Waiting(_) =>
        WaitingKeeps(p, st);
        WaitingProgress(p, st);
      case Emitting(_, _) =>
        EmittingKeeps(p, st);
        PushingProgress(p, st);
      case Closing =>
        ClosingKeeps(p, st);
        PushingProgress(p, st);
      case Finished =>
    }
    hide RingsInv, FeedInv, StrategyInv, GatewayInv, Progress;
    if st.strategy.Finished? {
      assert StrategyStep(p, st) == st;
      FinishedProgress(p, st);
    }
  }

  lemma FinishedProgress<S, E, F, D>(p: Program<S, E, F, D>, st: State<S, E, F, D>)
    requires st.strategy.Finished?
    ensures Progress(p, st, Strategy)
  {
  }

  lemma MoveSound<S, E, F, D>(p: Program<S, E, F, D>, st: State<S, E, F, D>, m: Move)
    requires PipelineInv(p, st)
    ensures PipelineInv(p, MoveStep(p, st, m)) && Progress(p, st, m)
  {
    hide RingsInv, StrategyInv, GatewayInv, Progress;
    match m {
      case Feed =>
        FeedKeeps(p, st);
        FeedProgress(p, st);
      case Gateway =>
        GatewayKeeps(p, st);
        GatewayProgress(p, st);
      case Strategy => StrategySound(p, st);
      case _ => FlushSound(p, st, m);
    }
  }

  // ---- every schedule ----

  predicate Runnable<S, E, F, D>(p: Program<S, E, F, D>) {
    p.ring.capacity >= 2 && p.ring.ordering == AcqRel
  }

  lemma LaunchInv<S, E, F, D>(p: Program<S, E, F, D>)
    requires Runnable(p)
    ensures PipelineInv(p, Launch(p))
  {
    hide Inv;
    EmptyInv(p.ring, Item(p.blankEvent));
    EmptyInv(p.ring, Item(p.blankFill));
  }

  lemma {:induction false} ScheduleInv<S, E, F, D>(p: Program<S, E, F, D>, st: State<S, E, F, D>, moves: seq<Move>)
    requires PipelineInv(p, st)
    ensures PipelineInv(p, Schedule(p, st, moves))
  {
    hide PipelineInv, MoveStep;
    if moves != [] {
      ScheduleInv(p, st, moves[..|moves| - 1]);
      MoveSound(p, Schedule(p, st, moves[..|moves| - 1]), moves[|moves| - 1]);
    }
  }

  lemma {:induction false} FillsGrow<S, E, F, D>(p: Program<S, E, F, D>, k: nat)
    requires k <= |p.tape|
    ensures After(p, k).1 <= Fills(p)
    decreases |p.tape| - k
  {
    if k == |p.tape| {
      assert p.tape[..k] == p.tape;
    } else {
      StageAdvances(p, k);
      FillsGrow(p, k + 1);
    }
  }

  lemma ItemsPrefix<T>(a: seq<T>, b: seq<T>)
    requires Items(a) <= Items(b) + [Eof]
    ensures a <= b
  {
    assert (Items(b) + [Eof])[|b|] == Eof;
    assert forall i :: 0 <= i < |a| ==> Items(a)[i].Item?;
    assert |a| <= |b|;
    forall i | 0 <= i < |a| ensures a[i] == b[i] {
      assert Items(a)[i] == Items(b)[i];
    }
  }

  lemma PushedIsSerial<S, E, F, D>(p: Program<S, E, F, D>, st: State<S, E, F, D>)
    requires StrategyInv(p, st)
    ensures st.ring2.pushed <= Items(Fills(p)) + [Eof]
  {
    var k := |st.ring1.popped|;
    if st.strategy.Waiting? || st.strategy.Emitting? {
      FillsGrow(p, k);
      var some, all := After(p, k).1, Fills(p);
      ItemsSplit(some, all[|some|..]);
      assert some + all[|some|..] == all;
    }
  }

  /** In every schedule of the three threads, and however late writes become visible, the gateway has received a
      prefix of the single-threaded run's fills, and exactly those fills, with the same count and digest, once
      it is done. */
  lemma GatewayIsSerial<S, E, F, D>(p: Program<S, E, F, D>, moves: seq<Move>)
    requires Runnable(p)
    ensures var st := Schedule(p, Launch(p), moves);
      && st.out <= Fills(p)
      && st.fills == |st.out| && st.digest == Digest(p.feed, p.zero, st.out)
      && (st.closed ==> st.out == Fills(p))
  {
    LaunchInv(p);
    ScheduleInv(p, Launch(p), moves);
    var st := Schedule(p, Launch(p), moves);
    PushedIsSerial(p, st);
    assert st.ring2.popped <= st.ring2.pushed;
    assert Items(st.out) <= st.ring2.popped;
    ItemsPrefix(st.out, Fills(p));
    if st.closed {
      assert st.ring2.popped[|st.out|] == Eof;
      assert (Items(Fills(p)) + [Eof])[|st.out|] == Eof;
    }
  }

  lemma FinishedWhenEof<S, E, F, D>(p: Program<S, E, F, D>, st: State<S, E, F, D>, i: nat)
    requires StrategyInv(p, st) && i < |st.ring2.pushed|
    ensures st.ring2.pushed[i] == Eof ==> st.strategy.Finished?
    ensures st.strategy.Finished? ==> st.ring2.pushed[|st.ring2.pushed| - 1] == Eof
  {
    match st.strategy {
      case Waiting(_) => assert Items(After(p, |st.ring1.popped|).1)[i].Item?;
      case Emitting(_, fills) => assert (st.ring2.pushed + Items(fills))[i] == Items(After(p, |st.ring1.popped|).1)[i];
      case Closing => assert Items(Fills(p))[i].Item?;
      case Finished =>
    }
  }

  /** No deadlock: until all three threads are done, one of them can move. */
  lemma SomeoneCanMove<S, E, F, D>(p: Program<S, E, F, D>, st: State<S, E, F, D>) returns (m: Move)
    requires PipelineInv(p, st) && !Done(p, st)
    ensures (m.Feed? || m.Strategy? || m.Gateway?) && CanMove(p, st, m)
  {
    var r1, r2 := st.ring1, st.ring2;
    assert r1.popped <= r1.pushed && r2.popped <= r2.pushed;
    if !st.closed && !Drained(r2) {
      return Gateway;
    }
    if st.closed {
      assert r2.popped[|st.out|] == Eof;
      FinishedWhenEof(p, st, |st.out|);
      assert false;
    } else {
      assert r2.pushed == r2.popped == Items(st.out);
      if st.strategy.Finished? {
        FinishedWhenEof(p, st, |st.out| - 1);
        assert false;
      }
      if CanMove(p, st, Strategy) {
        return Strategy;
      }
      m := Feed;
    }
  }

  /** A thread that can move stays able to until it does, and then work is lost. */
  lemma {:induction false} MovesOrWaits<S, E, F, D>(p: Program<S, E, F, D>, st: State<S, E, F, D>, moves: seq<Move>,
                                                    m: Move)
    requires PipelineInv(p, st) && CanMove(p, st, m)
    ensures var st' := Schedule(p, st, moves);
      Work(p, st') < Work(p, st) || (Work(p, st') == Work(p, st) && m !in moves && CanMove(p, st', m))
  {
    hide Work, CanMove, MoveStep, PipelineInv;
    if moves != [] {
      var some, last := moves[..|moves| - 1], moves[|moves| - 1];
      MovesOrWaits(p, st, some, m);
      ScheduleInv(p, st, some);
      MoveSound(p, Schedule(p, st, some), last);
      assert moves == some + [last];
    }
  }

  predicate Round(moves: seq<Move>) {
    Feed in moves && Strategy in moves && Gateway in moves
  }

  function Flat(rounds: seq<seq<Move>>): seq<Move> {
    if rounds == [] then [] else Flat(rounds[..|rounds| - 1]) + rounds[|rounds| - 1]
  }

  lemma {:induction false} ScheduleConcat<S, E, F, D>(p: Program<S, E, F, D>, st: State<S, E, F, D>, a: seq<Move>,
                                                      b: seq<Move>)
    ensures Schedule(p, st, a + b) == Schedule(p, Schedule(p, st, a), b)
  {
    hide MoveStep;
    if b == [] {
      assert a + b == a;
    } else {
      ScheduleConcat(p, st, a, b[..|b| - 1]);
      assert (a + b)[..|a + b| - 1] == a + b[..|b| - 1];
    }
  }

  lemma WorkPositive<S, E, F, D>(p: Program<S, E, F, D>, st: State<S, E, F, D>)
    requires PipelineInv(p, st)
    ensures Work(p, st) >= 0
  {
    PushedIsSerial(p, st);
    assert st.ring1.popped <= st.ring1.pushed && st.ring2.popped <= st.ring2.pushed;
    assert |st.ring2.pushed| <= |Items(Fills(p)) + [Eof]|;
  }

  lemma {:induction false} DoneStays<S, E, F, D>(p: Program<S, E, F, D>, st: State<S, E, F, D>, moves: seq<Move>)
    requires Done(p, st)
    ensures Done(p, Schedule(p, st, moves))
  {
    if moves != [] {
      DoneStays(p, st, moves[..|moves| - 1]);
    }
  }

  lemma {:induction false} RoundsAdvance<S, E, F, D>(p: Program<S, E, F, D>, st: State<S, E, F, D>,
                                                     rounds: seq<seq<Move>>)
    requires PipelineInv(p, st) && forall i :: 0 <= i < |rounds| ==> Round(rounds[i])
    ensures var st' := Schedule(p, st, Flat(rounds)); Done(p, st') || Work(p, st') + |rounds| <= Work(p, st)
  {
    hide PipelineInv, Work, CanMove, MoveStep, Schedule, Done;
    if rounds == [] {
      assert Schedule(p, st, []) == st by { ScheduleNone(p, st); }
    } else {
      var some, last := rounds[..|rounds| - 1], rounds[|rounds| - 1];
      RoundsAdvance(p, st, some);
      var mid := Schedule(p, st, Flat(some));
      ScheduleInv(p, st, Flat(some));
      ScheduleConcat(p, st, Flat(some), last);
      if Done(p, mid) {
        DoneStays(p, mid, last);
      } else {
        var m := SomeoneCanMove(p, mid);
        MovesOrWaits(p, mid, last, m);
        assert Round(last);
      }
    }
  }

  lemma ScheduleNone<S, E, F, D>(p: Program<S, E, F, D>, st: State<S, E, F, D>)
    ensures Schedule(p, st, []) == st
  {
  }

  /** Every fair schedule finishes: once every thread has had as many turns as there is work at the launch, in
      any order and with any extra turns between, all three are done and the gateway holds the serial fills. */
  lemma FairScheduleFinishes<S, E, F, D>(p: Program<S, E, F, D>, rounds: seq<seq<Move>>)
    requires Runnable(p)
    requires forall i :: 0 <= i < |rounds| ==> Round(rounds[i])
    requires |rounds| > 10 * (|p.tape| + 1) + 10 * (|Fills(p)| + 1) + 12
    ensures var st := Schedule(p, Launch(p), Flat(rounds));
      Done(p, st) && st.out == Fills(p) && st.fills == |Fills(p)| && st.digest == Digest(p.feed, p.zero, Fills(p))
  {
    var st := Schedule(p, Launch(p), Flat(rounds));
    LaunchInv(p);
    GatewayIsSerial(p, Flat(rounds));
    RoundsAdvance(p, Launch(p), rounds);
    ScheduleInv(p, Launch(p), Flat(rounds));
    WorkPositive(p, st);
    assert Work(p, Launch(p)) == 10 * (|p.tape| + 1) + 10 * (|Fills(p)| + 1) + 12;
    hide Work, Fills, Schedule, PipelineInv;
  }
}