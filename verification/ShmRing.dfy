/** The shared-memory ring. */
module ShmRings {

  // The ring and its subscriber as a step system: one step is one load or store of a control word or of one
  // payload word. The producer never waits and overwrites; each slot is guarded by a version that is odd while
  // the slot is being written.

  import opened Wrapping
  import opened SpscRings

  const ATTEMPTS: nat := 64

  datatype Slot<W> = Slot(version: nat, seqno: nat, words: seq<W>)

  /** Where the publisher is: the version it loaded, and the words it has still to store. */
  datatype WriterPc = WIdle | WOdd(v: nat) | WSeq(v: nat) | WCopy(v: nat, todo: set<nat>) | WPublish | WClosed

  /** Where the subscriber is: the attempt, the version and sequence it loaded, and the words still to copy.
      After an empty read it looks for the end mark. */
  datatype ReaderPc =
    | RIdle | RAttempt(k: nat) | RSeq(k: nat, v: nat) | RCopy(k: nat, v: nat, seqno: nat, todo: set<nat>)
    | REmpty | RStopped

  datatype Memory<W> = Memory(slots: seq<Slot<W>>, writeSeq: nat, eof: nat)

  datatype Subscriber<W> = Subscriber(
    pc: ReaderPc, next: nat, out: seq<W>, received: seq<seq<W>>, missed: nat, gaps: nat)

  /** `sent` is every message given to `publish`, `log` the contents of its slot once it is written, `last` the
      sequence last completed in each slot, `at` the sequence at which each received message was read, `late` whether
      a read ended on an older sequence. */
  datatype State<W> = State(
    mem: Memory<W>, writer: WriterPc, sub: Subscriber<W>,
    sent: seq<seq<W>>, log: seq<seq<W>>, last: seq<int>, at: seq<nat>, late: bool)

  datatype Action<W> = Publish(m: seq<W>) | Close | Store(i: nat) | Load(i: nat)

  datatype Layout<W> = Layout(capacity: nat, words: nat, blank: W)

  function All(n: nat): (all: set<nat>)
    ensures forall i: nat :: i in all <==> i < n
  {
    if n == 0 then {} else All(n - 1) + {n - 1}
  }

  lemma {:induction false} AllSize(n: nat)
    ensures |All(n)| == n
  {
    if n > 0 {
      AllSize(n - 1);
      var less := All(n - 1);
      assert n - 1 !in less && All(n) == less + {n - 1};
      hide All;
      assert |less + {n - 1}| == |less| + 1;
    }
  }

  function Launch<W>(l: Layout<W>): State<W> {
    State(Memory(seq(l.capacity, _ => Slot(0, 0, seq(l.words, _ => l.blank))), 0, 0), WIdle,
          Subscriber(RIdle, 0, seq(l.words, _ => l.blank), [], 0, 0), [], [], seq(l.capacity, _ => -1), [], false)
  }

  /** Words of a message that a slot takes. */
  function Size<W>(l: Layout<W>, m: seq<W>): nat {
    if |m| < l.words then |m| else l.words
  }

  /** A payload overwritten by a message: too long a message is cut, behind a short one the old words stay. */
  function Laid<W>(words: seq<W>, m: seq<W>): (r: seq<W>)
    ensures |r| == |words|
  {
    if |m| < |words| then m + words[|m|..] else m[..|words|]
  }

  // ---- the publisher ----

  function Begin<W>(l: Layout<W>, st: State<W>, m: seq<W>): State<W>
    requires |st.mem.slots| == l.capacity > 0
  {
    var slot := st.mem.slots[SlotOf(st.mem.writeSeq, l.capacity)];
    if st.writer == WIdle
    then st.(writer := WOdd(slot.version), sent := st.sent + [m], log := st.log + [Laid(slot.words, m)])
    else st
  }

  function MarkEof<W>(st: State<W>): State<W> {
    if st.writer == WIdle then st.(mem := st.mem.(eof := st.mem.writeSeq + 1), writer := WClosed) else st
  }

  function Put<W>(st: State<W>, s: nat, slot: Slot<W>): State<W>
    requires s < |st.mem.slots|
  {
    st.(mem := st.mem.(slots := st.mem.slots[s := slot]))
  }

  predicate Shaped<W>(l: Layout<W>, st: State<W>) {
    && l.capacity > 0 && |st.mem.slots| == l.capacity && |st.last| == l.capacity && |st.sub.out| == l.words
    && (forall s :: 0 <= s < l.capacity ==> |st.mem.slots[s].words| == l.words)
    && |st.log| == st.mem.writeSeq + (if st.writer.WIdle? || st.writer.WClosed? then 0 else 1)
    && |st.sent| == |st.log| && (forall k :: 0 <= k < |st.log| ==> |st.log[k]| == l.words)
  }

  /** The publisher's next store; `i` is the word it copies, which `memcpy` may do in any order. */
  function WriterStep<W>(l: Layout<W>, st: State<W>, i: nat): State<W>
    requires Shaped(l, st)
  {
    var q := st.mem.writeSeq;
    var s := SlotOf(q, l.capacity);
    var slot := st.mem.slots[s];
    match st.writer
    case WOdd(v) => Put(st, s, slot.(version := v + 1)).(writer := WSeq(v))
    case WSeq(v) => Put(st, s, slot.(seqno := q)).(writer := WCopy(v, All(Size(l, st.sent[q]))))
    case WCopy(v, todo) =>
      if todo == {} then Put(st, s, slot.(version := v + 2)).(writer := WPublish, last := st.last[s := q])
      else if i in todo && i < Size(l, st.sent[q])
      then Put(st, s, slot.(words := slot.words[i := st.sent[q][i]])).(writer := WCopy(v, todo - {i}))
      else st
    case WPublish => st.(mem := st.mem.(writeSeq := q + 1), writer := WIdle)
    case _ => st
  }

  // ---- the subscriber ----

  function Deliver<W>(st: State<W>): State<W> {
    var sub := st.sub;
    st.(sub := sub.(pc := RIdle, next := sub.next + 1, received := sub.received + [sub.out]), at := st.at + [sub.next])
  }

  function Miss<W>(st: State<W>, gap: nat): State<W> {
    var sub := st.sub;
    st.(sub := sub.(pc := RIdle, next := sub.next + gap, missed := sub.missed + gap, gaps := sub.gaps + 1))
  }

  function Goto<W>(st: State<W>, pc: ReaderPc): State<W> {
    st.(sub := st.sub.(pc := pc))
  }

  /** The subscriber's next load, with `i` the word it copies. */
  function ReaderStep<W>(l: Layout<W>, st: State<W>, i: nat): State<W>
    requires Shaped(l, st)
  {
    var sub, published := st.sub, st.mem.writeSeq;
    var slot := st.mem.slots[SlotOf(sub.next, l.capacity)];
    match sub.pc
    case RIdle =>
      if sub.next >= published then Goto(st, REmpty)
      else if published > l.capacity && sub.next < published - l.capacity
      then Miss(st, published - l.capacity - sub.next)
      else Goto(st, RAttempt(0))
    case RAttempt(k) =>
      if k >= ATTEMPTS then Miss(st, 1)
      else if slot.version % 2 == 1 then Goto(st, RAttempt(k + 1))
      else Goto(st, RSeq(k, slot.version))
    case RSeq(k, v) => Goto(st, RCopy(k, v, slot.seqno, All(l.words)))
    case RCopy(k, v, seqno, todo) =>
      if todo != {} then
        if i in todo && i < l.words
        then st.(sub := sub.(pc := RCopy(k, v, seqno, todo - {i}), out := sub.out[i := slot.words[i]]))
        else st
      else if slot.version != v then Goto(st, RAttempt(k + 1))
      else if seqno == sub.next then Deliver(st)
      else if seqno > sub.next then Miss(st, seqno - sub.next)
      else Goto(st, REmpty).(late := true)
    case REmpty => if st.mem.eof != 0 && sub.next + 1 >= st.mem.eof then Goto(st, RStopped) else Goto(st, RIdle)
    case RStopped => st
  }

  function Step<W>(l: Layout<W>, st: State<W>, a: Action<W>): State<W>
    requires Shaped(l, st)
  {
    match a
    case Publish(m) => Begin(l, st, m)
    case Close => MarkEof(st)
    case Store(i) => WriterStep(l, st, i)
    case Load(i) => ReaderStep(l, st, i)
  }

  lemma StoreShaped<W>(l: Layout<W>, st: State<W>, i: nat)
    requires Shaped(l, st)
    ensures Shaped(l, WriterStep(l, st, i))
  {
    hide SlotOf, All;
  }

  lemma LoadShaped<W>(l: Layout<W>, st: State<W>, i: nat)
    requires Shaped(l, st)
    ensures Shaped(l, ReaderStep(l, st, i))
  {
    hide SlotOf, All;
  }

  lemma StepShaped<W>(l: Layout<W>, st: State<W>, a: Action<W>)
    requires Shaped(l, st)
    ensures Shaped(l, Step(l, st, a))
  {
    hide SlotOf, WriterStep, ReaderStep;
    match a {
      case Store(i) => StoreShaped(l, st, i);
      case Load(i) => LoadShaped(l, st, i);
      case _ =>
    }
  }

  function Run<W>(l: Layout<W>, st: State<W>, actions: seq<Action<W>>): (r: State<W>)
    requires Shaped(l, st)
    ensures Shaped(l, r)
  {
    if actions == [] then st
    else
      var before := Run(l, st, actions[..|actions| - 1]);
      StepShaped(l, before, actions[|actions| - 1]);
      Step(l, before, actions[|actions| - 1])
  }

  // ---- the invariant ----

  /** How many messages are completely written, and how many have begun to be. */
  function Completed<W>(st: State<W>): nat {
    st.mem.writeSeq + if st.writer.WPublish? then 1 else 0
  }

  predicate Writing<W>(st: State<W>) {
    st.writer.WSeq? || st.writer.WCopy?
  }

  predicate WritingTo<W>(l: Layout<W>, st: State<W>, s: nat) {
    Writing(st) && s == SlotOf(st.mem.writeSeq, l.capacity)
  }

  /** A slot not being written has an even version and holds the message last completed in it. */
  ghost predicate SlotOk<W>(l: Layout<W>, st: State<W>, s: nat)
    requires Shaped(l, st) && s < l.capacity
  {
    var slot, q := st.mem.slots[s], st.last[s];
    && -1 <= q < Completed(st)
    && (q >= 0 ==> SlotOf(q, l.capacity) == s)
    && (slot.version % 2 == 1 <==> WritingTo(l, st, s))
    && (!WritingTo(l, st, s) && q >= 0 ==> slot.seqno == q && slot.words == st.log[q])
    && (!WritingTo(l, st, s) && q == -1 ==> slot.words == seq(l.words, _ => l.blank))
  }

  /** What the slot of message `q` held before it. */
  function Before<W>(l: Layout<W>, log: seq<seq<W>>, q: nat): seq<W>
    requires 0 < l.capacity && q < |log| + l.capacity
  {
    if q < l.capacity then seq(l.words, _ => l.blank) else log[q - l.capacity]
  }

  /** The contents of a slot are the message over what the slot held a lap earlier. */
  ghost predicate LogOk<W>(l: Layout<W>, st: State<W>, q: nat)
    requires Shaped(l, st) && q < |st.log|
  {
    st.log[q] == Laid(Before(l, st.log, q), st.sent[q])
  }

  /** The words that the message in hand does not reach are in the slot already. */
  ghost predicate TailOk<W>(l: Layout<W>, st: State<W>)
    requires Shaped(l, st) && st.mem.writeSeq < |st.log|
  {
    var q := st.mem.writeSeq;
    forall i :: Size(l, st.sent[q]) <= i < l.words ==>
      st.mem.slots[SlotOf(q, l.capacity)].words[i] == st.log[q][i]
  }

  /** The slot of a completed message has since completed nothing older. */
  ghost predicate Covered<W>(l: Layout<W>, st: State<W>, q: nat)
    requires Shaped(l, st)
  {
    st.last[SlotOf(q, l.capacity)] >= q
  }

  ghost predicate WriterOk<W>(l: Layout<W>, st: State<W>)
    requires Shaped(l, st)
  {
    var q := st.mem.writeSeq;
    var slot := st.mem.slots[SlotOf(q, l.capacity)];
    match st.writer
    case WOdd(v) => slot.version == v && TailOk(l, st)
    case WSeq(v) => slot.version == v + 1 && TailOk(l, st)
    case WCopy(v, todo) =>
      slot.version == v + 1 && slot.seqno == q && todo <= All(Size(l, st.sent[q]))
      && (forall i :: 0 <= i < l.words && i !in todo ==> slot.words[i] == st.log[q][i])
    case _ => true
  }

  ghost predicate MemInv<W>(l: Layout<W>, st: State<W>) {
    && Shaped(l, st)
    && (forall s :: 0 <= s < l.capacity ==> SlotOk(l, st, s))
    && (forall q :: 0 <= q < Completed(st) ==> Covered(l, st, q))
    && (forall q :: 0 <= q < |st.log| ==> LogOk(l, st, q))
    && WriterOk(l, st)
    && st.mem.eof == (if st.writer.WClosed? then st.mem.writeSeq + 1 else 0)
  }

  /** While the version it loaded stands, what the subscriber has copied is what the slot holds. */
  ghost predicate ReadingOk<W>(l: Layout<W>, st: State<W>)
    requires Shaped(l, st)
  {
    var slot := st.mem.slots[SlotOf(st.sub.next, l.capacity)];
    match st.sub.pc
    case RAttempt(_) => st.sub.next < st.mem.writeSeq
    case RSeq(k, v) => k < ATTEMPTS && st.sub.next < st.mem.writeSeq && v % 2 == 0 && slot.version >= v
    case RCopy(k, v, seqno, todo) =>
      && k < ATTEMPTS && todo <= All(l.words)
      && st.sub.next < st.mem.writeSeq && v % 2 == 0 && slot.version >= v
      && (slot.version == v ==> seqno == slot.seqno)
      && (slot.version == v ==> forall i :: 0 <= i < l.words && i !in todo ==> st.sub.out[i] == slot.words[i])
    case RStopped => st.writer.WClosed? && st.sub.next == st.mem.writeSeq
    case _ => true
  }

  /** What has been received is what was published, in order; the rest up to `next` was reported missed. */
  ghost predicate Received<W>(st: State<W>) {
    && st.sub.next <= st.mem.writeSeq <= |st.log|
    && |st.at| == |st.sub.received| && |st.at| + st.sub.missed == st.sub.next
    && (forall k :: 0 <= k < |st.at| ==> st.at[k] < st.sub.next && st.sub.received[k] == st.log[st.at[k]])
    && (forall j, k :: 0 <= j < k < |st.at| ==> st.at[j] < st.at[k])
    && !st.late
  }

  ghost predicate RingInv<W>(l: Layout<W>, st: State<W>) {
    MemInv(l, st) && ReadingOk(l, st) && Received(st)
  }

  lemma LaunchInv<W>(l: Layout<W>)
    requires l.capacity > 0
    ensures RingInv(l, Launch(l))
  {
  }

  // ---- the publisher keeps it ----

  /** What the next slot to be claimed holds. */
  lemma NextSlotHolds<W>(l: Layout<W>, st: State<W>)
    requires MemInv(l, st) && st.writer == WIdle
    ensures st.mem.slots[SlotOf(st.mem.writeSeq, l.capacity)].words == Before(l, st.log, st.mem.writeSeq)
  {
    hide SlotOf, LogOk;
    var n, q, s := l.capacity, st.mem.writeSeq, SlotOf(st.mem.writeSeq, l.capacity);
    assert SlotOk(l, st, s);
    var p := st.last[s];
    if q >= n {
      SlotLap(q - n, n);
      assert Covered(l, st, q - n);
    }
    if p >= 0 && p + n > q {
      SlotsApart(p, q, n);
    }
  }

  lemma LaidEnds<W>(l: Layout<W>, words: seq<W>, m: seq<W>)
    requires |words| == l.words
    ensures forall i :: 0 <= i < Size(l, m) ==> Laid(words, m)[i] == m[i]
    ensures forall i :: Size(l, m) <= i < l.words ==> Laid(words, m)[i] == words[i]
  {
  }

  lemma BeginInv<W>(l: Layout<W>, st: State<W>, m: seq<W>)
    requires RingInv(l, st)
    ensures RingInv(l, Begin(l, st, m))
  {
    hide SlotOf, Laid, Size;
    var st' := Begin(l, st, m);
    var q := st.mem.writeSeq;
    if st.writer == WIdle {
      NextSlotHolds(l, st);
      LaidEnds(l, st.mem.slots[SlotOf(q, l.capacity)].words, m);
      assert Before(l, st'.log, q) == Before(l, st.log, q);
    }
    forall s | 0 <= s < l.capacity ensures SlotOk(l, st', s) {
      assert SlotOk(l, st, s);
    }
    forall q | 0 <= q < Completed(st') ensures Covered(l, st', q) {
      assert Covered(l, st, q);
    }
    forall q | 0 <= q < |st.log| ensures LogOk(l, st', q) {
      assert LogOk(l, st, q);
    }
  }

  lemma MarkEofInv<W>(l: Layout<W>, st: State<W>)
    requires RingInv(l, st)
    ensures RingInv(l, MarkEof(st))
  {
    hide SlotOf;
    var st' := MarkEof(st);
    forall s | 0 <= s < l.capacity ensures SlotOk(l, st', s) {
      assert SlotOk(l, st, s);
    }
    forall q | 0 <= q < Completed(st') ensures Covered(l, st', q) {
      assert Covered(l, st, q);
    }
    forall q | 0 <= q < |st'.log| ensures LogOk(l, st', q) {
      assert LogOk(l, st, q);
    }
  }

  lemma StoreKeepsSlots<W>(l: Layout<W>, st: State<W>, i: nat, s: nat)
    requires MemInv(l, st) && Shaped(l, WriterStep(l, st, i)) && s < l.capacity
    ensures SlotOk(l, WriterStep(l, st, i), s)
  {
    hide SlotOf, All, Covered, LogOk, TailOk;
    assert SlotOk(l, st, SlotOf(st.mem.writeSeq, l.capacity));
    assert SlotOk(l, st, s);
  }

  lemma StoreKeepsCovered<W>(l: Layout<W>, st: State<W>, i: nat, q: nat)
    requires MemInv(l, st) && Shaped(l, WriterStep(l, st, i)) && q < Completed(WriterStep(l, st, i))
    ensures Covered(l, WriterStep(l, st, i), q)
  {
    assert q < Completed(st) ==> Covered(l, st, q);
    assert SlotOk(l, st, SlotOf(q, l.capacity));
    hide SlotOf, All, SlotOk, Shaped, WriterOk;
  }

  lemma StoreKeepsWriter<W>(l: Layout<W>, st: State<W>, i: nat)
    requires MemInv(l, st) && Shaped(l, WriterStep(l, st, i))
    ensures WriterOk(l, WriterStep(l, st, i))
  {
    hide SlotOf, All, SlotOk, Covered, Laid, Size, LogOk;
    if Writing(st) {
      LogStarts(l, st, st.mem.writeSeq);
    }
  }

  /** The contents of a slot start with the message, as far as it fits. */
  lemma LogStarts<W>(l: Layout<W>, st: State<W>, q: nat)
    requires MemInv(l, st) && q < |st.log|
    ensures forall i :: 0 <= i < Size(l, st.sent[q]) ==> st.log[q][i] == st.sent[q][i]
  {
    assert LogOk(l, st, q);
    LaidEnds(l, Before(l, st.log, q), st.sent[q]);
  }

  lemma StoreKeepsMemory<W>(l: Layout<W>, st: State<W>, i: nat)
    requires MemInv(l, st)
    ensures MemInv(l, WriterStep(l, st, i))
  {
    var st' := WriterStep(l, st, i);
    StoreShaped(l, st, i);
    StoreKeepsWriter(l, st, i);
    assert st'.mem.eof == if st'.writer.WClosed? then st'.mem.writeSeq + 1 else 0;
    StoreKeepsLog(l, st, i);
    hide SlotOk, Covered, WriterOk, WriterStep, Shaped, MemInv, LogOk;
    forall s | 0 <= s < l.capacity ensures SlotOk(l, st', s) {
      StoreKeepsSlots(l, st, i, s);
    }
    forall q | 0 <= q < Completed(st') ensures Covered(l, st', q) {
      StoreKeepsCovered(l, st, i, q);
    }
    StoredInv(l, st');
  }

  lemma StoreKeepsLog<W>(l: Layout<W>, st: State<W>, i: nat)
    requires MemInv(l, st) && Shaped(l, WriterStep(l, st, i))
    ensures var st' := WriterStep(l, st, i); forall q :: 0 <= q < |st'.log| ==> LogOk(l, st', q)
  {
    hide SlotOf, All, SlotOk, Covered, Laid;
    var st' := WriterStep(l, st, i);
    assert st'.log == st.log && st'.sent == st.sent;
    forall q | 0 <= q < |st'.log| ensures LogOk(l, st', q) {
      assert LogOk(l, st, q);
    }
  }

  lemma StoredInv<W>(l: Layout<W>, st: State<W>)
    requires Shaped(l, st) && WriterOk(l, st)
    requires forall s :: 0 <= s < l.capacity ==> SlotOk(l, st, s)
    requires forall q :: 0 <= q < Completed(st) ==> Covered(l, st, q)
    requires forall q :: 0 <= q < |st.log| ==> LogOk(l, st, q)
    requires st.mem.eof == if st.writer.WClosed? then st.mem.writeSeq + 1 else 0
    ensures MemInv(l, st)
  {
  }

  /** A store raises a slot's version or leaves it odd; a slot whose version stands at an even value is untouched. */
  lemma StoreShows<W>(l: Layout<W>, st: State<W>, i: nat, s: nat)
    requires MemInv(l, st) && s < l.capacity
    ensures var old', new' := st.mem.slots[s], WriterStep(l, st, i).mem.slots[s];
      new'.version >= old'.version && (new'.version == old'.version && new'.version % 2 == 0 ==> new' == old')
  {
    hide SlotOf;
    assert SlotOk(l, st, s);
  }

  lemma StoreInv<W>(l: Layout<W>, st: State<W>, i: nat)
    requires RingInv(l, st)
    ensures RingInv(l, WriterStep(l, st, i))
  {
    StoreKeepsMemory(l, st, i);
    StoreShows(l, st, i, SlotOf(st.sub.next, l.capacity));
    hide SlotOf, MemInv, Shaped;
  }

  // ---- the subscriber keeps it ----

  lemma MemoryFrame<W>(l: Layout<W>, st: State<W>, st': State<W>)
    requires MemInv(l, st) && Shaped(l, st')
    requires st'.mem == st.mem && st'.writer == st.writer && st'.sent == st.sent && st'.log == st.log
    requires st'.last == st.last
    ensures MemInv(l, st')
  {
    hide SlotOf, Laid;
    forall s | 0 <= s < l.capacity ensures SlotOk(l, st', s) {
      assert SlotOk(l, st, s);
    }
    forall q | 0 <= q < Completed(st') ensures Covered(l, st', q) {
      assert Covered(l, st, q);
    }
    forall q | 0 <= q < |st'.log| ensures LogOk(l, st', q) {
      assert LogOk(l, st, q);
    }
  }

  /** A load leaves the memory and the publisher alone. */
  lemma LoadKeepsMemory<W>(l: Layout<W>, st: State<W>, i: nat)
    requires MemInv(l, st)
    ensures MemInv(l, ReaderStep(l, st, i))
  {
    LoadShaped(l, st, i);
    MemoryFrame(l, st, ReaderStep(l, st, i)) by {
      hide SlotOf, MemInv, Shaped;
    }
    hide *;
  }

  /** At the last check of a copy whose version still stands, the subscriber holds one whole published message,
      and no older than the one it wants. */
  lemma CopyIsWhole<W>(l: Layout<W>, st: State<W>)
    requires RingInv(l, st) && st.sub.pc.RCopy? && st.sub.pc.todo == {}
    requires st.mem.slots[SlotOf(st.sub.next, l.capacity)].version == st.sub.pc.v
    ensures var q := st.sub.pc.seqno;
      && st.sub.next <= q < Completed(st) && st.sub.out == st.log[q]
      && q == st.last[SlotOf(st.sub.next, l.capacity)]
  {
    hide SlotOf;
    var s := SlotOf(st.sub.next, l.capacity);
    assert SlotOk(l, st, s) && Covered(l, st, st.sub.next);
    assert st.sub.out == st.mem.slots[s].words;
  }

  /** The version the subscriber loaded still stands at the end of its copy. */
  predicate Stands<W>(l: Layout<W>, st: State<W>)
    requires Shaped(l, st)
  {
    && st.sub.pc.RCopy? && st.sub.pc.todo == {}
    && st.mem.slots[SlotOf(st.sub.next, l.capacity)].version == st.sub.pc.v
  }

  lemma LoadKeepsReading<W>(l: Layout<W>, st: State<W>, i: nat)
    requires RingInv(l, st)
    ensures Shaped(l, ReaderStep(l, st, i)) && ReadingOk(l, ReaderStep(l, st, i))
  {
    LoadShaped(l, st, i);
    hide SlotOf, SlotOk, Covered, WriterOk, Shaped;
  }

  lemma DeliverKeeps<W>(st: State<W>)
    requires Received(st) && st.sub.next < st.mem.writeSeq && st.sub.out == st.log[st.sub.next]
    ensures Received(Deliver(st))
  {
  }

  lemma MissKeeps<W>(st: State<W>, gap: nat)
    requires Received(st) && st.sub.next + gap <= st.mem.writeSeq
    ensures Received(Miss(st, gap))
  {
  }

  lemma StandsKeepsReceived<W>(l: Layout<W>, st: State<W>, i: nat)
    requires RingInv(l, st) && Stands(l, st)
    ensures Received(ReaderStep(l, st, i))
  {
    CopyIsWhole(l, st);
    var seqno := st.sub.pc.seqno;
    if seqno == st.sub.next {
      assert ReaderStep(l, st, i) == Deliver(st);
      DeliverKeeps(st);
    } else {
      assert ReaderStep(l, st, i) == Miss(st, seqno - st.sub.next);
      MissKeeps(st, seqno - st.sub.next);
    }
    hide *;
  }

  lemma LoadKeepsReceived<W>(l: Layout<W>, st: State<W>, i: nat)
    requires RingInv(l, st)
    ensures Received(ReaderStep(l, st, i))
  {
    hide SlotOf, MemInv, Shaped;
    InvShaped(l, st);
    if Stands(l, st) {
      StandsKeepsReceived(l, st, i);
    } else {
      var st' := ReaderStep(l, st, i);
      if st'.sub.gaps > st.sub.gaps {
        MissKeeps(st, st'.sub.next - st.sub.next);
      } else {
        GotoKeeps(st, st');
      }
    }
  }

  lemma GotoKeeps<W>(st: State<W>, st': State<W>)
    requires Received(st) && st'.mem == st.mem && st'.log == st.log && st'.at == st.at && !st'.late
    requires st'.sub.received == st.sub.received && st'.sub.missed == st.sub.missed && st'.sub.next == st.sub.next
    ensures Received(st')
  {
  }

  lemma LoadInv<W>(l: Layout<W>, st: State<W>, i: nat)
    requires RingInv(l, st)
    ensures RingInv(l, ReaderStep(l, st, i))
  {
    hide MemInv, ReadingOk, Received, ReaderStep;
    LoadKeepsMemory(l, st, i);
    LoadKeepsReading(l, st, i);
    LoadKeepsReceived(l, st, i);
  }

  lemma StepInv<W>(l: Layout<W>, st: State<W>, a: Action<W>)
    requires RingInv(l, st)
    ensures RingInv(l, Step(l, st, a))
  {
    match a {
      case Publish(m) => BeginInv(l, st, m);
      case Close => MarkEofInv(l, st);
      case Store(i) => StoreInv(l, st, i);
      case Load(i) => LoadInv(l, st, i);
    }
  }

  lemma {:induction false} RunInv<W>(l: Layout<W>, st: State<W>, actions: seq<Action<W>>)
    requires RingInv(l, st)
    ensures RingInv(l, Run(l, st, actions))
  {
    hide RingInv, Step;
    assert Shaped(l, st) by { InvShaped(l, st); }
    if actions != [] {
      RunInv(l, st, actions[..|actions| - 1]);
      StepInv(l, Run(l, st, actions[..|actions| - 1]), actions[|actions| - 1]);
    }
  }

  lemma InvShaped<W>(l: Layout<W>, st: State<W>)
    requires RingInv(l, st)
    ensures Shaped(l, st)
  {
  }

  // ---- what the ring guarantees ----

  /** The payload starts with the message, as far as that fits. */
  ghost predicate StartsWith<W>(l: Layout<W>, payload: seq<W>, m: seq<W>) {
    |payload| == l.words && payload[..Size(l, m)] == m[..Size(l, m)]
  }

  /** In every interleaving, what the subscriber has received is, message by message, what was published under the
      sequence it wanted, in order and never torn; with the reported gaps it accounts for every sequence up to
      `next`; and no read ends on an older message. */
  lemma DeliveredWhole<W>(l: Layout<W>, actions: seq<Action<W>>)
    requires l.capacity > 0
    ensures var st := Run(l, Launch(l), actions);
      && |st.at| == |st.sub.received| && |st.sent| == |st.log|
      && |st.sub.received| + st.sub.missed == st.sub.next <= st.mem.writeSeq <= |st.log|
      && (forall k :: 0 <= k < |st.at| ==>
            && st.at[k] < st.sub.next && st.sub.received[k] == st.log[st.at[k]]
            && StartsWith(l, st.sub.received[k], st.sent[st.at[k]]))
      && (forall j, k :: 0 <= j < k < |st.at| ==> st.at[j] < st.at[k])
      && !st.late
  {
    hide MemInv, ReadingOk, StartsWith;
    LaunchInv(l);
    RunInv(l, Launch(l), actions);
    var st := Run(l, Launch(l), actions);
    assert |st.sent| == |st.log| by { InvShaped(l, st); }
    forall k | 0 <= k < |st.at| ensures StartsWith(l, st.sub.received[k], st.sent[st.at[k]]) {
      LogFits(l, st, st.at[k]);
    }
  }

  lemma LogFits<W>(l: Layout<W>, st: State<W>, q: nat)
    requires MemInv(l, st) && q < |st.log|
    ensures |st.sent| == |st.log| && StartsWith(l, st.log[q], st.sent[q])
    ensures |st.sent[q]| == l.words ==> st.log[q] == st.sent[q]
  {
    hide SlotOf, SlotOk, Covered, WriterOk;
    LogStarts(l, st, q);
  }

  /** What a payload holds besides its message is what its slot held a lap earlier. */
  lemma ShortMessages<W>(l: Layout<W>, actions: seq<Action<W>>, q: nat)
    requires l.capacity > 0
    ensures var st := Run(l, Launch(l), actions);
      q < |st.log| ==> |st.sent| == |st.log| && st.log[q] == Laid(Before(l, st.log, q), st.sent[q])
  {
    hide SlotOk, Covered, WriterOk, ReadingOk, Received;
    LaunchInv(l);
    RunInv(l, Launch(l), actions);
    var st := Run(l, Launch(l), actions);
    if q < |st.log| {
      assert LogOk(l, st, q);
    }
  }

  /** What one load brings about. It delivers the message wanted, as published, exactly at the last check of a copy
      that is still whole and carries that message's sequence; it reports a gap, of as much as the cursor moves,
      exactly when such a copy carries a later sequence, the cursor is more than a lap behind, or the last attempt is
      spent; and any other load delivers and reports nothing. */
  lemma LoadAnswers<W>(l: Layout<W>, st: State<W>, i: nat)
    requires RingInv(l, st)
    ensures Shaped(l, st)
    ensures var sub, sub', pc := st.sub, Step(l, st, Load(i)).sub, st.sub.pc;
      var whole := pc.RCopy? && pc.todo == {} && st.mem.slots[SlotOf(sub.next, l.capacity)].version == pc.v;
      var late := pc.RIdle? && st.mem.writeSeq > sub.next + l.capacity;
      if whole && pc.seqno == sub.next then
        && sub.next < |st.log| && sub'.received == sub.received + [st.log[sub.next]] && sub'.next == sub.next + 1
        && sub'.missed == sub.missed && sub'.gaps == sub.gaps
      else if whole || late || (pc.RAttempt? && pc.k >= ATTEMPTS) then
        && sub'.received == sub.received && sub'.next > sub.next
        && sub'.missed == sub.missed + (sub'.next - sub.next) && sub'.gaps == sub.gaps + 1
      else
        sub'.received == sub.received && sub'.next == sub.next && sub'.missed == sub.missed && sub'.gaps == sub.gaps
  {
    hide SlotOf, MemInv;
    InvShaped(l, st);
    if Stands(l, st) {
      CopyIsWhole(l, st);
    }
  }

  /** A subscriber that has found nothing to read had indeed reached what was published. */
  lemma EmptyMeans<W>(l: Layout<W>, st: State<W>, i: nat)
    requires RingInv(l, st)
    ensures Shaped(l, st)
    ensures Step(l, st, Load(i)).sub.pc.REmpty? <==> st.sub.pc.RIdle? && st.sub.next == st.mem.writeSeq
  {
    hide SlotOf, MemInv;
    InvShaped(l, st);
    if Stands(l, st) {
      CopyIsWhole(l, st);
    }
  }

  /** An increasing sequence of naturals that fills the numbers below its length is the identity. */
  lemma {:induction false} Identity(at: seq<nat>, k: nat)
    requires forall j, k :: 0 <= j < k < |at| ==> at[j] < at[k]
    requires forall k :: 0 <= k < |at| ==> at[k] < |at|
    requires k < |at|
    ensures at[k] == k
  {
    AtLeast(at, k);
    AtMost(at, k);
  }

  lemma {:induction false} AtLeast(at: seq<nat>, k: nat)
    requires (forall j, k :: 0 <= j < k < |at| ==> at[j] < at[k]) && k < |at|
    ensures at[k] >= k
  {
    if k > 0 {
      AtLeast(at, k - 1);
    }
  }

  lemma {:induction false} AtMost(at: seq<nat>, k: nat)
    requires (forall j, k :: 0 <= j < k < |at| ==> at[j] < at[k]) && k < |at|
    requires forall k :: 0 <= k < |at| ==> at[k] < |at|
    ensures at[k] <= k
    decreases |at| - k
  {
    if k < |at| - 1 {
      AtMost(at, k + 1);
    }
  }

  /** The subscriber stops only when the publisher has closed and every message published has been received or
      reported missed; if none was missed, it received exactly the feed: the messages themselves where they fill
      their slots. */
  lemma StopsWhenAllAccounted<W>(l: Layout<W>, actions: seq<Action<W>>)
    requires l.capacity > 0
    ensures var st := Run(l, Launch(l), actions); st.sub.pc.RStopped? ==>
      && st.writer.WClosed? && |st.sub.received| + st.sub.missed == |st.log| == st.mem.writeSeq
      && (st.sub.missed == 0 ==> st.sub.received == st.log)
      && (st.sub.missed == 0 && (forall q :: 0 <= q < |st.sent| ==> |st.sent[q]| == l.words) ==>
            st.sub.received == st.sent)
  {
    hide LogOk, SlotOk, Covered, WriterOk, StartsWith, Laid;
    LaunchInv(l);
    RunInv(l, Launch(l), actions);
    var st := Run(l, Launch(l), actions);
    if st.sub.pc.RStopped? && st.sub.missed == 0 {
      forall k | 0 <= k < |st.at| ensures st.sub.received[k] == st.log[k] {
        Identity(st.at, k);
      }
      forall q | 0 <= q < |st.log| ensures |st.sent[q]| == l.words ==> st.log[q] == st.sent[q] {
        LogFits(l, st, q);
      }
    }
  }

  // ---- progress ----

  /** The loads of some attempts: the version, the sequence, each word, the version again. */
  function Budget(words: nat, attempts: nat): nat {
    if attempts == 0 then 0 else Budget(words, attempts - 1) + words + 3
  }

  lemma {:induction false} BudgetIs(words: nat, attempts: nat)
    ensures Budget(words, attempts) == attempts * (words + 3)
  {
    if attempts > 0 {
      BudgetIs(words, attempts - 1);
    }
  }

  /** Loads left, at most, before the read in progress returns. */
  function ReadRank<W>(l: Layout<W>, pc: ReaderPc): nat {
    match pc
    case RAttempt(k) => if k < ATTEMPTS then Budget(l.words, ATTEMPTS - k) + 1 else 1
    case RSeq(k, _) => if k < ATTEMPTS then Budget(l.words, ATTEMPTS - k) else 0
    case RCopy(k, _, _, todo) => if k < ATTEMPTS then Budget(l.words, ATTEMPTS - k - 1) + 2 + |todo| else 0
    case _ => 0
  }

  predicate Loads<W>(st: State<W>, i: nat) {
    st.sub.pc.RCopy? && st.sub.pc.todo != {} ==> i in st.sub.pc.todo
  }

  lemma InAttempt<W>(l: Layout<W>, st: State<W>)
    requires RingInv(l, st)
    ensures Shaped(l, st)
    ensures st.sub.pc.RSeq? || st.sub.pc.RCopy? ==> st.sub.pc.k < ATTEMPTS
    ensures st.sub.pc.RCopy? ==> st.sub.pc.todo <= All(l.words)
  {
  }

  /** Reading is wait-free: every load brings a read nearer to its return, whatever the publisher stores meanwhile. */
  lemma ReadIsWaitFree<W>(l: Layout<W>, st: State<W>, i: nat)
    requires RingInv(l, st) && Loads(st, i) && (st.sub.pc.RAttempt? || st.sub.pc.RSeq? || st.sub.pc.RCopy?)
    ensures var after := ReaderStep(l, st, i).sub.pc;
      after.RIdle? || ReadRank(l, after) < ReadRank(l, st.sub.pc)
  {
    hide RingInv, Shaped, ReaderStep, ReadRank;
    InAttempt(l, st);
    match st.sub.pc {
      case RAttempt(k) => AttemptAdvances(l, st, i, k);
      case RSeq(k, v) => SeqAdvances(l, st, i);
      case RCopy(k, v, seqno, todo) =>
        if todo == {} {
          CopyEnds(l, st, i);
        } else {
          CopyAdvances(l, st, i);
        }
    }
  }

  lemma SeqAdvances<W>(l: Layout<W>, st: State<W>, i: nat)
    requires Shaped(l, st) && st.sub.pc.RSeq? && st.sub.pc.k < ATTEMPTS
    ensures ReadRank(l, ReaderStep(l, st, i).sub.pc) < ReadRank(l, st.sub.pc)
  {
    AllSize(l.words);
    var left := ATTEMPTS - st.sub.pc.k;
    assert Budget(l.words, left) == Budget(l.words, left - 1) + l.words + 3;
    hide SlotOf, All, Budget, Shaped;
  }

  lemma CopyAdvances<W>(l: Layout<W>, st: State<W>, i: nat)
    requires Shaped(l, st) && st.sub.pc.RCopy? && st.sub.pc.k < ATTEMPTS
    requires i in st.sub.pc.todo && st.sub.pc.todo <= All(l.words)
    ensures ReadRank(l, ReaderStep(l, st, i).sub.pc) < ReadRank(l, st.sub.pc)
  {
    hide SlotOf, All, Budget, Shaped;
    assert |st.sub.pc.todo - {i}| == |st.sub.pc.todo| - 1;
  }

  lemma AttemptAdvances<W>(l: Layout<W>, st: State<W>, i: nat, k: nat)
    requires Shaped(l, st) && st.sub.pc == RAttempt(k)
    ensures var after := ReaderStep(l, st, i).sub.pc;
      after.RIdle? || ReadRank(l, after) < ReadRank(l, st.sub.pc)
  {
    assert k < ATTEMPTS ==> Budget(l.words, ATTEMPTS - k) == Budget(l.words, ATTEMPTS - (k + 1)) + l.words + 3;
    hide SlotOf, Shaped, Budget;
  }

  lemma CopyEnds<W>(l: Layout<W>, st: State<W>, i: nat)
    requires Shaped(l, st) && st.sub.pc.RCopy? && st.sub.pc.todo == {} && st.sub.pc.k < ATTEMPTS
    ensures var after := ReaderStep(l, st, i).sub.pc;
      after.RIdle? || ReadRank(l, after) < ReadRank(l, st.sub.pc)
  {
    hide SlotOf, Shaped, Budget;
  }

  /** A read that begins has at most `64 * (words + 3) + 1` loads to make. */
  lemma ReadBegins<W>(l: Layout<W>, st: State<W>, i: nat)
    requires Shaped(l, st) && st.sub.pc.RIdle?
    ensures var after := ReaderStep(l, st, i).sub.pc;
      after.RIdle? || after.REmpty? || (after.RAttempt? && ReadRank(l, after) == ATTEMPTS * (l.words + 3) + 1)
  {
    hide SlotOf, Shaped;
    BudgetIs(l.words, ATTEMPTS);
  }

  /** Loads left, at most, before `next` moves on or the subscriber stops, once nothing more will be published. */
  function PcLeft<W>(l: Layout<W>, st: State<W>): nat {
    var top := Budget(l.words, ATTEMPTS) + 2;
    match st.sub.pc
    case RIdle => if st.sub.next >= st.mem.writeSeq then 2 else top
    case REmpty => if st.sub.next >= st.mem.writeSeq then 1 else top + 1
    case RStopped => 0
    case pc => ReadRank(l, pc)
  }

  /** A load advances `next`, or takes a read in progress nearer to its end, or finds the ring empty. */
  lemma LoadAdvances<W>(l: Layout<W>, st: State<W>, i: nat)
    requires RingInv(l, st) && st.writer.WClosed? && !st.sub.pc.RStopped? && Loads(st, i)
    ensures var st' := ReaderStep(l, st, i);
      && st'.mem == st.mem && st'.writer == st.writer && st.sub.next <= st'.sub.next <= st.mem.writeSeq
      && (st'.sub.next == st.sub.next ==> PcLeft(l, st') < PcLeft(l, st))
  {
    var st' := ReaderStep(l, st, i);
    hide Budget, SlotOf, ReadRank, MemInv, ReadingOk;
    assert Shaped(l, st) by { InvShaped(l, st); }
    LoadInv(l, st, i);
    if st.sub.pc.RIdle? || st.sub.pc.REmpty? {
      assert st.mem.eof == st.mem.writeSeq + 1 by { InvEof(l, st); }
      RankAtStart(l);
      hide Shaped, RingInv;
    } else {
      ReadIsWaitFree(l, st, i);
      GapIsPositive(l, st, i);
      hide Shaped;
    }
  }

  lemma InvEof<W>(l: Layout<W>, st: State<W>)
    requires RingInv(l, st) && st.writer.WClosed?
    ensures st.mem.eof == st.mem.writeSeq + 1
  {
  }

  lemma RankAtStart<W>(l: Layout<W>)
    ensures ReadRank(l, RAttempt(0)) == Budget(l.words, ATTEMPTS) + 1
  {
    hide Budget;
  }

  /** A read that returns without reaching the end of the ring has moved `next` on. */
  lemma GapIsPositive<W>(l: Layout<W>, st: State<W>, i: nat)
    requires RingInv(l, st) && (st.sub.pc.RAttempt? || st.sub.pc.RSeq? || st.sub.pc.RCopy?)
    ensures var st' := ReaderStep(l, st, i);
      && (st'.sub.pc.RIdle? ==> st'.sub.next > st.sub.next)
      && (st'.sub.next == st.sub.next ==> st'.sub.pc.RAttempt? || st'.sub.pc.RSeq? || st'.sub.pc.RCopy?)
  {
    if Stands(l, st) {
      CopyIsWhole(l, st);
    }
    hide SlotOf, MemInv, Shaped, Received;
  }

  /** Once the publisher has closed, the subscriber's own loads bring it to its stop. */
  lemma {:induction false} SubscriberStops<W>(l: Layout<W>, st: State<W>) returns (loads: seq<Action<W>>)
    requires RingInv(l, st) && st.writer.WClosed?
    ensures Shaped(l, st) && Run(l, st, loads).sub.pc.RStopped?
    ensures forall k :: 0 <= k < |loads| ==> loads[k].Load?
    decreases st.mem.writeSeq - st.sub.next, PcLeft(l, st)
  {
    hide RingInv, ReaderStep, PcLeft, Shaped;
    assert Shaped(l, st) by { InvShaped(l, st); }
    if st.sub.pc.RStopped? {
      loads := [];
    } else {
      var i: nat := 0;
      if st.sub.pc.RCopy? && st.sub.pc.todo != {} {
        i :| i in st.sub.pc.todo;
      }
      var st' := ReaderStep(l, st, i);
      LoadInv(l, st, i);
      InvShaped(l, st');
      LoadAdvances(l, st, i);
      var rest := SubscriberStops(l, st');
      loads := [Load(i)] + rest;
      RunFirst(l, st, Load(i), rest);
    }
  }

  lemma {:induction false} RunFirst<W>(l: Layout<W>, st: State<W>, a: Action<W>, rest: seq<Action<W>>)
    requires Shaped(l, st) && Shaped(l, Step(l, st, a))
    ensures Run(l, st, [a] + rest) == Run(l, Step(l, st, a), rest)
  {
    hide Shaped, Step;
    var all := [a] + rest;
    if rest == [] {
      assert all[..0] == [] && all == [a];
    } else {
      RunFirst(l, st, a, rest[..|rest| - 1]);
      assert all[..|all| - 1] == [a] + rest[..|rest| - 1];
    }
  }

  // ---- where a gap lands ----

  /** Message `r` is still in its slot, whole. */
  ghost predicate Resident<W>(l: Layout<W>, st: State<W>, r: nat)
    requires Shaped(l, st)
  {
    st.last[SlotOf(r, l.capacity)] == r && !WritingTo(l, st, SlotOf(r, l.capacity))
  }

  /** Messages whose slot has been claimed. */
  function Begun<W>(st: State<W>): nat {
    Completed(st) + if Writing(st) then 1 else 0
  }

  /** The messages resident are the last `capacity` begun, less the one being written. */
  lemma ResidentIff<W>(l: Layout<W>, st: State<W>, r: nat)
    requires MemInv(l, st)
    ensures Resident(l, st, r) <==> r < Completed(st) && Begun(st) <= r + l.capacity
  {
    hide SlotOf;
    var n, s, d := l.capacity, SlotOf(r, l.capacity), Completed(st);
    assert SlotOk(l, st, s);
    SlotLap(r, n);
    if r < d && Begun(st) <= r + n {
      assert Covered(l, st, r);
      SlotsApart(r, st.last[s], n);
      if Writing(st) {
        SlotsApart(r, d, n);
      }
    } else if r + n < d {
      assert Covered(l, st, r + n);
    }
  }

  /** A subscriber that finds itself lapped jumps to the message in its own slot. That loses nothing still resident
      exactly when the slot is the next one the publisher will claim; otherwise whole messages still in the ring
      are counted as missed. */
  lemma LappedLandsOnOldest<W>(l: Layout<W>, st: State<W>, i: nat)
    requires RingInv(l, st) && Stands(l, st) && st.sub.pc.seqno != st.sub.next
    ensures var st' := ReaderStep(l, st, i);
      && st'.sub.next == st.sub.pc.seqno > st.sub.next && Resident(l, st, st'.sub.next)
      && ((forall r: nat :: st.sub.next <= r < st'.sub.next ==> !Resident(l, st, r))
          <==> Begun(st) == st'.sub.next + l.capacity)
  {
    CopyIsWhole(l, st);
    var q := st.sub.pc.seqno;
    assert ReaderStep(l, st, i) == Miss(st, q - st.sub.next);
    assert SlotOk(l, st, SlotOf(st.sub.next, l.capacity));
    assert Resident(l, st, q);
    ResidentIff(l, st, q);
    ResidentIff(l, st, q - 1);
    forall r: nat | st.sub.next <= r < q && Begun(st) == q + l.capacity ensures !Resident(l, st, r) {
      ResidentIff(l, st, r);
    }
    hide *;
  }

  /** A subscriber more than a lap behind jumps to the published count less the capacity. Nothing it passes over
      is resident, and what it lands on is exactly if the publisher has claimed no further slot. */
  lemma FarBehindLands<W>(l: Layout<W>, st: State<W>, i: nat)
    requires RingInv(l, st) && st.sub.pc.RIdle? && st.mem.writeSeq > st.sub.next + l.capacity
    ensures var st' := ReaderStep(l, st, i);
      && st'.sub.next == st.mem.writeSeq - l.capacity > st.sub.next
      && (forall r: nat :: st.sub.next <= r < st'.sub.next ==> !Resident(l, st, r))
      && (Resident(l, st, st'.sub.next) <==> Begun(st) == st.mem.writeSeq)
  {
    hide MemInv, ReadingOk, Received, Resident, SlotOf;
    InvShaped(l, st);
    var q: nat := st.mem.writeSeq - l.capacity;
    assert ReaderStep(l, st, i) == Miss(st, q - st.sub.next);
    ResidentIff(l, st, q);
    forall r: nat | st.sub.next <= r < q ensures !Resident(l, st, r) {
      ResidentIff(l, st, r);
    }
  }

  // A read that has to try again has been outrun: its message is gone.

  /** The publisher has claimed the slot of the wanted message for a later one. */
  predicate Outrun<W>(l: Layout<W>, st: State<W>) {
    Begun(st) > st.sub.next + l.capacity
  }

  predicate Reading(pc: ReaderPc) {
    pc.RAttempt? || pc.RSeq? || pc.RCopy?
  }

  /** A retry, or a version that no longer stands, means that the subscriber has been outrun. */
  ghost predicate TornOk<W>(l: Layout<W>, st: State<W>)
    requires Shaped(l, st)
  {
    var pc, slot := st.sub.pc, st.mem.slots[SlotOf(st.sub.next, l.capacity)];
    Reading(pc) && (pc.k > 0 || (!pc.RAttempt? && slot.version > pc.v)) ==> Outrun(l, st)
  }

  /** Claiming the slot of a published message again takes at least a lap. */
  lemma SameSlotLater<W>(l: Layout<W>, st: State<W>)
    requires Shaped(l, st) && st.sub.next < st.mem.writeSeq
    requires SlotOf(st.mem.writeSeq, l.capacity) == SlotOf(st.sub.next, l.capacity)
    ensures st.mem.writeSeq >= st.sub.next + l.capacity
  {
    if st.mem.writeSeq < st.sub.next + l.capacity {
      SlotsApart(st.sub.next, st.mem.writeSeq, l.capacity);
    }
  }

  lemma StoreTorn<W>(l: Layout<W>, st: State<W>, i: nat)
    requires RingInv(l, st) && TornOk(l, st)
    ensures Shaped(l, WriterStep(l, st, i)) && TornOk(l, WriterStep(l, st, i))
  {
    hide SlotOf, Covered, Received;
    StoreShaped(l, st, i);
    var s, q := SlotOf(st.sub.next, l.capacity), SlotOf(st.mem.writeSeq, l.capacity);
    assert SlotOk(l, st, s);
    if Reading(st.sub.pc) && s == q {
      SameSlotLater(l, st);
    }
  }

  lemma LoadTorn<W>(l: Layout<W>, st: State<W>, i: nat)
    requires RingInv(l, st) && TornOk(l, st)
    ensures Shaped(l, ReaderStep(l, st, i)) && TornOk(l, ReaderStep(l, st, i))
  {
    LoadShaped(l, st, i);
    var s := SlotOf(st.sub.next, l.capacity);
    assert SlotOk(l, st, s);
    if Reading(st.sub.pc) && WritingTo(l, st, s) {
      SameSlotLater(l, st);
    }
    hide SlotOf, Covered, Received, WriterOk;
  }

  lemma StepTorn<W>(l: Layout<W>, st: State<W>, a: Action<W>)
    requires RingInv(l, st) && TornOk(l, st)
    ensures Shaped(l, Step(l, st, a)) && TornOk(l, Step(l, st, a))
  {
    match a {
      case Publish(m) => StepShaped(l, st, a);
      case Close => StepShaped(l, st, a);
      case Store(i) => StoreTorn(l, st, i);
      case Load(i) => LoadTorn(l, st, i);
    }
    hide RingInv, SlotOf, Shaped;
  }

  lemma {:induction false} RunTorn<W>(l: Layout<W>, actions: seq<Action<W>>)
    requires l.capacity > 0
    ensures var st := Run(l, Launch(l), actions); RingInv(l, st) && Shaped(l, st) && TornOk(l, st)
  {
    hide RingInv, TornOk, Shaped, Step;
    LaunchInv(l);
    InvShaped(l, Launch(l));
    RunInv(l, Launch(l), actions);
    InvShaped(l, Run(l, Launch(l), actions));
    if actions == [] {
      LaunchTorn(l);
    } else {
      var before := actions[..|actions| - 1];
      RunTorn(l, before);
      StepTorn(l, Run(l, Launch(l), before), actions[|actions| - 1]);
    }
  }

  lemma LaunchTorn<W>(l: Layout<W>)
    requires l.capacity > 0
    ensures Shaped(l, Launch(l)) && TornOk(l, Launch(l))
  {
    LaunchInv(l);
  }

  /** In every run, a subscriber that gives up after its last attempt steps over one message, and that one is no
      longer resident. The next one is exactly if it has been written and its slot not been claimed again. */
  lemma GivingUpLands<W>(l: Layout<W>, actions: seq<Action<W>>, i: nat)
    requires l.capacity > 0
    ensures var st := Run(l, Launch(l), actions);
      Shaped(l, st) && (st.sub.pc.RAttempt? && st.sub.pc.k >= ATTEMPTS ==>
        && ReaderStep(l, st, i).sub.next == st.sub.next + 1 && !Resident(l, st, st.sub.next)
        && (Resident(l, st, st.sub.next + 1)
            <==> st.sub.next + 1 < Completed(st) && Begun(st) == st.sub.next + 1 + l.capacity))
  {
    hide SlotOf, MemInv, ReadingOk, Received, Run, Resident;
    var st := Run(l, Launch(l), actions);
    RunTorn(l, actions);
    if st.sub.pc.RAttempt? && st.sub.pc.k >= ATTEMPTS {
      ResidentIff(l, st, st.sub.next);
      ResidentIff(l, st, st.sub.next + 1);
    }
  }

  // ---- a subscriber that keeps up ----

  /** The message wanted has not been claimed again, now or at any earlier point of the run. */
  ghost predicate KeepsUp<W>(l: Layout<W>, actions: seq<Action<W>>)
    requires l.capacity > 0
  {
    forall k :: 0 <= k <= |actions| ==> !Outrun(l, Run(l, Launch(l), actions[..k]))
  }

  /** A load of a subscriber that has not been outrun reports no gap. */
  lemma NoGapYet<W>(l: Layout<W>, st: State<W>, i: nat)
    requires RingInv(l, st) && Shaped(l, st) && TornOk(l, st) && !Outrun(l, st)
    ensures Step(l, st, Load(i)).sub.gaps == st.sub.gaps
  {
    hide SlotOf, WriterOk, LogOk, Received;
    var s := SlotOf(st.sub.next, l.capacity);
    LoadAnswers(l, st, i);
    if Stands(l, st) && st.sub.pc.seqno != st.sub.next {
      CopyIsWhole(l, st);
      assert SlotOk(l, st, s);
      if st.sub.pc.seqno < st.sub.next + l.capacity {
        SlotsApart(st.sub.next, st.sub.pc.seqno, l.capacity);
      }
    }
  }

  lemma StoresReportNothing<W>(l: Layout<W>, st: State<W>, a: Action<W>)
    requires Shaped(l, st) && !a.Load?
    ensures Step(l, st, a).sub == st.sub
  {
    hide SlotOf, Shaped;
  }

  /** A subscriber that the publisher has at no point outrun has missed nothing, and has received every message up to
      its cursor, in order: the whole feed, once it has stopped. */
  lemma {:induction false} KeepingUpMissesNothing<W>(l: Layout<W>, actions: seq<Action<W>>)
    requires l.capacity > 0 && KeepsUp(l, actions)
    ensures var st := Run(l, Launch(l), actions);
      && st.sub.missed == 0 && st.sub.gaps == 0 && st.sub.next <= |st.log|
      && st.sub.received == st.log[..st.sub.next]
      && (st.sub.pc.RStopped? ==> st.sub.received == st.log)
  {
    hide Outrun, MemInv, ReadingOk, TornOk, Step;
    RunTorn(l, actions);
    if actions != [] {
      var before, a := actions[..|actions| - 1], actions[|actions| - 1];
      assert forall k :: 0 <= k <= |before| ==> before[..k] == actions[..k];
      KeepingUpMissesNothing(l, before);
      RunTorn(l, before);
      var st := Run(l, Launch(l), before);
      assert !Outrun(l, st);
      if a.Load? {
        NoGapYet(l, st, a.i);
        LoadAnswers(l, st, a.i);
      } else {
        StoresReportNothing(l, st, a);
      }
    }
    ReceivedAll(l, actions);
  }

  lemma ReceivedAll<W>(l: Layout<W>, actions: seq<Action<W>>)
    requires l.capacity > 0 && Run(l, Launch(l), actions).sub.missed == 0
    ensures var st := Run(l, Launch(l), actions);
      && st.sub.next <= |st.log| && st.sub.received == st.log[..st.sub.next]
      && (st.sub.pc.RStopped? ==> st.sub.received == st.log)
  {
    hide Run, StartsWith;
    DeliveredWhole(l, actions);
    StopsWhenAllAccounted(l, actions);
    var st := Run(l, Launch(l), actions);
    forall k | 0 <= k < |st.at| ensures st.sub.received[k] == st.log[k] {
      Identity(st.at, k);
    }
  }

  /** In every interleaving what is delivered is whole and in order, and with the reported gaps all there is up to the
      cursor; and whoever keeps up is delivered all of it. */
  lemma NeverTorn<W>(l: Layout<W>, actions: seq<Action<W>>)
    requires l.capacity > 0
    ensures var st := Run(l, Launch(l), actions);
      && |st.at| == |st.sub.received| && |st.sent| == |st.log|
      && |st.sub.received| + st.sub.missed == st.sub.next <= st.mem.writeSeq <= |st.log|
      && (forall k :: 0 <= k < |st.at| ==>
            && st.at[k] < st.sub.next && st.sub.received[k] == st.log[st.at[k]]
            && StartsWith(l, st.sub.received[k], st.sent[st.at[k]]))
      && (forall j, k :: 0 <= j < k < |st.at| ==> st.at[j] < st.at[k])
      && !st.late
      && (KeepsUp(l, actions) ==>
            st.sub.missed == 0 && st.sub.gaps == 0 && st.sub.received == st.log[..st.sub.next])
  {
    hide Run, StartsWith, KeepsUp;
    DeliveredWhole(l, actions);
    if KeepsUp(l, actions) {
      KeepingUpMissesNothing(l, actions);
    }
  }

  // ---- the publisher's progress ----

  /** Stores left before the message in hand is published. */
  function StoresLeft<W>(l: Layout<W>, st: State<W>): nat
    requires Shaped(l, st)
  {
    match st.writer
    case WOdd(_) => Size(l, st.sent[st.mem.writeSeq]) + 4
    case WSeq(_) => Size(l, st.sent[st.mem.writeSeq]) + 3
    case WCopy(_, todo) => |todo| + 2
    case WPublish => 1
    case _ => 0
  }

  /** Publishing never waits: whatever the subscriber does, each store brings the message in hand nearer to being
      published, and the last one publishes it and no other. */
  lemma StoreAdvances<W>(l: Layout<W>, st: State<W>, i: nat)
    requires RingInv(l, st) && Shaped(l, st) && StoresLeft(l, st) > 0
    requires st.writer.WCopy? && st.writer.todo != {} ==> i in st.writer.todo
    ensures var st' := Step(l, st, Store(i));
      && Shaped(l, st') && StoresLeft(l, st') == StoresLeft(l, st) - 1
      && st'.mem.writeSeq == st.mem.writeSeq + (if StoresLeft(l, st') == 0 then 1 else 0)
      && st'.sent == st.sent && st'.log == st.log
  {
    hide SlotOf, All, SlotOk, LogOk, Covered;
    StoreShaped(l, st, i);
    AllSize(Size(l, st.sent[st.mem.writeSeq]));
    if st.writer.WCopy? && st.writer.todo != {} {
      assert |st.writer.todo - {i}| == |st.writer.todo| - 1;
    }
  }

  /** Beginning a message puts it next in the log, with that many stores to make. */
  lemma PublishBegins<W>(l: Layout<W>, st: State<W>, m: seq<W>)
    requires RingInv(l, st) && Shaped(l, st) && st.writer == WIdle
    ensures var st' := Step(l, st, Publish(m));
      && Shaped(l, st') && st'.sent == st.sent + [m] && |st'.log| == st'.mem.writeSeq + 1
      && StoresLeft(l, st') == Size(l, m) + 4
  {
    hide SlotOf, MemInv;
    StepShaped(l, st, Publish(m));
  }

  /** One message published without interruption, when a payload is one word. */
  function Whole<W>(l: Layout<W>, st: State<W>, m: W): State<W>
    requires Shaped(l, st)
  {
    var q := st.mem.writeSeq;
    var s := SlotOf(q, l.capacity);
    Put(st, s, Slot(st.mem.slots[s].version + 2, q, [m])).(
      sent := st.sent + [[m]], log := st.log + [[m]], last := st.last[s := q], writer := WIdle,
      mem := Memory(st.mem.slots[s := Slot(st.mem.slots[s].version + 2, q, [m])], q + 1, st.mem.eof))
  }

  function WholeActions<W>(m: W): seq<Action<W>> {
    [Publish([m])] + ([Store(0)] + ([Store(0)] + ([Store(0)] + ([Store(0)] + ([Store(0)] + [])))))
  }

  /** After the odd version and the sequence: the first half of publishing `m`. */
  function Claimed<W>(l: Layout<W>, st: State<W>, m: W): State<W>
    requires Shaped(l, st)
  {
    var q := st.mem.writeSeq;
    var s := SlotOf(q, l.capacity);
    var slot := st.mem.slots[s];
    Put(st, s, slot.(version := slot.version + 1, seqno := q)).(
      sent := st.sent + [[m]], log := st.log + [[m]], writer := WCopy(slot.version, All(1)))
  }

  lemma ClaimSteps<W>(l: Layout<W>, st: State<W>, m: W) returns (s1: State<W>, s2: State<W>)
    requires Shaped(l, st) && l.words == 1 && st.writer == WIdle
    ensures s1 == Step(l, st, Publish([m])) && Shaped(l, s1)
    ensures s2 == Step(l, s1, Store(0)) && Shaped(l, s2)
    ensures Step(l, s2, Store(0)) == Claimed(l, st, m) && Shaped(l, Claimed(l, st, m))
  {
    var s := SlotOf(st.mem.writeSeq, l.capacity);
    var slot := st.mem.slots[s];
    hide SlotOf, All;
    StepShaped(l, st, Publish([m]));
    assert Laid(slot.words, [m]) == [m];
    s1 := st.(writer := WOdd(slot.version), sent := st.sent + [[m]], log := st.log + [[m]]);
    StoreShaped(l, s1, 0);
    s2 := Put(s1, s, slot.(version := slot.version + 1)).(writer := WSeq(slot.version));
    StoreShaped(l, s2, 0);
    hide Shaped;
    assert Claimed(l, st, m).mem.slots == s2.mem.slots[s := s2.mem.slots[s].(seqno := st.mem.writeSeq)];
  }

  lemma AllOne()
    ensures All(1) == {0} && {0} - {0} == {}
  {
    assert All(0) == {};
  }

  /** After the word: the payload is there, the version still odd. */
  function Filled<W>(l: Layout<W>, st: State<W>, m: W): State<W>
    requires Shaped(l, st) && Shaped(l, Claimed(l, st, m))
  {
    var q := st.mem.writeSeq;
    var s := SlotOf(q, l.capacity);
    var v := st.mem.slots[s].version;
    Put(Claimed(l, st, m), s, Slot(v + 1, q, [m])).(writer := WCopy(v, {}))
  }

  lemma FillWord<W>(l: Layout<W>, st: State<W>, m: W)
    requires Shaped(l, st) && l.words == 1 && st.writer == WIdle && Shaped(l, Claimed(l, st, m))
    ensures Step(l, Claimed(l, st, m), Store(0)) == Filled(l, st, m) && Shaped(l, Filled(l, st, m))
  {
    hide SlotOf, All;
    AllOne();
    var q, s3 := st.mem.writeSeq, Claimed(l, st, m);
    var s := SlotOf(q, l.capacity);
    assert st.mem.slots[s].words[0 := m] == [m] && s3.mem.slots[s].words == st.mem.slots[s].words && s3.log[q] == [m];
    StoreShaped(l, s3, 0);
  }

  lemma FillSteps<W>(l: Layout<W>, st: State<W>, m: W) returns (s4: State<W>, s5: State<W>)
    requires Shaped(l, st) && l.words == 1 && st.writer == WIdle && Shaped(l, Claimed(l, st, m))
    ensures s4 == Step(l, Claimed(l, st, m), Store(0)) && Shaped(l, s4)
    ensures s5 == Step(l, s4, Store(0)) && Shaped(l, s5)
    ensures Step(l, s5, Store(0)) == Whole(l, st, m) && Shaped(l, Whole(l, st, m))
  {
    hide SlotOf, All;
    FillWord(l, st, m);
    var q := st.mem.writeSeq;
    var s := SlotOf(q, l.capacity);
    var v := st.mem.slots[s].version;
    s4 := Filled(l, st, m);
    StoreShaped(l, s4, 0);
    s5 := Put(s4, s, Slot(v + 2, q, [m])).(writer := WPublish, last := st.last[s := q]);
    StoreShaped(l, s5, 0);
    assert s5.mem.slots == Whole(l, st, m).mem.slots;
  }

  lemma WholeIsRun<W>(l: Layout<W>, st: State<W>, m: W)
    requires Shaped(l, st) && l.words == 1 && st.writer == WIdle
    ensures Run(l, st, WholeActions(m)) == Whole(l, st, m)
  {
    hide Run;
    hide Step, Shaped, Whole, Claimed;
    var s1, s2 := ClaimSteps(l, st, m);
    var s3 := Claimed(l, st, m);
    var s4, s5 := FillSteps(l, st, m);
    var s6 := Whole(l, st, m);
    RunNone(l, s6);
    RunFirst(l, s5, Store(0), []);
    RunFirst(l, s4, Store(0), [Store(0)] + []);
    RunFirst(l, s3, Store(0), [Store(0)] + ([Store(0)] + []));
    RunFirst(l, s2, Store(0), [Store(0)] + ([Store(0)] + ([Store(0)] + [])));
    RunFirst(l, s1, Store(0), [Store(0)] + ([Store(0)] + ([Store(0)] + ([Store(0)] + []))));
    RunFirst(l, st, Publish([m]), [Store(0)] + ([Store(0)] + ([Store(0)] + ([Store(0)] + ([Store(0)] + [])))));
  }

  lemma RunNone<W>(l: Layout<W>, st: State<W>)
    requires Shaped(l, st)
    ensures Run(l, st, []) == st
  {
  }

  lemma {:induction false} RunConcat<W>(l: Layout<W>, st: State<W>, a: seq<Action<W>>, b: seq<Action<W>>)
    requires Shaped(l, st)
    ensures Run(l, st, a + b) == Run(l, Run(l, st, a), b)
  {
    hide Shaped, Step;
    if b == [] {
      assert a + b == a;
    } else {
      RunConcat(l, st, a, b[..|b| - 1]);
      assert (a + b)[..|a + b| - 1] == a + b[..|b| - 1];
    }
  }

  function LoadsOfOneRead(): seq<Action<int>> {
    [Load(0)] + ([Load(0)] + ([Load(0)] + ([Load(0)] + [])))
  }

  lemma LappedRead(l: Layout<int>, st: State<int>)
    requires Shaped(l, st) && l == Layout(2, 1, 0) && st.writer == WIdle && st.last == [2, 1]
    requires st.mem == Memory([Slot(4, 2, [30]), Slot(2, 1, [20])], 3, 0)
    requires st.sub == Subscriber(RAttempt(0), 0, [0], [], 0, 0)
    ensures var st' := Run(l, st, LoadsOfOneRead());
      st'.sub.next == 2 && st'.sub.missed == 2 && st'.sub.received == [] && Resident(l, st', 1)
  {
    var s1 := ReaderStep(l, st, 0);
    assert s1 == Goto(st, RSeq(0, 4));
    var s2 := ReaderStep(l, s1, 0);
    assert s2 == Goto(st, RCopy(0, 4, 2, All(1)));
    var s3 := ReaderStep(l, s2, 0);
    assert All(1) - {0} == {};
    assert s3 == Goto(st, RCopy(0, 4, 2, {})).(sub := s2.sub.(pc := RCopy(0, 4, 2, {}), out := [30]));
    var s4 := ReaderStep(l, s3, 0);
    assert s4 == Miss(s3, 2);
    hide Run, ReaderStep;
    RunFirst(l, s3, Load(0), []);
    RunFirst(l, s2, Load(0), [Load(0)] + []);
    RunFirst(l, s1, Load(0), [Load(0)] + ([Load(0)] + []));
    RunFirst(l, st, Load(0), [Load(0)] + ([Load(0)] + ([Load(0)] + [])));
    RunNone(l, s4);
  }

  /** A one-word message into the first or the second of two slots. */
  lemma WholeOfTwo(st: State<int>, m: int)
    requires Shaped(Layout(2, 1, 0), st) && st.writer == WIdle
    ensures var q, st' := st.mem.writeSeq, Whole(Layout(2, 1, 0), st, m); var s := SlotOf(q, 2);
      && |st'.mem.slots| == |st'.last| == 2 && s < 2
      && st'.mem.slots[s] == Slot(st.mem.slots[s].version + 2, q, [m]) && st'.mem.slots[1 - s] == st.mem.slots[1 - s]
      && st'.last[s] == q && st'.last[1 - s] == st.last[1 - s]
      && st'.mem.writeSeq == q + 1 && st'.mem.eof == st.mem.eof && st'.writer == WIdle && st'.sub == st.sub
  {
    hide SlotOf, Shaped;
    InTwo(st);
  }

  lemma InTwo(st: State<int>)
    requires Shaped(Layout(2, 1, 0), st)
    ensures |st.mem.slots| == |st.last| == 2 && SlotOf(st.mem.writeSeq, 2) < 2
  {
  }

  lemma SlotsOfThree()
    ensures SlotOf(0, 2) == 0 && SlotOf(1, 2) == 1 && SlotOf(2, 2) == 0
  {
    assert SlotOf(1, 2) == Next(SlotOf(0, 2), 2);
  }

  lemma LaunchOfTwo(s0: State<int>)
    requires s0 == Launch(Layout(2, 1, 0))
    ensures Shaped(Layout(2, 1, 0), s0) && s0.writer == WIdle && s0.mem.writeSeq == 0 && s0.mem.eof == 0
    ensures |s0.mem.slots| == |s0.last| == 2 && s0.mem.slots[0] == s0.mem.slots[1] == Slot(0, 0, [0])
    ensures s0.last[0] == s0.last[1] == -1
    ensures s0.sub == Subscriber(RIdle, 0, [0], [], 0, 0)
  {
  }

  lemma ThreePublished(s0: State<int>) returns (s1: State<int>, s2: State<int>, s3: State<int>, s4: State<int>)
    requires s0 == Launch(Layout(2, 1, 0))
    ensures var l := Layout(2, 1, 0);
      && Shaped(l, s0) && s1 == Whole(l, s0, 10) && Shaped(l, s1) && s2 == ReaderStep(l, s1, 0) && Shaped(l, s2)
      && s0.writer == s2.writer == WIdle
      && s3 == Whole(l, s2, 20) && Shaped(l, s3) && s3.writer == WIdle && s4 == Whole(l, s3, 30) && Shaped(l, s4)
      && s4.writer == WIdle && s4.last == [2, 1] && s4.mem == Memory([Slot(4, 2, [30]), Slot(2, 1, [20])], 3, 0)
      && s4.sub == Subscriber(RAttempt(0), 0, [0], [], 0, 0)
  {
    hide Whole, SlotOf, Shaped, Launch, WholeActions, Step;
    var l := Layout(2, 1, 0);
    SlotsOfThree();
    LaunchOfTwo(s0);
    s1 := Whole(l, s0, 10);
    WholeOfTwo(s0, 10);
    WholeIsShaped(s0, 10);
    s2 := ReaderStep(l, s1, 0);
    LoadShaped(l, s1, 0);
    s3 := Whole(l, s2, 20);
    WholeOfTwo(s2, 20);
    WholeIsShaped(s2, 20);
    s4 := Whole(l, s3, 30);
    WholeOfTwo(s3, 30);
    WholeIsShaped(s3, 30);
    assert s4.mem.slots == [s4.mem.slots[0], s4.mem.slots[1]] && s4.last == [s4.last[0], s4.last[1]];
  }

  lemma WholeIsShaped(st: State<int>, m: int)
    requires Shaped(Layout(2, 1, 0), st) && st.writer == WIdle
    ensures Shaped(Layout(2, 1, 0), Whole(Layout(2, 1, 0), st, m))
  {
    hide Shaped, Whole, Step, Claimed;
    var s1, s2 := ClaimSteps(Layout(2, 1, 0), st, m);
    var s4, s5 := FillSteps(Layout(2, 1, 0), st, m);
  }

  /** It happens: with two slots, a subscriber that has begun to read message 0 is lapped by messages 1 and 2, and
      reports both 0 and 1 missed although 1 is still in the ring. */
  lemma GapSkipsResident() returns (actions: seq<Action<int>>)
    ensures var l := Layout(2, 1, 0); var st := Run(l, Launch(l), actions);
      st.sub.next == 2 && st.sub.missed == 2 && st.sub.received == [] && Resident(l, st, 1)
  {
    hide Launch, Whole, ReaderStep, Shaped, WholeActions, LoadsOfOneRead, Resident;
    var l := Layout(2, 1, 0);
    var s0 := Launch(l);
    var s1, s2, s3, s4 := ThreePublished(s0);
    actions := WholeActions(10) + [Load(0)] + WholeActions(20) + WholeActions(30) + LoadsOfOneRead();
    LappedRead(l, s4);
    WholeIsRun(l, s0, 10);
    WholeIsRun(l, s2, 20);
    WholeIsRun(l, s3, 30);
    RunFirst(l, s1, Load(0), []);
    RunNone(l, s2);
    assert [Action<int>.Load(0)] + [] == [Load(0)];
    hide Run;
    RunConcat(l, s0, WholeActions(10), [Load(0)]);
    RunConcat(l, s0, WholeActions(10) + [Load(0)], WholeActions(20));
    RunConcat(l, s0, WholeActions(10) + [Load(0)] + WholeActions(20), WholeActions(30));
    RunConcat(l, s0, WholeActions(10) + [Load(0)] + WholeActions(20) + WholeActions(30), LoadsOfOneRead());
  }
}
