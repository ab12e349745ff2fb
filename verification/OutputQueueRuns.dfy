/**
 The queue's thread against its clients (outputq.cpp 203-371 and 374-767, with a thread).  Lock sections,
 downstream calls and unlocked assignments interleave freely.
 */
module OutputQueueRuns {
  import opened HResults
  import opened OutputQueueState

  /** What a plain FIFO would carry. */
  datatype Item<S> = Data(sample: S) | EndOfStream | SegmentStart(segment: Segment)

  /** Where the thread is; `batch` is in its hands. */
  datatype Phase<S> =
    | Top
    | Parked
    | Sending(batch: seq<S>, control: Control)
    | Calling(batch: seq<S>, control: Control)
    | Releasing(batch: seq<S>, control: Control)
    | Controlling(control: Control)
    | Answering                       // m_hr has been reset, and the event is about to be set
    | Gone

  /** Where a client that flushes is: EndFlush turns m_bFlushing off and then sets m_bFlushed, without the lock. */
  datatype Flush = NoFlush | Quick | Begun | Waited | Unmarked | Ended

  /** `input` is what clients queued, `output` the downstream calls made, `done` what the queue is through with;
      `received` and `released` count sample references; `passed` are NewSegment calls past their check of m_hr, and
      `resetters` is how many clients wait in Reset for the event that a flush waits for too. */
  datatype System<S> = System(
    q: Queue<S>, thread: Phase<S>, flush: Flush, resetters: nat, passed: multiset<Segment>,
    input: seq<Item<S>>, done: seq<Item<S>>, output: seq<Item<S>>,
    received: multiset<S>, released: multiset<S>, clean: bool)

  datatype Settings = Settings(size: nat, exact: bool, flushingOpt: bool)

  datatype Step<S> =
    | Receive(samples: seq<S>)
    | QueueEos
    | CheckSegment(segment: Segment)
    | QueueSegment(segment: Segment)
    | SendAnyway
    | QueueReset
    | ResetReturns
    | BeginFlush
    | EndFlushQuick
    | EndFlushWait
    | EndFlushOff
    | EndFlushMark
    | EndFlushLast
    | Terminate
    | Fetch
    | Wake
    | Deliver
    | Return(hr: HRESULT)
    | ReleaseBatch
    | Control
    | Answer

  function Start<S>(): System<S> {
    System(OutputQueueState.Initial(), Top, NoFlush, 0, multiset{}, [], [], [], multiset{}, multiset{}, true)
  }

  // ---------- items ----------

  function Wrapped<S>(ss: seq<S>): seq<Item<S>> {
    if ss == [] then [] else Wrapped(ss[..|ss| - 1]) + [Data(ss[|ss| - 1])]
  }

  function OfPacket<S>(p: Packet<S>): seq<Item<S>> {
    match p
    case Sample(x) => [Data(x)]
    case EosPacket => [EndOfStream]
    case Parameters(segment) => [SegmentStart(segment)]
    case _ => []
  }

  function OfList<S>(list: seq<Packet<S>>): seq<Item<S>> {
    if list == [] then [] else OfPacket(list[0]) + OfList(list[1..])
  }

  function OfControl<S>(c: Control): seq<Item<S>> {
    match c
    case Eos => [EndOfStream]
    case NewSegment(segment) => [SegmentStart(segment)]
    case _ => []
  }

  /** Taken off the list but not yet passed on or dropped. */
  function InFlight<S>(t: Phase<S>): seq<Item<S>> {
    match t
    case Sending(batch, control) => Wrapped(batch) + OfControl(control)
    case Calling(_, control) => OfControl(control)
    case Releasing(_, control) => OfControl(control)
    case Controlling(control) => OfControl(control)
    case _ => []
  }

  function InQueue<S>(q: Queue<S>): seq<Item<S>> {
    Wrapped(q.batch) + OfList(q.list)
  }

  /** Samples in the thread's hands whose references it still has to release. */
  function Hand<S>(t: Phase<S>): multiset<S> {
    if t.Sending? || t.Calling? || t.Releasing? then multiset(t.batch) else multiset{}
  }

  function OnList<S>(list: seq<Packet<S>>): multiset<S> {
    if list == [] then multiset{}
    else (if list[0].Sample? then multiset{list[0].sample} else multiset{}) + OnList(list[1..])
  }

  function Held<S>(q: Queue<S>): multiset<S> {
    multiset(q.batch) + OnList(q.list)
  }

  // ---------- steps ----------

  ghost predicate Enabled<S>(s: System<S>, step: Step<S>, o: Settings) {
    match step
    case CheckSegment(_) => s.q.hr == S_OK
    case QueueSegment(segment) => segment in s.passed
    case ResetReturns => s.resetters > 0 && s.q.flushComplete
    case BeginFlush => s.flush.NoFlush?
    case EndFlushQuick => (s.flush.Quick? || s.flush.Begun?) && o.flushingOpt && s.q.flushed
    case EndFlushWait => (s.flush.Quick? || s.flush.Begun?) && !(o.flushingOpt && s.q.flushed) && s.q.flushComplete
    case EndFlushOff => s.flush.Waited?
    case EndFlushMark => s.flush.Unmarked?
    case EndFlushLast => s.flush.Ended?
    case Fetch => s.thread.Top?
    case Wake => s.thread.Parked? && s.q.sem > 0
    case Deliver => s.thread.Sending?
    case Return(_) => s.thread.Calling?
    case ReleaseBatch => s.thread.Releasing?
    case Control => s.thread.Controlling?
    case Answer => s.thread.Answering?
    case _ => true
  }

  ghost function Next<S>(s: System<S>, step: Step<S>, o: Settings): System<S>
    requires Enabled(s, step, o) && WellPaired(s.q.list)
  {
    match step
    case Receive(ss) => AfterReceive(s, ss, o)
    case QueueEos => s.(q := EosQueued(s.q), input := if s.q.hr == S_OK then s.input + [EndOfStream] else s.input)
    case CheckSegment(segment) => s.(passed := s.passed + multiset{segment})
    case QueueSegment(segment) =>
      s.(q := Queued(s.q, [NewSegmentMark, Parameters(segment)]), input := s.input + [SegmentStart(segment)],
          passed := s.passed - multiset{segment})
    case SendAnyway => s.(q := Queued(s.q, [SendPacket]))
    case QueueReset => s.(q := Queued(s.q, [ResetPacket]), resetters := s.resetters + 1)
    case ResetReturns => s.(q := s.q.(flushComplete := false), resetters := s.resetters - 1)
    case BeginFlush =>
      s.(q := BeginFlushed(s.q, o.flushingOpt),
         flush := if s.q.flushed && o.flushingOpt then Quick else Begun, clean := false)
    case EndFlushQuick => s.(q := s.q.(flushing := false, hr := S_OK), flush := NoFlush)
    case EndFlushWait => s.(q := s.q.(flushComplete := false), flush := Waited)
    case EndFlushOff => s.(q := s.q.(flushing := false), flush := Unmarked)
    case EndFlushMark => s.(q := s.q.(flushed := true), flush := Ended)
    case EndFlushLast => s.(q := s.q.(hr := S_OK), flush := NoFlush)
    case Terminate => s.(q := Notified(s.q.(terminate := true, hr := S_FALSE)), clean := false)
    case Fetch => AfterFetch(s, o)
    case Wake => s.(q := s.q.(sem := s.q.sem - 1), thread := Top)
    case Deliver => AfterDeliver(s, s.thread.batch, s.thread.control)
    case Return(hr) =>
      s.(q := if s.q.hr == S_OK then s.q.(hr := hr) else s.q, thread := Releasing(s.thread.batch, s.thread.control),
         clean := s.clean && hr == S_OK)
    case ReleaseBatch => s.(thread := Controlling(s.thread.control), released := s.released + multiset(s.thread.batch))
    case Control => AfterControl(s, s.thread.control)
    case Answer => s.(thread := Top, q := s.q.(flushComplete := true))
  }

  ghost function AfterReceive<S>(s: System<S>, ss: seq<S>, o: Settings): System<S> {
    var s1 := s.(q := Received(s.q, ss, o.size, o.exact), received := s.received + multiset(ss));
    if s.q.hr == S_OK then s1.(input := s.input + Wrapped(ss)) else s1.(released := s.released + multiset(ss))
  }

  ghost function AfterFetch<S>(s: System<S>, o: Settings): System<S>
    requires WellPaired(s.q.list)
  {
    var (q, f) := OutputQueueState.Fetch(s.q, o.size, o.exact);
    var s1 := if s.q.terminate || s.q.flushing then Dropped(s) else s;
    var thread := match f
      case Terminated => Gone
      case Parks => Parked
      case Sends(batch, control) => Sending(batch, control);
    s1.(q := q, thread := thread)
  }

  /** FreeSamples releases what is in the queue. */
  ghost function Dropped<S>(s: System<S>): System<S> {
    s.(done := s.done + InQueue(s.q), released := s.released + Held(s.q))
  }

  /** The batch goes downstream unless there has been an error; without a batch there is nothing to do. */
  ghost function AfterDeliver<S>(s: System<S>, batch: seq<S>, control: OutputQueueState.Control): System<S> {
    if batch == [] then s.(thread := Controlling(control))
    else if s.q.hr == S_OK then s.(thread := Calling(batch, control), output := s.output + Wrapped(batch),
        done := s.done + Wrapped(batch))
    else s.(thread := Releasing(batch, control), done := s.done + Wrapped(batch))
  }

  ghost function AfterControl<S>(s: System<S>, control: OutputQueueState.Control): System<S> {
    var s1 := s.(thread := Top, done := s.done + OfControl(control));
    match control
    case Eos => if s.q.hr == S_OK then s1.(output := s.output + [EndOfStream]) else s1
    case NewSegment(segment) => s1.(output := s.output + [SegmentStart(segment)])
    case Reset => s1.(thread := Answering, q := s.q.(hr := S_OK))
    case _ => s1
  }

  // ---------- what every step keeps ----------

  /** a is b with some items left out. */
  ghost predicate Subsequence<T>(a: seq<T>, b: seq<T>) {
    a == [] || (b != [] && (Subsequence(a, b[..|b| - 1])
        || (a[|a| - 1] == b[|b| - 1] && Subsequence(a[..|a| - 1], b[..|b| - 1]))))
  }

  /** What was queued is what is done with, then what the thread holds, then the batch, then the list; downstream has
      seen the part that is done in order, and all of it as long as nothing went wrong. */
  ghost predicate Fifo<S>(s: System<S>) {
    && s.input == s.done + (InFlight(s.thread) + InQueue(s.q))
    && Subsequence(s.output, s.done)
    && (s.clean ==> s.output == s.done && s.q.hr == S_OK && !s.q.flushing && !s.q.terminate)
  }

  ghost predicate AllSamples<S>(list: seq<Packet<S>>) {
    forall i :: 0 <= i < |list| ==> list[i].Sample?
  }

  /** One wake-up is owed exactly when the thread is parked, and while it is still owed there is nothing for the thread
      to do. */
  ghost predicate Signalling<S>(s: System<S>, o: Settings) {
    && s.q.waiting + s.q.sem == (if s.thread.Parked? then 1 else 0)
    && (s.q.waiting > 0 ==> Restful(s.q, o))
  }

  ghost predicate Restful<S>(q: Queue<S>, o: Settings) {
    if o.exact then AllSamples(q.list) && |q.batch| + |q.list| < o.size else q.list == [] && q.batch == []
  }

  /** The batch fits its array, in the queue and in the thread's hands; an exact batch is full unless it was forced. */
  ghost predicate BatchFits<S>(s: System<S>, o: Settings) {
    && |s.q.batch| < o.size
    && (s.thread.Sending? || s.thread.Calling? || s.thread.Releasing? ==> |s.thread.batch| <= o.size)
    && (o.exact && s.thread.Sending? && s.thread.control.NoControl? ==> |s.thread.batch| == o.size)
  }

  ghost predicate References<S>(s: System<S>) {
    s.received == s.released + Hand(s.thread) + Held(s.q)
  }

  ghost predicate Inv<S>(s: System<S>, o: Settings) {
    WellPaired(s.q.list) && Fifo(s) && Signalling(s, o) && BatchFits(s, o) && References(s)
  }

  // ---------- lists ----------

  lemma Regroup<T>(a: seq<T>, b: seq<T>, c: seq<T>)
    ensures a + b + c == a + (b + c)
  {
  }

  lemma {:induction false} OfListConcat<S>(a: seq<Packet<S>>, b: seq<Packet<S>>)
    ensures OfList(a + b) == OfList(a) + OfList(b)
  {
    if a == [] {
      assert a + b == b;
    } else {
      OfListConcat(a[1..], b);
      assert (a + b)[1..] == a[1..] + b;
      assert OfList(a) == OfPacket(a[0]) + OfList(a[1..]) && OfList(a + b) == OfPacket(a[0]) + OfList(a[1..] + b);
      hide OfList;
      Regroup(OfPacket(a[0]), OfList(a[1..]), OfList(b));
    }
  }

  lemma {:induction false} OnListConcat<S>(a: seq<Packet<S>>, b: seq<Packet<S>>)
    ensures OnList(a + b) == OnList(a) + OnList(b)
  {
    if a == [] {
      assert a + b == b;
    } else {
      OnListConcat(a[1..], b);
      assert (a + b)[1..] == a[1..] + b;
      var x: multiset<S> := if a[0].Sample? then multiset{a[0].sample} else multiset{};
      assert OnList(a) == x + OnList(a[1..]) && OnList(a + b) == x + OnList(a[1..] + b);
      hide OnList;
      Reorder(x, OnList(a[1..]), OnList(b));
    }
  }

  lemma PackedNext<S>(front: seq<S>, x: S)
    ensures Packed(front + [x]) == Packed(front) + [Sample(x)]
  {
  }

  lemma {:induction false} OfPacked<S>(ss: seq<S>)
    ensures OfList(Packed(ss)) == Wrapped(ss)
    ensures OnList(Packed(ss)) == multiset(ss)
    ensures WellPaired(Packed(ss))
  {
    PairedPacked(ss);
    if ss != [] {
      hide Packed;
      var front, x := ss[..|ss| - 1], ss[|ss| - 1];
      assert ss == front + [x];
      OfPacked(front);
      PackedNext(front, x);
      OfOne(Sample(x));
      hide OfList, OnList;
      OfListConcat(Packed(front), [Sample(x)]);
      OnListConcat(Packed(front), [Sample(x)]);
    }
  }

  lemma OfOne<S>(p: Packet<S>)
    ensures OfList([p]) == OfPacket(p)
    ensures OnList([p]) == if p.Sample? then multiset{p.sample} else multiset{}
  {
  }

  lemma WrappedNext<S>(batch: seq<S>, x: S)
    ensures Wrapped(batch + [x]) == Wrapped(batch) + [Data(x)]
  {
    assert (batch + [x])[..|batch|] == batch;
  }

  /** What a pull takes off the list goes, in order, into what it sends and what it leaves in the batch. */
  lemma {:induction false} PullItems<S>(list: seq<Packet<S>>, batch: seq<S>, size: nat, exact: bool)
    requires WellPaired(list)
    ensures var (list', batch', f) := Pull(list, batch, size, exact);
            Wrapped(batch) + OfList(list) == Passed(f) + (Wrapped(batch') + OfList(list'))
    decreases |list|
  {
    hide Wrapped, OfList;
    NothingElse(batch, list);
    if list != [] {
      match list[0]
      case Sample(x) =>
        SampleMoves(list, batch, x);
        if |batch| + 1 != size {
          PullItems(list[1..], batch + [x], size, exact);
        } else {
          ControlMoves<S>(list[1..], batch + [x], [], list[1..]);
        }
      case SendPacket =>
        if batch == [] {
          PullItems(list[1..], batch, size, exact);
        } else {
          ControlMoves(list, batch, [], list[1..]);
        }
      case EosPacket => ControlMoves(list, batch, [EndOfStream], list[1..]);
      case ResetPacket => ControlMoves(list, batch, [], list[1..]);
      case NewSegmentMark =>
        assert list[1..][1..] == list[2..] && list[1..][0] == list[1];
        OfHead(list[1..]);
        ControlMoves(list, batch, [SegmentStart(list[1].segment)], list[2..]);
    } else {
      ControlMoves<S>([], batch, [], []);
    }
  }

  /** The items the thread takes away. */
  function Passed<S>(f: Fetched<S>): seq<Item<S>> {
    if f.Sends? then Wrapped(f.batch) + OfControl(f.control) else []
  }

  lemma OfHead<S>(list: seq<Packet<S>>)
    requires list != []
    ensures OfList(list) == OfPacket(list[0]) + OfList(list[1..])
  {
  }

  lemma NothingElse<S>(batch: seq<S>, list: seq<Packet<S>>)
    ensures [] + (Wrapped(batch) + OfList(list)) == Wrapped(batch) + OfList(list)
    ensures OfList<S>([]) == [] && Wrapped<S>([]) == []
    ensures list != [] ==> OfList(list) == OfPacket(list[0]) + OfList(list[1..])
  {
    hide Wrapped;
    assert Wrapped<S>([]) == [] by { WrappedNone<S>(); }
  }

  lemma WrappedNone<S>()
    ensures Wrapped<S>([]) == []
  {
  }

  lemma SampleMoves<S>(list: seq<Packet<S>>, batch: seq<S>, x: S)
    requires list != [] && list[0] == Sample(x)
    ensures Wrapped(batch) + OfList(list) == Wrapped(batch + [x]) + OfList(list[1..])
  {
    OfHead(list);
    WrappedNext(batch, x);
    hide OfList, Wrapped;
    Regroup(Wrapped(batch), [Data(x)], OfList(list[1..]));
  }

  /** The batch goes, then the control packet with its items. */
  lemma ControlMoves<S>(list: seq<Packet<S>>, batch: seq<S>, items: seq<Item<S>>, rest: seq<Packet<S>>)
    requires OfList(list) == items + OfList(rest)
    ensures Wrapped(batch) + OfList(list) == (Wrapped(batch) + items) + (Wrapped<S>([]) + OfList(rest))
  {
    WrappedNone<S>();
    hide OfList, Wrapped;
    Regroup(Wrapped(batch), items, OfList(rest));
    assert [] + OfList(rest) == OfList(rest);
  }

  lemma {:induction false} PullSamples<S>(list: seq<Packet<S>>, batch: seq<S>, size: nat, exact: bool)
    requires WellPaired(list)
    ensures var (list', batch', f) := Pull(list, batch, size, exact);
            multiset(batch) + OnList(list)
                == (if f.Sends? then multiset(f.batch) else multiset{}) + (multiset(batch') + OnList(list'))
    decreases |list|
  {
    if list != [] {
      match list[0]
      case Sample(x) =>
        if |batch| + 1 != size {
          PullSamples(list[1..], batch + [x], size, exact);
        }
      case SendPacket =>
        if batch == [] {
          PullSamples(list[1..], batch, size, exact);
        }
      case NewSegmentMark =>
        assert list[1..][1..] == list[2..];
      case _ =>
    }
  }

  lemma {:induction false} PullSizes<S>(list: seq<Packet<S>>, batch: seq<S>, size: nat, exact: bool)
    requires WellPaired(list) && |batch| < size
    ensures var (list', batch', f) := Pull(list, batch, size, exact);
            && |batch'| < size && (f.Sends? ==> |f.batch| <= size && batch' == [])
            && (exact && f.Sends? && f.control.NoControl? ==> |f.batch| == size)
            && !f.Terminated? && (f.Parks? ==> list' == [] && (exact || batch' == []))
    decreases |list|
  {
    if list != [] {
      match list[0]
      case Sample(x) =>
        if |batch| + 1 != size {
          PullSizes(list[1..], batch + [x], size, exact);
        }
      case SendPacket =>
        if batch == [] {
          PullSizes(list[1..], batch, size, exact);
        }
      case _ =>
    }
  }

  // ---------- sequences left out of sequences ----------

  lemma KeepBoth<T>(a: seq<T>, b: seq<T>, x: T)
    requires Subsequence(a, b)
    ensures Subsequence(a + [x], b + [x])
  {
    assert (a + [x])[..|a|] == a && (b + [x])[..|b|] == b;
  }

  lemma {:induction false} LeaveOut<T>(a: seq<T>, b: seq<T>, c: seq<T>)
    requires Subsequence(a, b)
    ensures Subsequence(a, b + c)
    decreases |c|
  {
    if c == [] {
      assert b + c == b;
    } else {
      LeaveOut(a, b, c[..|c| - 1]);
      assert (b + c)[..|b + c| - 1] == b + c[..|c| - 1];
    }
  }

  lemma {:induction false} KeepAll<T>(a: seq<T>, b: seq<T>, c: seq<T>)
    requires Subsequence(a, b)
    ensures Subsequence(a + c, b + c)
    decreases |c|
  {
    if c == [] {
      assert a + c == a && b + c == b;
    } else {
      hide Subsequence;
      var front, x := c[..|c| - 1], c[|c| - 1];
      KeepAll(a, b, front);
      KeepBoth(a + front, b + front, x);
      assert c == front + [x];
      Regroup(a, front, [x]);
      Regroup(b, front, [x]);
    }
  }

  // ---------- one step ----------

  lemma AtTheEnd<T>(d: seq<T>, f: seq<T>, w: seq<T>, l: seq<T>, x: seq<T>)
    ensures d + (f + (w + (l + x))) == d + (f + (w + l)) + x
  {
  }

  lemma AtTheFront<T>(d: seq<T>, x: seq<T>, c: seq<T>, r: seq<T>)
    ensures d + ((x + c) + r) == (d + x) + (c + r)
  {
  }

  /** Packets go to the end of the list, and so do their items. */
  lemma EnqueueKeeps<S>(s: System<S>, packets: seq<Packet<S>>, items: seq<Item<S>>)
    requires WellPaired(s.q.list) && Fifo(s) && WellPaired(packets) && OfList(packets) == items
    ensures var q := s.q.(list := s.q.list + packets);
            && WellPaired(q.list)
            && s.input + items == s.done + (InFlight(s.thread) + InQueue(q))
            && Held(q) == Held(s.q) + OnList(packets)
  {
    hide WellPaired, OfList, Wrapped, OnList, InFlight, Subsequence;
    PairedConcat(s.q.list, packets);
    OfListConcat(s.q.list, packets);
    OnListConcat(s.q.list, packets);
    AtTheEnd(s.done, InFlight(s.thread), Wrapped(s.q.batch), OfList(s.q.list), items);
  }

  lemma ReceiveKeeps<S>(s: System<S>, ss: seq<S>, o: Settings)
    requires Inv(s, o)
    ensures Inv(AfterReceive(s, ss, o), o)
  {
    hide WellPaired, OfList, Wrapped, OnList, InFlight, Subsequence, Packed, Held, Hand, InQueue;
    var r, h := s.released + Hand(s.thread), Held(s.q);
    if s.q.hr == S_OK {
      OfPacked(ss);
      EnqueueKeeps(s, Packed(ss), Wrapped(ss));
      SameQueue(s.q.(list := s.q.list + Packed(ss)), Received(s.q, ss, o.size, o.exact));
      Reorder(r, h, multiset(ss));
      PackedAreSamples(ss);
    } else {
      Shuffle(s.released, multiset(ss), Hand(s.thread), h);
    }
  }

  lemma SameQueue<S>(q: Queue<S>, q': Queue<S>)
    requires q.batch == q'.batch && q.list == q'.list
    ensures Held(q) == Held(q') && InQueue(q) == InQueue(q')
  {
  }

  lemma Shuffle<S>(a: multiset<S>, b: multiset<S>, c: multiset<S>, d: multiset<S>)
    ensures a + b + c + d == (a + c + d) + b
  {
  }

  lemma PackedAreSamples<S>(ss: seq<S>)
    ensures AllSamples(Packed(ss))
  {
  }

  lemma QueueKeeps<S>(s: System<S>, step: Step<S>, o: Settings)
    requires Inv(s, o) && Enabled(s, step, o)
    requires step.QueueEos? || step.QueueSegment? || step.SendAnyway? || step.QueueReset?
    ensures Inv(Next(s, step, o), o)
  {
    match step
    case QueueEos =>
      if s.q.hr == S_OK {
        EnqueuedKeeps(s, [EosPacket], [EndOfStream], false, s.passed, s.resetters, o);
      }
    case QueueSegment(segment) =>
      EnqueuedKeeps(s, [NewSegmentMark, Parameters(segment)], [SegmentStart(segment)], s.q.flushed,
          s.passed - multiset{segment}, s.resetters, o);
    case SendAnyway =>
      NoMore(s.input, s.received);
      EnqueuedKeeps(s, [SendPacket], [], s.q.flushed, s.passed, s.resetters, o);
    case QueueReset =>
      NoMore(s.input, s.received);
      EnqueuedKeeps(s, [ResetPacket], [], s.q.flushed, s.passed, s.resetters + 1, o);
  }

  lemma EnqueuedKeeps<S>(s: System<S>, packets: seq<Packet<S>>, items: seq<Item<S>>, flushed: bool,
                         passed: multiset<Segment>, resetters: nat, o: Settings)
    requires Inv(s, o) && Few(packets, items)
    ensures var q := Queued(s.q.(flushed := flushed), packets);
            Inv(s.(q := q, input := s.input + items, passed := passed, resetters := resetters), o)
  {
    OfFew(packets, items);
    hide WellPaired, OfList, Wrapped, OnList, InFlight, Subsequence, Hand, Few, Held, InQueue;
    EnqueueKeeps(s, packets, items);
    SameQueue(s.q.(list := s.q.list + packets), Queued(s.q.(flushed := flushed), packets));
    NoMore(s.input, Held(s.q));
  }

  lemma NoMore<T, S>(a: seq<T>, m: multiset<S>)
    ensures a + [] == a && [] + a == a && m + multiset{} == m && multiset{} + m == m
  {
  }

  predicate Few<S(==)>(packets: seq<Packet<S>>, items: seq<Item<S>>) {
    || (packets == [EosPacket] && items == [EndOfStream])
    || (packets == [SendPacket] && items == [])
    || (packets == [ResetPacket] && items == [])
    || (|packets| == 2 && packets[1].Parameters? && packets[0] == NewSegmentMark
        && items == [SegmentStart(packets[1].segment)])
  }

  lemma OfFew<S>(packets: seq<Packet<S>>, items: seq<Item<S>>)
    requires Few(packets, items)
    ensures WellPaired(packets) && OfList(packets) == items && OnList(packets) == multiset{}
  {
    if |packets| == 2 {
      assert packets[1..] == [packets[1]] && packets[2..] == [];
      OfOne(packets[1]);
    } else {
      OfOne(packets[0]);
    }
  }

  lemma FetchKeeps<S>(s: System<S>, o: Settings)
    requires Inv(s, o) && Enabled(s, Fetch, o)
    ensures Inv(AfterFetch(s, o), o)
  {
    hide Subsequence, Wrapped, OfList, OnList;
    if s.q.terminate {
      DropKeeps(s);
    } else if s.q.flushing {
      DropKeeps(s);
      PullNothing<S>(o);
    } else {
      PullKeeps(s, o);
    }
  }

  /** An emptied queue: all that was in it is done with. */
  lemma DropKeeps<S>(s: System<S>)
    requires Fifo(s) && InFlight(s.thread) == []
    ensures s.input == Dropped(s).done + ([] + InQueue(Freed(s.q))) && Subsequence(s.output, Dropped(s).done)
    ensures InQueue(Freed(s.q)) == [] && Held(Freed(s.q)) == multiset{}
  {
    LeaveOut(s.output, s.done, InQueue(s.q));
    hide Subsequence;
    var items := InQueue(s.q);
    assert [] + items == items;
  }

  lemma PullNothing<S>(o: Settings)
    ensures var (list, batch, f) := Pull<S>([], [], o.size, o.exact); list == [] && batch == [] && f.Parks?
  {
  }

  lemma PullKeeps<S>(s: System<S>, o: Settings)
    requires Inv(s, o) && s.thread.Top? && !s.q.terminate && !s.q.flushing
    ensures Inv(AfterFetch(s, o), o)
  {
    PullKeepsFifo(s, o);
    PullKeepsReferences(s, o);
    PullKeepsSignals(s, o);
  }

  lemma PullKeepsFifo<S>(s: System<S>, o: Settings)
    requires Inv(s, o) && s.thread.Top? && !s.q.terminate && !s.q.flushing
    ensures Fifo(AfterFetch(s, o))
  {
    hide Subsequence, Wrapped, OfList, OnList, WellPaired, Held, Hand;
    PullItems(s.q.list, s.q.batch, o.size, o.exact);
    PullSizes(s.q.list, s.q.batch, o.size, o.exact);
    var (list, batch, f) := Pull(s.q.list, s.q.batch, o.size, o.exact);
    hide Pull;
    NoMore(Wrapped(batch) + OfList(list), s.received);
    NoMore(InQueue(s.q), s.received);
  }

  lemma Reorder<S>(a: multiset<S>, b: multiset<S>, c: multiset<S>)
    ensures a + b + c == a + (b + c)
  {
  }

  lemma PullKeepsReferences<S>(s: System<S>, o: Settings)
    requires Inv(s, o) && s.thread.Top? && !s.q.terminate && !s.q.flushing
    ensures References(AfterFetch(s, o))
  {
    hide Subsequence, Wrapped, OfList, OnList, WellPaired, InQueue, InFlight;
    PullSamples(s.q.list, s.q.batch, o.size, o.exact);
    PullSizes(s.q.list, s.q.batch, o.size, o.exact);
    var (list, batch, f) := Pull(s.q.list, s.q.batch, o.size, o.exact);
    hide Pull;
    var h := multiset(batch) + OnList(list);
    NoMore(s.input, h);
    NoMore(s.input, s.released);
    if f.Sends? {
      Reorder(s.released, multiset(f.batch), h);
    }
  }

  lemma PullKeepsSignals<S>(s: System<S>, o: Settings)
    requires Inv(s, o) && s.thread.Top? && !s.q.terminate && !s.q.flushing
    ensures WellPaired(AfterFetch(s, o).q.list) && Signalling(AfterFetch(s, o), o) && BatchFits(AfterFetch(s, o), o)
  {
    hide Subsequence, Wrapped, OfList, OnList, InQueue, InFlight, Held, Hand;
    PullSizes(s.q.list, s.q.batch, o.size, o.exact);
  }

  lemma DeliverKeeps<S>(s: System<S>, batch: seq<S>, control: OutputQueueState.Control, o: Settings)
    requires Inv(s, o) && s.thread == Sending(batch, control)
    ensures Inv(AfterDeliver(s, batch, control), o)
  {
    DeliverKeepsFifo(s, batch, control, o);
    DeliverKeepsReferences(s, batch, control, o);
    DeliverKeepsSignals(s, batch, control, o);
  }

  lemma DeliverKeepsFifo<S>(s: System<S>, batch: seq<S>, control: OutputQueueState.Control, o: Settings)
    requires Inv(s, o) && s.thread == Sending(batch, control)
    ensures Fifo(AfterDeliver(s, batch, control))
  {
    hide OfList, OnList, WellPaired, InQueue, OfControl, Held, Hand;
    if batch == [] {
      NoMore(OfControl<S>(control), s.received);
    } else {
      hide Wrapped, Subsequence;
      LeaveOut(s.output, s.done, Wrapped(batch));
      KeepAll(s.output, s.done, Wrapped(batch));
      AtTheFront(s.done, Wrapped(batch), OfControl(control), InQueue(s.q));
    }
  }

  lemma DeliverKeepsReferences<S>(s: System<S>, batch: seq<S>, control: OutputQueueState.Control, o: Settings)
    requires Inv(s, o) && s.thread == Sending(batch, control)
    ensures References(AfterDeliver(s, batch, control))
  {
    hide Subsequence, Wrapped, OfList, OnList, WellPaired, InQueue, InFlight, OfControl, Held;
    if batch == [] {
      assert multiset(batch) == multiset{};
    }
  }

  lemma DeliverKeepsSignals<S>(s: System<S>, batch: seq<S>, control: OutputQueueState.Control, o: Settings)
    requires Inv(s, o) && s.thread == Sending(batch, control)
    ensures WellPaired(AfterDeliver(s, batch, control).q.list) && Signalling(AfterDeliver(s, batch, control), o)
            && BatchFits(AfterDeliver(s, batch, control), o)
  {
    hide Subsequence, Wrapped, OfList, OnList, WellPaired, InQueue, InFlight, OfControl, Held, Hand;
  }

  lemma ControlKeeps<S>(s: System<S>, control: OutputQueueState.Control, o: Settings)
    requires Inv(s, o) && s.thread == Controlling(control)
    ensures Inv(AfterControl(s, control), o)
  {
    ControlKeepsFifo(s, control, o);
    ControlKeepsReferences(s, control, o);
    ControlKeepsSignals(s, control, o);
  }

  lemma ControlKeepsFifo<S>(s: System<S>, control: OutputQueueState.Control, o: Settings)
    requires Inv(s, o) && s.thread == Controlling(control)
    ensures Fifo(AfterControl(s, control))
  {
    hide Subsequence, Wrapped, OfList, OnList, WellPaired, Held, Hand, InQueue;
    var s' := AfterControl(s, control);
    NoMore(InQueue(s.q), s.received);
    SameQueue(s.q, s'.q);
    assert InFlight(s.thread) == OfControl(control) && InFlight(s'.thread) == [];
    hide InFlight;
    if control.Eos? || control.NewSegment? {
      var item := if control.Eos? then EndOfStream else SegmentStart(control.segment);
      assert OfControl<S>(control) == [item] && s'.done == s.done + [item];
      assert s'.output == s.output || s'.output == s.output + [item];
      assert s.clean ==> s'.output == s.output + [item];
      hide AfterControl, OfControl;
      LeaveOut(s.output, s.done, [item]);
      KeepBoth(s.output, s.done, item);
      Regroup(s.done, [item], InQueue(s.q));
    } else {
      assert OfControl<S>(control) == [];
      NoMore(s.done, s.received);
    }
  }

  lemma ControlKeepsReferences<S>(s: System<S>, control: OutputQueueState.Control, o: Settings)
    requires Inv(s, o) && s.thread == Controlling(control)
    ensures References(AfterControl(s, control))
  {
    hide Subsequence, Wrapped, OfList, OnList, WellPaired, InQueue, InFlight, OfControl;
  }

  lemma ControlKeepsSignals<S>(s: System<S>, control: OutputQueueState.Control, o: Settings)
    requires Inv(s, o) && s.thread == Controlling(control)
    ensures WellPaired(AfterControl(s, control).q.list) && Signalling(AfterControl(s, control), o)
            && BatchFits(AfterControl(s, control), o)
  {
    hide Subsequence, Wrapped, OfList, OnList, WellPaired, InQueue, InFlight, OfControl, Held, Hand;
  }

  predicate Other<S>(step: Step<S>) {
    step.CheckSegment? || step.ResetReturns? || step.BeginFlush? || step.EndFlushQuick? || step.EndFlushWait?
    || step.EndFlushOff? || step.EndFlushMark? || step.EndFlushLast? || step.Terminate? || step.Wake? || step.Return?
    || step.ReleaseBatch? || step.Answer?
  }

  lemma OtherKeeps<S>(s: System<S>, step: Step<S>, o: Settings)
    requires Inv(s, o) && Enabled(s, step, o) && Other(step)
    ensures Inv(Next(s, step, o), o)
  {
    OtherKeepsFifo(s, step, o);
    OtherKeepsReferences(s, step, o);
    OtherKeepsSignals(s, step, o);
  }

  lemma OtherKeepsFifo<S>(s: System<S>, step: Step<S>, o: Settings)
    requires Inv(s, o) && Enabled(s, step, o) && Other(step)
    ensures Fifo(Next(s, step, o))
  {
    hide Subsequence, Wrapped, OfList, OnList, WellPaired, Held, Hand, Pull,
         Packed, AfterFetch, AfterReceive, AfterDeliver, AfterControl;
    match step {
      case CheckSegment(_) => case ResetReturns => case BeginFlush => case EndFlushQuick => case EndFlushWait =>
      case EndFlushOff => case EndFlushMark => case EndFlushLast => case Terminate => case Wake => case Return(_) =>
      case ReleaseBatch => case _ =>
    }
  }

  lemma OtherKeepsReferences<S>(s: System<S>, step: Step<S>, o: Settings)
    requires Inv(s, o) && Enabled(s, step, o) && Other(step)
    ensures References(Next(s, step, o))
  {
    hide Subsequence, Wrapped, OfList, OnList, WellPaired, InQueue, InFlight, OfControl, Held, Hand,
         Pull, Packed, AfterFetch, AfterReceive, AfterDeliver, AfterControl;
    SameHeld(s.q, Next(s, step, o).q);
    HandAfter(s, step, o);
    if step.ReleaseBatch? {
      NoMore(s.input, s.released + multiset(s.thread.batch));
    }
  }

  lemma SameHeld<S>(q: Queue<S>, q': Queue<S>)
    requires q.batch == q'.batch && q.list == q'.list
    ensures Held(q) == Held(q')
  {
  }

  lemma HandAfter<S>(s: System<S>, step: Step<S>, o: Settings)
    requires Inv(s, o) && Enabled(s, step, o) && Other(step)
    ensures Hand(Next(s, step, o).thread) == if step.ReleaseBatch? then multiset{} else Hand(s.thread)
    ensures step.ReleaseBatch? ==> Hand(s.thread) == multiset(s.thread.batch)
  {
    hide Inv;
  }

  lemma SameRest<S>(q: Queue<S>, q': Queue<S>, o: Settings)
    requires q.batch == q'.batch && q.list == q'.list
    ensures Restful(q, o) == Restful(q', o)
  {
  }

  lemma OtherKeepsSignals<S>(s: System<S>, step: Step<S>, o: Settings)
    requires Inv(s, o) && Enabled(s, step, o) && Other(step)
    ensures WellPaired(Next(s, step, o).q.list) && Signalling(Next(s, step, o), o) && BatchFits(Next(s, step, o), o)
  {
    hide Fifo, References, Restful, AllSamples, WellPaired, Pull, AfterFetch, AfterReceive, AfterDeliver, AfterControl;
    SameRest(s.q, Next(s, step, o).q, o);
    match step {
      case CheckSegment(_) => case ResetReturns => case BeginFlush => case EndFlushQuick => case EndFlushWait =>
      case EndFlushOff => case EndFlushMark => case EndFlushLast => case Terminate => case Wake => case Return(_) =>
      case ReleaseBatch => case _ =>
    }
  }

  lemma StepKeepsInv<S>(s: System<S>, step: Step<S>, o: Settings)
    requires Inv(s, o) && Enabled(s, step, o)
    ensures Inv(Next(s, step, o), o)
  {
    hide Inv, AfterReceive, AfterFetch, AfterDeliver, AfterControl;
    match step
    case Receive(ss) => ReceiveKeeps(s, ss, o);
    case QueueEos | QueueSegment(_) | SendAnyway | QueueReset => QueueKeeps(s, step, o);
    case Fetch => FetchKeeps(s, o);
    case Deliver => DeliverKeeps(s, s.thread.batch, s.thread.control, o);
    case Control => ControlKeeps(s, s.thread.control, o);
    case _ => OtherKeeps(s, step, o);
  }

  // ---------- all runs ----------

  ghost predicate Run<S>(s0: System<S>, steps: seq<Step<S>>, s: System<S>, o: Settings)
    decreases |steps|
  {
    if steps == [] then s == s0
    else WellPaired(s0.q.list) && Enabled(s0, steps[0], o) && Run(Next(s0, steps[0], o), steps[1..], s, o)
  }

  lemma {:induction false} RunKeepsInv<S>(s0: System<S>, steps: seq<Step<S>>, s: System<S>, o: Settings)
    requires Inv(s0, o) && Run(s0, steps, s, o)
    ensures Inv(s, o)
    decreases |steps|
  {
    hide Inv, Enabled, Next;
    if steps != [] {
      StepKeepsInv(s0, steps[0], o);
      RunKeepsInv(Next(s0, steps[0], o), steps[1..], s, o);
    }
  }

  ghost predicate Reachable<S(!new)>(s: System<S>, o: Settings) {
    o.size > 0 && exists steps :: Run(Start<S>(), steps, s, o)
  }

  lemma ReachableInv<S(!new)>(s: System<S>, o: Settings)
    requires Reachable(s, o)
    ensures Inv(s, o)
  {
    var steps :| Run(Start<S>(), steps, s, o);
    StartInv<S>(o);
    hide Inv;
    RunKeepsInv(Start<S>(), steps, s, o);
  }

  lemma StartInv<S>(o: Settings)
    requires o.size > 0
    ensures Inv(Start<S>(), o)
  {
  }

  /** The queue refines a FIFO.  In every run, what clients queued is what is done with, followed by what is still
      inside, and downstream has seen the former in order, with nothing but omissions; as long as there was
      no flush, no termination and no answer but S_OK, nothing is omitted, whether or not there were resets. */
  lemma FifoRefinement<S(!new)>(s: System<S>, o: Settings)
    requires Reachable(s, o)
    ensures s.input == s.done + (InFlight(s.thread) + InQueue(s.q))
    ensures Subsequence(s.output, s.done)
    ensures s.clean ==> s.input == s.output + (InFlight(s.thread) + InQueue(s.q))
  {
    ReachableInv(s, o);
  }

  // ---------- errors ----------

  /** The steps that take back an error: the end of a flush, and a Reset packet when the thread comes to it. */
  predicate Clears<S>(s: System<S>, step: Step<S>) {
    step.EndFlushQuick? || step.EndFlushLast? || (step.Control? && s.thread.Controlling? && s.thread.control.Reset?)
  }

  /** What was passed on since is nothing but segments. */
  predicate OnlySegments<S(==)>(before: seq<Item<S>>, after: seq<Item<S>>) {
    before <= after && forall i :: |before| <= i < |after| ==> after[i].SegmentStart?
  }

  /** Under an error neither samples nor ends of stream are taken or passed on, and the error stays; only Terminate
      puts another in its place. */
  lemma ErrorStays<S>(s: System<S>, step: Step<S>, o: Settings)
    requires WellPaired(s.q.list) && Enabled(s, step, o) && s.q.hr != S_OK && !Clears(s, step)
    ensures var s' := Next(s, step, o);
            && s'.q.hr == (if step.Terminate? then S_FALSE else s.q.hr)
            && OnlySegments(s.output, s'.output) && OnlySegments(s.input, s'.input)
    ensures step.Receive? ==> Next(s, step, o).released == s.released + multiset(step.samples)
  {
    hide OnlySegments, WellPaired, AfterReceive, AfterFetch, AfterDeliver, AfterControl;
    NoItems(s.output);
    NoItems(s.input);
    match step {
      case Receive(ss) => ErrorAfterOther(s, ss, o);
      case Fetch => ErrorAfterOther(s, [], o);
      case Deliver => ErrorAfterDeliver(s, s.thread.batch, s.thread.control);
      case QueueEos => case CheckSegment(_) => case SendAnyway =>
      case QueueReset => case ResetReturns => case BeginFlush => case EndFlushQuick => case EndFlushWait =>
      case EndFlushOff => case EndFlushMark => case EndFlushLast => case Terminate => case Wake => case Return(_) =>
      case ReleaseBatch => case Answer =>
      case QueueSegment(segment) => SegmentMore(s.input, segment);
      case Control => ErrorAfterControl(s, s.thread.control);
    }
  }

  lemma ErrorAfterOther<S>(s: System<S>, ss: seq<S>, o: Settings)
    requires s.q.hr != S_OK && WellPaired(s.q.list)
    ensures var s1 := AfterReceive(s, ss, o);
            && s1.q == s.q && s1.output == s.output && s1.input == s.input
            && s1.released == s.released + multiset(ss)
    ensures var s1 := AfterFetch(s, o); s1.q.hr == s.q.hr && s1.output == s.output && s1.input == s.input
  {
    hide Pull, WellPaired, InQueue, Held, Packed, Wrapped;
  }

  lemma ErrorAfterDeliver<S>(s: System<S>, batch: seq<S>, control: OutputQueueState.Control)
    requires s.q.hr != S_OK
    ensures var s1 := AfterDeliver(s, batch, control); s1.q == s.q && s1.output == s.output && s1.input == s.input
  {
    hide Wrapped;
  }

  lemma ErrorAfterControl<S>(s: System<S>, control: OutputQueueState.Control)
    requires s.q.hr != S_OK && !control.Reset?
    ensures var s' := AfterControl(s, control);
            s'.q == s.q && OnlySegments(s.output, s'.output) && s'.input == s.input
  {
    hide OnlySegments;
    NoItems(s.output);
    match control { case NewSegment(segment) => SegmentMore(s.output, segment); case Eos => case _ => }
  }

  lemma NoItems<S>(a: seq<Item<S>>)
    ensures OnlySegments(a, a)
  {
  }

  lemma SegmentMore<S>(a: seq<Item<S>>, segment: Segment)
    ensures OnlySegments(a, a + [SegmentStart(segment)])
  {
  }

  lemma SegmentsFollow<S>(a: seq<Item<S>>, b: seq<Item<S>>, c: seq<Item<S>>)
    requires OnlySegments(a, b) && OnlySegments(b, c)
    ensures OnlySegments(a, c)
  {
    assert forall i :: |a| <= i < |b| ==> c[i] == b[i];
  }

  /** Those steps do take it back, whatever it was, and a Reset answers whoever waits for it. */
  lemma ErrorTakenBack<S>(s: System<S>, step: Step<S>, o: Settings)
    requires WellPaired(s.q.list) && Enabled(s, step, o) && Clears(s, step)
    ensures Next(s, step, o).q.hr == S_OK && Next(s, step, o).output == s.output
    ensures step.Control? ==> Next(s, step, o).thread.Answering?
  {
    hide WellPaired, AfterReceive, AfterFetch, AfterDeliver;
  }

  /** A run in which no error is taken back. */
  ghost predicate Uncleared<S>(s0: System<S>, steps: seq<Step<S>>, s: System<S>, o: Settings)
    decreases |steps|
  {
    if steps == [] then s == s0
    else
      && Inv(s0, o) && Enabled(s0, steps[0], o) && !Clears(s0, steps[0]) && !steps[0].Terminate?
      && Uncleared(Next(s0, steps[0], o), steps[1..], s, o)
  }

  lemma {:induction false} ErrorStaysOverRun<S>(s0: System<S>, steps: seq<Step<S>>, s: System<S>, o: Settings)
    requires Uncleared(s0, steps, s, o) && s0.q.hr != S_OK
    ensures s.q.hr == s0.q.hr && OnlySegments(s0.output, s.output) && OnlySegments(s0.input, s.input)
    decreases |steps|
  {
    hide OnlySegments, Enabled, Next, Clears, Fifo, Signalling, BatchFits, References;
    if steps != [] {
      ErrorStays(s0, steps[0], o);
      var s1 := Next(s0, steps[0], o);
      ErrorStaysOverRun(s1, steps[1..], s, o);
      SegmentsFollow(s0.output, s1.output, s.output);
      SegmentsFollow(s0.input, s1.input, s.input);
    } else {
      NoItems(s.output);
      NoItems(s.input);
    }
  }

  /** The first answer that is not S_OK is what clients get from then on, and nothing but segments is queued or passed
      on, until a reset or the end of a flush takes it back; the answers to later calls change nothing. */
  lemma FirstErrorSticks<S>(s0: System<S>, hr: HRESULT, steps: seq<Step<S>>, s: System<S>, o: Settings)
    requires Inv(s0, o) && Enabled(s0, Return(hr), o) && s0.q.hr == S_OK
    requires Uncleared(Next(s0, Return(hr), o), steps, s, o)
    ensures Next(s0, Return(hr), o).q.hr == hr
    ensures hr != S_OK ==> s.q.hr == hr && OnlySegments(s0.output, s.output) && OnlySegments(s0.input, s.input)
  {
    if hr != S_OK {
      ErrorStaysOverRun(Next(s0, Return(hr), o), steps, s, o);
    }
  }

  /** No lost wake-up: a parked thread is owed exactly one count, by the semaphore or by the next notification, and in
      the second case there is no control packet and no full batch to be sent; nothing is owed to a thread that is about
      to park. */
  lemma QuietWhileParked<S(!new)>(s: System<S>, o: Settings)
    requires Reachable(s, o)
    ensures s.q.waiting + s.q.sem == 1 <==> s.thread.Parked?
    ensures s.thread.Top? ==> s.q.waiting == 0
    ensures s.thread.Parked? && s.q.sem == 0 ==> Restful(s.q, o)
  {
    ReachableInv(s, o);
  }

  /** Every sample reference handed in is held in one place or has been released once, also when samples are dropped. */
  lemma ReferencesConserved<S(!new)>(s: System<S>, o: Settings)
    requires Reachable(s, o)
    ensures s.received == s.released + (Hand(s.thread) + Held(s.q))
    ensures s.thread.Gone? && s.q.list == [] && s.q.batch == [] ==> s.received == s.released
  {
    ReachableInv(s, o);
    Reorder(s.released, Hand(s.thread), Held(s.q));
  }

  /** No batch is bigger than the array, and a batch the thread sends by itself in exact mode is full. */
  lemma BatchSizes<S(!new)>(s: System<S>, o: Settings)
    requires Reachable(s, o)
    ensures |s.q.batch| < o.size
    ensures s.thread.Sending? ==>
            |s.thread.batch| <= o.size && (o.exact && s.thread.control.NoControl? ==> |s.thread.batch| == o.size)
  {
    ReachableInv(s, o);
  }

  // ---------- IsIdle ----------

  predicate IsIdle<S(==)>(q: Queue<S>) {
    q.waiting != 0 && q.batch == []
  }

  /** Without exact batches IsIdle is right: everything queued has been dealt with. */
  lemma IdleMeansDone<S(!new)>(s: System<S>, o: Settings)
    requires Reachable(s, o) && IsIdle(s.q) && !o.exact
    ensures s.q.list == [] && s.input == s.done
  {
    ReachableInv(s, o);
    assert s.done + ([] + ([] + [])) == s.done;
  }

  /** With exact batches it is not: a single sample queued to a parked thread stays on the list, and IsIdle says yes. */
  lemma IdleWithSampleQueued(o: Settings)
    requires o.exact && o.size >= 2
    ensures exists s: System<int> :: Reachable(s, o) && IsIdle(s.q) && s.q.list != []
  {
    var s1 := Next(Start<int>(), Fetch, o);
    var s2 := Next(s1, Receive([7]), o);
    assert s2.q.list == [Sample(7)];
    RunCons(s1, Receive([7]), [], s2, o);
    RunCons(Start<int>(), Fetch, [Receive([7])], s2, o);
    assert Reachable(s2, o);
  }

  /** So the assertion in IsIdle, that the list is then empty, holds in all runs exactly without exact batches bigger
      than one. */
  lemma IdleAssertionIff(o: Settings)
    requires o.size > 0
    ensures (forall s: System<int> :: Reachable(s, o) && IsIdle(s.q) ==> s.q.list == []) <==> !o.exact || o.size == 1
  {
    if o.exact && o.size > 1 {
      IdleWithSampleQueued(o);
    } else {
      forall s: System<int> | Reachable(s, o) && IsIdle(s.q)
        ensures s.q.list == []
      {
        ReachableInv(s, o);
        hide Reachable, Fifo, BatchFits, References, WellPaired;
      }
    }
  }

  lemma RunCons<S>(s0: System<S>, step: Step<S>, rest: seq<Step<S>>, s: System<S>, o: Settings)
    requires WellPaired(s0.q.list) && Enabled(s0, step, o) && Run(Next(s0, step, o), rest, s, o)
    ensures Run(s0, [step] + rest, s, o)
  {
    var steps := [step] + rest;
    assert steps[1..] == rest;
  }

  // ---------- flushing ----------

  ghost predicate NoSamples<S>(s: System<S>) {
    && (forall i :: 0 <= i < |s.q.list| ==> !s.q.list[i].Sample?)
    && s.q.batch == []
    && (s.thread.Sending? || s.thread.Calling? || s.thread.Releasing? ==> s.thread.batch == [])
  }

  /** What a flush is for: while the queue counts as flushed, and once EndFlush has waited, there are no samples. */
  ghost predicate SamplesGone<S>(s: System<S>) {
    s.q.flushed || s.flush.Quick? || s.flush.Waited? || s.flush.Unmarked? ==> NoSamples(s)
  }

  predicate HoldsReset<S>(t: Phase<S>) {
    (t.Sending? || t.Calling? || t.Releasing? || t.Controlling?) && t.control.Reset?
  }

  /** The thread is about to reset the return code of a queue that is being flushed, or to set the event although there
      are samples. */
  ghost predicate Mixed<S>(s: System<S>) {
    || ((s.flush.Quick? || s.flush.Begun? || s.flush.Waited? || s.flush.Unmarked?) && HoldsReset(s.thread))
    || (s.flush.Begun? && s.thread.Answering? && !NoSamples(s))
  }

  ghost predicate FlushInv<S>(s: System<S>, o: Settings) {
    && (s.flush.Quick? || s.flush.Begun? || s.flush.Waited? || s.flush.Unmarked? ==>
        s.q.hr != S_OK && !HoldsReset(s.thread))
    && ((s.flush.Begun? && s.q.flushComplete) || s.flush.Waited? || s.flush.Unmarked? || s.q.flushed ==> NoSamples(s))
    && (s.flush.Begun? && s.thread.Answering? ==> NoSamples(s))
    && (s.flush.Quick? ==> s.q.flushed && o.flushingOpt)
    && (s.flush.Begun? ==> !(s.q.flushed && o.flushingOpt))
    && (s.flush.Quick? || s.flush.Begun? || s.flush.Waited? ==> s.q.flushing)
    && (s.thread.Calling? || s.thread.Releasing? ==> s.thread.batch != [])
  }

  lemma {:induction false} PullNone<S>(list: seq<Packet<S>>, size: nat, exact: bool)
    requires WellPaired(list) && forall i :: 0 <= i < |list| ==> !list[i].Sample?
    ensures var (list', batch', f) := Pull(list, [], size, exact);
            && (forall i :: 0 <= i < |list'| ==> !list'[i].Sample?)
            && batch' == [] && (f.Sends? ==> f.batch == [])
    decreases |list|
  {
    if list != [] && list[0].SendPacket? {
      PullNone(list[1..], size, exact);
    }
  }

  lemma FlushAfterFetch<S>(s: System<S>, o: Settings)
    requires Inv(s, o) && FlushInv(s, o) && Enabled(s, Fetch, o) && !Mixed(AfterFetch(s, o))
    ensures FlushInv(AfterFetch(s, o), o)
  {
    hide Fifo, References, Signalling, BatchFits;
    if !s.q.terminate {
      if s.q.flushing {
        PullNothing<S>(o);
      } else if NoSamples(s) {
        PullNone(s.q.list, o.size, o.exact);
      }
      hide Pull;
    }
  }

  lemma StepKeepsFlush<S>(s: System<S>, step: Step<S>, o: Settings)
    requires Inv(s, o) && FlushInv(s, o) && Enabled(s, step, o) && !Mixed(Next(s, step, o))
    ensures FlushInv(Next(s, step, o), o)
  {
    match step
    case Fetch => FlushAfterFetch(s, o);
    case Receive(_) | QueueEos | QueueSegment(_) | SendAnyway | QueueReset => FlushAfterClient(s, step, o);
    case Wake | Deliver | Return(_) | ReleaseBatch | Control | Answer => FlushAfterThread(s, step, o);
    case _ => FlushAfterFlush(s, step, o);
  }

  lemma FlushAfterClient<S>(s: System<S>, step: Step<S>, o: Settings)
    requires WellPaired(s.q.list) && FlushInv(s, o) && Enabled(s, step, o)
    requires step.Receive? || step.QueueEos? || step.QueueSegment? || step.SendAnyway? || step.QueueReset?
    ensures FlushInv(Next(s, step, o), o)
  {
    hide WellPaired;
    match step
    case Receive(_) =>
    case QueueEos => FlushAfterQueue(s, [EosPacket]);
    case QueueSegment(segment) => FlushAfterQueue(s, [NewSegmentMark, Parameters(segment)]);
    case SendAnyway => FlushAfterQueue(s, [SendPacket]);
    case QueueReset => FlushAfterQueue(s, [ResetPacket]);
  }

  lemma FlushAfterQueue<S>(s: System<S>, packets: seq<Packet<S>>)
    requires forall i :: 0 <= i < |packets| ==> !packets[i].Sample?
    ensures NoSamples(s) ==> NoSamples(s.(q := s.q.(list := s.q.list + packets)))
  {
  }

  lemma FlushAfterThread<S>(s: System<S>, step: Step<S>, o: Settings)
    requires WellPaired(s.q.list) && FlushInv(s, o) && Enabled(s, step, o)
    requires step.Wake? || step.Deliver? || step.Return? || step.ReleaseBatch? || step.Control? || step.Answer?
    ensures FlushInv(Next(s, step, o), o)
  {
    hide WellPaired;
    match step
    case Deliver => FlushAfterDeliver(s, s.thread.batch, s.thread.control, o);
    case Control => FlushAfterControl(s, s.thread.control, o);
    case _ =>
  }

  lemma FlushAfterDeliver<S>(s: System<S>, batch: seq<S>, control: OutputQueueState.Control, o: Settings)
    requires FlushInv(s, o) && s.thread == Sending(batch, control)
    ensures FlushInv(AfterDeliver(s, batch, control), o)
  {
    hide Wrapped;
  }

  lemma FlushAfterControl<S>(s: System<S>, control: OutputQueueState.Control, o: Settings)
    requires FlushInv(s, o) && s.thread == Controlling(control)
    ensures FlushInv(AfterControl(s, control), o)
  {
    hide OfControl;
  }

  lemma FlushAfterFlush<S>(s: System<S>, step: Step<S>, o: Settings)
    requires WellPaired(s.q.list) && FlushInv(s, o) && Enabled(s, step, o) && !Mixed(Next(s, step, o))
    requires step.CheckSegment? || step.ResetReturns? || step.BeginFlush? || step.EndFlushQuick? || step.EndFlushWait?
             || step.EndFlushOff? || step.EndFlushMark? || step.EndFlushLast? || step.Terminate?
    ensures FlushInv(Next(s, step, o), o)
  {
    hide WellPaired;
    var s' := Next(s, step, o);
    assert s'.q.list == s.q.list && s'.q.batch == s.q.batch && s'.thread == s.thread;
  }

  // ---------- flushing, if no samples come meanwhile ----------

  ghost predicate Loaded<S>(q: Queue<S>) {
    q.batch != [] || exists i :: 0 <= i < |q.list| && q.list[i].Sample?
  }

  /** The thread is busy with a reset while a flush waits for it, and there are samples in the queue. */
  ghost predicate MixedLoaded<S>(s: System<S>) {
    s.flush.Begun? && (HoldsReset(s.thread) || s.thread.Answering?) && Loaded(s.q)
  }

  ghost predicate WithheldInv<S>(s: System<S>) {
    && (s.q.flushed || s.flush.Quick? || s.flush.Waited? || s.flush.Unmarked? ==> NoSamples(s))
    && (s.flush.Begun? && s.q.flushComplete ==> NoSamples(s))
    && !MixedLoaded(s)
    && (s.flush.Begun? ==> s.q.flushing)
    && (s.thread.Calling? || s.thread.Releasing? ==> s.thread.batch != [])
  }

  lemma StepKeepsWithheld<S>(s: System<S>, step: Step<S>, o: Settings)
    requires WellPaired(s.q.list) && WithheldInv(s) && Enabled(s, step, o)
    requires (step.Receive? ==> s.flush.NoFlush?) && !MixedLoaded(Next(s, step, o))
    ensures WithheldInv(Next(s, step, o))
  {
    hide WellPaired;
    match step
    case Fetch => WithheldAfterFetch(s, o);
    case Receive(_) | QueueEos | QueueSegment(_) | SendAnyway | QueueReset => WithheldAfterClient(s, step, o);
    case Wake | Deliver | Return(_) | ReleaseBatch | Control | Answer => WithheldAfterThread(s, step, o);
    case _ => WithheldAfterFlush(s, step, o);
  }

  lemma WithheldAfterFetch<S>(s: System<S>, o: Settings)
    requires WellPaired(s.q.list) && WithheldInv(s) && s.thread.Top? && !MixedLoaded(AfterFetch(s, o))
    ensures WithheldInv(AfterFetch(s, o))
  {
    if !s.q.terminate {
      if s.q.flushing {
        PullNothing<S>(o);
      } else if NoSamples(s) {
        PullNone(s.q.list, o.size, o.exact);
      }
    }
    hide Pull, WellPaired, Wrapped, OfList, OnList;
  }

  lemma WithheldAfterClient<S>(s: System<S>, step: Step<S>, o: Settings)
    requires WellPaired(s.q.list) && WithheldInv(s) && Enabled(s, step, o)
    requires step.Receive? || step.QueueEos? || step.QueueSegment? || step.SendAnyway? || step.QueueReset?
    requires (step.Receive? ==> s.flush.NoFlush?) && !MixedLoaded(Next(s, step, o))
    ensures WithheldInv(Next(s, step, o))
  {
    hide WellPaired, Pull, Wrapped, Packed, OfList, OnList, AfterFetch, AfterDeliver, AfterControl, NoSamples, Loaded;
    var s' := Next(s, step, o);
    match step
    case Receive(_) => SamplesStay(s, s', []);
    case QueueEos => SamplesStay(s, s', [EosPacket]);
    case QueueSegment(segment) => SamplesStay(s, s', [NewSegmentMark, Parameters(segment)]);
    case SendAnyway => SamplesStay(s, s', [SendPacket]);
    case QueueReset => SamplesStay(s, s', [ResetPacket]);
  }

  lemma SamplesStay<S>(s: System<S>, s': System<S>, packets: seq<Packet<S>>)
    requires forall i :: 0 <= i < |packets| ==> !packets[i].Sample?
    requires s'.q.batch == s.q.batch && s'.thread == s.thread
    ensures s'.q.list == s.q.list + packets || s'.q.list == s.q.list ==>
              (NoSamples(s) ==> NoSamples(s')) && (Loaded(s'.q) ==> Loaded(s.q))
  {
  }

  lemma WithheldAfterThread<S>(s: System<S>, step: Step<S>, o: Settings)
    requires WellPaired(s.q.list) && WithheldInv(s) && Enabled(s, step, o) && !MixedLoaded(Next(s, step, o))
    requires step.Wake? || step.Deliver? || step.Return? || step.ReleaseBatch? || step.Control? || step.Answer?
    ensures WithheldInv(Next(s, step, o))
  {
    hide WellPaired, WithheldInv, MixedLoaded, AfterDeliver, AfterControl;
    match step
    case Deliver => WithheldAfterDeliver(s, s.thread.batch, s.thread.control);
    case Control => WithheldAfterControl(s, s.thread.control);
    case _ => WithheldAfterReturn(s, step, o);
  }

  lemma WithheldAfterDeliver<S>(s: System<S>, batch: seq<S>, control: OutputQueueState.Control)
    requires WithheldInv(s) && s.thread == Sending(batch, control) && !MixedLoaded(AfterDeliver(s, batch, control))
    ensures WithheldInv(AfterDeliver(s, batch, control))
  {
    hide Wrapped, Loaded;
  }

  lemma WithheldAfterControl<S>(s: System<S>, control: OutputQueueState.Control)
    requires WithheldInv(s) && s.thread == Controlling(control) && !MixedLoaded(AfterControl(s, control))
    ensures WithheldInv(AfterControl(s, control))
  {
    hide OfControl, Loaded;
  }

  lemma WithheldAfterReturn<S>(s: System<S>, step: Step<S>, o: Settings)
    requires WellPaired(s.q.list) && WithheldInv(s) && Enabled(s, step, o) && !MixedLoaded(Next(s, step, o))
    requires step.Wake? || step.Return? || step.ReleaseBatch? || step.Answer?
    ensures WithheldInv(Next(s, step, o))
  {
    hide WellPaired, Pull, Wrapped, Packed, OfList, OnList, OfControl, AfterFetch, AfterReceive, AfterDeliver,
         AfterControl;
    match step { case Wake => case Return(_) => case ReleaseBatch => case _ => }
  }

  lemma WithheldAfterFlush<S>(s: System<S>, step: Step<S>, o: Settings)
    requires WellPaired(s.q.list) && WithheldInv(s) && Enabled(s, step, o) && !MixedLoaded(Next(s, step, o))
    requires step.CheckSegment? || step.ResetReturns? || step.BeginFlush? || step.EndFlushQuick? || step.EndFlushWait?
             || step.EndFlushOff? || step.EndFlushMark? || step.EndFlushLast? || step.Terminate?
    ensures WithheldInv(Next(s, step, o))
  {
    hide WellPaired, Pull, Wrapped, Packed, OfList, OnList, AfterFetch, AfterReceive, AfterDeliver, AfterControl;
    match step {
      case CheckSegment(_) => case ResetReturns => case BeginFlush => case EndFlushQuick => case EndFlushWait =>
      case EndFlushOff => case EndFlushMark => case EndFlushLast => case _ =>
    }
  }

  // ---------- who waits for the event ----------

  /** EndFlush is not left waiting behind a thread that sleeps without a count. */
  predicate FlushServed<S>(s: System<S>) {
    && (s.flush.Begun? ==> s.q.flushing)
    && (s.flush.Begun? && s.thread.Parked? && !s.q.flushComplete ==> s.q.waiting == 0)
  }

  /** A client returns from Reset on the event that was meant for EndFlush. */
  predicate TakesFlushEvent<S>(s: System<S>, step: Step<S>) {
    step.ResetReturns? && s.flush.Begun? && s.thread.Parked? && s.q.sem == 0
  }

  ghost predicate ResetListed<S>(list: seq<Packet<S>>) {
    exists i :: 0 <= i < |list| && list[i].ResetPacket?
  }

  /** A client that waits in Reset will find the event set, or its packet is still on the way. */
  ghost predicate ResetServed<S>(s: System<S>) {
    s.resetters > 0 ==> s.q.flushComplete || ResetComing(s)
  }

  ghost predicate ResetComing<S>(s: System<S>) {
    ResetListed(s.q.list) || HoldsReset(s.thread) || s.thread.Answering? || s.q.terminate
  }

  /** The event is taken or cleared while a client waits in Reset for it and no packet is left to set it again. */
  ghost predicate TakesResetEvent<S>(s: System<S>, step: Step<S>, o: Settings) {
    && (if step.ResetReturns? then s.resetters > 1
        else s.resetters > 0 && (step.EndFlushWait? || (step.BeginFlush? && !(s.q.flushed && o.flushingOpt))))
    && !ResetComing(s)
  }

  lemma FlushServedIff<S>(s: System<S>, step: Step<S>, o: Settings)
    requires Inv(s, o) && FlushServed(s) && Enabled(s, step, o)
    ensures FlushServed(Next(s, step, o)) <==> !TakesFlushEvent(s, step)
  {
    hide Fifo, BatchFits, References;
    if step.Fetch? {
      ServedAfterFetch(s, o);
    } else if step.Receive? || step.QueueEos? || step.QueueSegment? || step.SendAnyway? || step.QueueReset? {
      ServedAfterClient(s, step, o);
    } else {
      ServedAfterOther(s, step, o);
    }
  }

  lemma ServedAfterFetch<S>(s: System<S>, o: Settings)
    requires WellPaired(s.q.list) && FlushServed(s) && s.thread.Top?
    ensures FlushServed(AfterFetch(s, o))
  {
    if !s.q.terminate && s.q.flushing {
      PullNothing<S>(o);
    }
    hide Pull, WellPaired, Wrapped, OfList, OnList;
  }

  lemma ServedAfterClient<S>(s: System<S>, step: Step<S>, o: Settings)
    requires WellPaired(s.q.list) && FlushServed(s) && Enabled(s, step, o)
    requires step.Receive? || step.QueueEos? || step.QueueSegment? || step.SendAnyway? || step.QueueReset?
    ensures FlushServed(Next(s, step, o))
  {
    hide Pull, WellPaired, Wrapped, Packed, OfList, OnList, OfControl, AfterFetch, AfterDeliver, AfterControl;
  }

  lemma ServedAfterOther<S>(s: System<S>, step: Step<S>, o: Settings)
    requires WellPaired(s.q.list) && Signalling(s, o) && FlushServed(s) && Enabled(s, step, o) && !step.Fetch?
    requires !step.Receive? && !step.QueueEos? && !step.QueueSegment? && !step.SendAnyway? && !step.QueueReset?
    ensures FlushServed(Next(s, step, o)) <==> !TakesFlushEvent(s, step)
  {
    hide Pull, WellPaired, Wrapped, OfList, OnList, OfControl, AfterFetch, AfterReceive, Restful;
  }

  lemma ResetServedIff<S>(s: System<S>, step: Step<S>, o: Settings)
    requires WellPaired(s.q.list) && ResetServed(s) && Enabled(s, step, o)
    ensures ResetServed(Next(s, step, o)) <==> !TakesResetEvent(s, step, o)
  {
    hide WellPaired;
    if step.Receive? || step.QueueEos? || step.QueueSegment? || step.SendAnyway? || step.QueueReset? {
      ResetAfterClient(s, step, o);
    } else if step.Fetch? {
      ResetAfterFetch(s, o);
    } else if step.Wake? || step.Deliver? || step.Return? || step.ReleaseBatch? || step.Control? || step.Answer? {
      ResetAfterThread(s, step, o);
    } else {
      ResetAfterOther(s, step, o);
    }
  }

  lemma ResetAfterClient<S>(s: System<S>, step: Step<S>, o: Settings)
    requires WellPaired(s.q.list) && ResetServed(s) && Enabled(s, step, o)
    requires step.Receive? || step.QueueEos? || step.QueueSegment? || step.SendAnyway? || step.QueueReset?
    ensures ResetServed(Next(s, step, o))
  {
    hide WellPaired, Wrapped, Packed;
    match step
    case Receive(ss) => StillListed(s.q.list, Packed(ss));
    case QueueEos => StillListed(s.q.list, [EosPacket]);
    case QueueSegment(segment) => StillListed(s.q.list, [NewSegmentMark, Parameters(segment)]);
    case SendAnyway => StillListed(s.q.list, [SendPacket]);
    case QueueReset => assert (s.q.list + [ResetPacket])[|s.q.list|].ResetPacket?;
  }

  lemma ResetAfterFetch<S>(s: System<S>, o: Settings)
    requires WellPaired(s.q.list) && ResetServed(s) && s.thread.Top?
    ensures ResetServed(AfterFetch(s, o))
  {
    if !s.q.terminate && !s.q.flushing && ResetListed(s.q.list) {
      PullReset(s.q.list, s.q.batch, o.size, o.exact);
    }
    hide Pull, WellPaired, ResetListed, Wrapped, OfList;
  }

  lemma ResetAfterThread<S>(s: System<S>, step: Step<S>, o: Settings)
    requires WellPaired(s.q.list) && ResetServed(s) && Enabled(s, step, o)
    requires step.Wake? || step.Deliver? || step.Return? || step.ReleaseBatch? || step.Control? || step.Answer?
    ensures ResetServed(Next(s, step, o))
  {
    hide WellPaired, ResetListed, Wrapped, OfList, OfControl, Pull, Packed, AfterFetch, AfterReceive;
  }

  lemma ResetAfterOther<S>(s: System<S>, step: Step<S>, o: Settings)
    requires WellPaired(s.q.list) && ResetServed(s) && Enabled(s, step, o)
    requires step.CheckSegment? || step.ResetReturns? || step.BeginFlush? || step.EndFlushQuick? || step.EndFlushWait?
             || step.EndFlushOff? || step.EndFlushMark? || step.EndFlushLast? || step.Terminate?
    ensures ResetServed(Next(s, step, o)) <==> !TakesResetEvent(s, step, o)
  {
    hide WellPaired, ResetListed, Wrapped, OfList, OfControl, Pull, Packed, AfterFetch, AfterReceive, AfterDeliver,
         AfterControl;
  }

  lemma StillListed<S>(list: seq<Packet<S>>, packets: seq<Packet<S>>)
    ensures ResetListed(list) ==> ResetListed(list + packets)
  {
    if ResetListed(list) {
      var i :| 0 <= i < |list| && list[i].ResetPacket?;
      assert (list + packets)[i].ResetPacket?;
    }
  }

  /** A reset packet stays on the list or is what the thread takes. */
  lemma {:induction false} PullReset<S>(list: seq<Packet<S>>, batch: seq<S>, size: nat, exact: bool)
    requires WellPaired(list) && ResetListed(list)
    ensures var (list', batch', f) := Pull(list, batch, size, exact);
            ResetListed(list') || (f.Sends? && f.control.Reset?)
    decreases |list|
  {
    if !list[0].ResetPacket? {
      var i :| 0 <= i < |list| && list[i].ResetPacket?;
      var taken := if list[0].NewSegmentMark? then 2 else 1;
      assert list[taken..][i - taken].ResetPacket?;
      match list[0]
      case Sample(x) => if |batch| + 1 != size { PullReset(list[1..], batch + [x], size, exact); }
      case SendPacket => if batch == [] { PullReset(list[1..], batch, size, exact); }
      case _ =>
    }
  }

  // ---------- flushing, over all runs ----------

  datatype Promise = Flushing | Withholding | FlushWaiting | ResetWaiting

  ghost predicate Kept<S>(s: System<S>, o: Settings, p: Promise) {
    match p
    case Flushing => FlushInv(s, o)
    case Withholding => WithheldInv(s)
    case FlushWaiting => FlushServed(s)
    case ResetWaiting => ResetServed(s)
  }

  /** What must not happen for the promise to be kept. */
  ghost predicate Spoils<S>(s: System<S>, step: Step<S>, o: Settings, p: Promise)
    requires WellPaired(s.q.list) && Enabled(s, step, o)
  {
    match p
    case Flushing => Mixed(Next(s, step, o))
    case Withholding => (step.Receive? && !s.flush.NoFlush?) || MixedLoaded(Next(s, step, o))
    case FlushWaiting => TakesFlushEvent(s, step)
    case ResetWaiting => TakesResetEvent(s, step, o)
  }

  ghost predicate CleanRun<S>(s0: System<S>, steps: seq<Step<S>>, s: System<S>, o: Settings, p: Promise)
    decreases |steps|
  {
    if steps == [] then s == s0
    else
      && WellPaired(s0.q.list) && Enabled(s0, steps[0], o) && !Spoils(s0, steps[0], o, p)
      && CleanRun(Next(s0, steps[0], o), steps[1..], s, o, p)
  }

  lemma StepKeepsPromise<S>(s: System<S>, step: Step<S>, o: Settings, p: Promise)
    requires Inv(s, o) && Kept(s, o, p) && Enabled(s, step, o) && !Spoils(s, step, o, p)
    ensures Kept(Next(s, step, o), o, p)
  {
    assert WellPaired(s.q.list);
    hide Inv, FlushInv, WithheldInv, FlushServed, ResetServed, Enabled, Next;
    match p
    case Flushing => StepKeepsFlush(s, step, o);
    case Withholding => StepKeepsWithheld(s, step, o);
    case FlushWaiting => FlushServedIff(s, step, o);
    case ResetWaiting => ResetServedIff(s, step, o);
  }

  lemma {:induction false} CleanRunKeeps<S>(s0: System<S>, steps: seq<Step<S>>, s: System<S>, o: Settings, p: Promise)
    requires Inv(s0, o) && Kept(s0, o, p) && CleanRun(s0, steps, s, o, p)
    ensures Inv(s, o) && Kept(s, o, p)
    decreases |steps|
  {
    hide Inv, Kept, Spoils, Enabled, Next;
    if steps != [] {
      StepKeepsInv(s0, steps[0], o);
      StepKeepsPromise(s0, steps[0], o, p);
      CleanRunKeeps(Next(s0, steps[0], o), steps[1..], s, o, p);
    }
  }

  lemma StartKept<S>(o: Settings, p: Promise)
    requires o.size > 0
    ensures Inv(Start<S>(), o) && Kept(Start<S>(), o, p)
  {
    StartInv<S>(o);
    hide Inv;
  }

  /** Unless the thread is busy with a reset during a flush, a flush leaves no sample behind, and the thread never sends
      samples of a queue that counts as flushed (the two assertions around the downstream call). */
  lemma FlushIsComplete<S>(steps: seq<Step<S>>, s: System<S>, o: Settings)
    requires o.size > 0 && CleanRun(Start<S>(), steps, s, o, Flushing)
    ensures SamplesGone(s)
    ensures (s.thread.Sending? && s.thread.batch != []) || s.thread.Calling? ==> !s.q.flushed
  {
    StartKept<S>(o, Flushing);
    CleanRunKeeps(Start<S>(), steps, s, o, Flushing);
  }

  /** For clients that send no samples during a flush, the same holds unless there are samples in the queue when the
      thread is busy with a reset and the flush waits for it. */
  lemma WithheldFlushIsComplete<S>(steps: seq<Step<S>>, s: System<S>, o: Settings)
    requires o.size > 0 && CleanRun(Start<S>(), steps, s, o, Withholding)
    ensures SamplesGone(s)
    ensures (s.thread.Sending? && s.thread.batch != []) || s.thread.Calling? ==> !s.q.flushed
  {
    StartKept<S>(o, Withholding);
    CleanRunKeeps(Start<S>(), steps, s, o, Withholding);
  }

  ghost predicate Follows<S>(s0: System<S>, step: Step<S>, s1: System<S>, o: Settings) {
    WellPaired(s0.q.list) && Enabled(s0, step, o) && Next(s0, step, o) == s1
  }

  lemma RunFollows<S>(s0: System<S>, step: Step<S>, s1: System<S>, rest: seq<Step<S>>, s: System<S>, o: Settings)
      returns (steps: seq<Step<S>>)
    requires Follows(s0, step, s1, o) && Run(s1, rest, s, o)
    ensures Run(s0, steps, s, o) && steps == [step] + rest
  {
    steps := [step] + rest;
    hide WellPaired, Enabled, Next;
    RunCons(s0, step, rest, s, o);
  }

  /** If it does, the run can go on so that a flush leaves samples. */
  lemma HeldResetSpoilsFlush<S>(s: System<S>, o: Settings, x: S)
    requires WellPaired(s.q.list) && Mixed(s)
    ensures exists more, s' :: Run(s, more, s', o) && !SamplesGone(s')
  {
    hide Run, Follows, WellPaired;
    if HoldsReset(s.thread) {
      var more, s1 := ResetIsHandled(s, o);
      var s2 := SampleSlipsIn(s1, o, x);
      var rest, s' := FlushEndsEarly(s2, o);
      rest := RunFollows(s1, Receive([x]), s2, rest, s', o);
      RunConcat(s, more, s1, rest, s', o);
    } else if s.q.flushed {
      RunNone(s, s, o);
    } else {
      EventIsSet(s, o);
      var s2 := s.(thread := Top, q := s.q.(flushComplete := true));
      var rest, s' := FlushEndsEarly(s2, o);
      rest := RunFollows(s, Answer, s2, rest, s', o);
    }
  }

  predicate NoReceives<S>(steps: seq<Step<S>>) {
    forall i :: 0 <= i < |steps| ==> !steps[i].Receive?
  }

  /** Then the run can go on, even without another sample, so that a flush leaves samples. */
  lemma LoadedResetSpoilsFlush<S>(s: System<S>, o: Settings)
    requires WellPaired(s.q.list) && MixedLoaded(s)
    ensures exists more, s' :: Run(s, more, s', o) && NoReceives(more) && !SamplesGone(s')
  {
    hide Run, Follows, WellPaired;
    if s.q.flushed {
      RunNone(s, s, o);
    } else if HoldsReset(s.thread) {
      var more, s1 := ResetIsHandled(s, o);
      var rest, s' := FlushEndsEarly(s1, o);
      RunConcat(s, more, s1, rest, s', o);
    } else {
      EventIsSet(s, o);
      var s1 := s.(thread := Top, q := s.q.(flushComplete := true));
      var rest, s' := FlushEndsEarly(s1, o);
      rest := RunFollows(s, Answer, s1, rest, s', o);
    }
  }

  lemma FlushEndsEarly<S>(s2: System<S>, o: Settings) returns (rest: seq<Step<S>>, s': System<S>)
    requires WellPaired(s2.q.list) && !NoSamples(s2) && !s2.q.flushed && s2.q.flushComplete
    requires s2.flush.Quick? || s2.flush.Begun? || s2.flush.Waited? || s2.flush.Unmarked?
    ensures Run(s2, rest, s', o) && NoReceives(rest) && !SamplesGone(s')
  {
    hide Run, Follows, WellPaired, NoSamples, SamplesGone;
    if s2.flush.Begun? {
      FlushWaits(s2, o);
      s' := s2.(q := s2.q.(flushComplete := false), flush := Waited);
      RunNone(s', s', o);
      rest := RunFollows(s2, EndFlushWait, s', [], s', o);
    } else {
      s' := s2;
      RunNone(s', s', o);
      rest := [];
    }
    StillThere(s2, s');
  }

  /** The return code is S_OK again, and the queue takes a sample. */
  lemma SampleSlipsIn<S>(s1: System<S>, o: Settings, x: S) returns (s2: System<S>)
    requires WellPaired(s1.q.list) && s1.q.hr == S_OK && s1.q.flushComplete
    ensures Follows(s1, Receive([x]), s2, o) && WellPaired(s2.q.list) && !NoSamples(s2)
    ensures s2.flush == s1.flush && s2.q.flushComplete && !s2.q.flushed
  {
    assert Packed([x]) == [Sample(x)];
    PairedPacked([x]);
    PairedConcat(s1.q.list, Packed([x]));
    hide WellPaired, Packed, Wrapped, Pull, OfList, OnList;
    s2 := Next(s1, Receive([x]), o);
    assert s2.q.list[|s1.q.list|] == Sample(x);
  }

  lemma StillThere<S>(s: System<S>, s': System<S>)
    requires !NoSamples(s) && s'.q.list == s.q.list && s'.q.batch == s.q.batch && s'.thread == s.thread
    requires s'.flush.Quick? || s'.flush.Waited? || s'.flush.Unmarked?
    ensures !SamplesGone(s')
  {
  }

  lemma RunNone<S>(s: System<S>, s': System<S>, o: Settings)
    ensures Run(s, [], s', o) <==> s == s'
  {
  }

  lemma RunFirst<S>(s0: System<S>, steps: seq<Step<S>>, s: System<S>, o: Settings)
    requires Run(s0, steps, s, o) && steps != []
    ensures WellPaired(s0.q.list) && Enabled(s0, steps[0], o) && Run(Next(s0, steps[0], o), steps[1..], s, o)
  {
  }

  lemma {:induction false} RunConcat<S>(s0: System<S>, a: seq<Step<S>>, s1: System<S>, b: seq<Step<S>>,
      s2: System<S>, o: Settings)
    requires Run(s0, a, s1, o) && Run(s1, b, s2, o)
    ensures Run(s0, a + b, s2, o)
    decreases |a|
  {
    hide *;
    if a == [] {
      assert a + b == b;
      RunNone(s0, s1, o);
    } else {
      RunFirst(s0, a, s1, o);
      RunConcat(Next(s0, a[0], o), a[1..], s1, b, s2, o);
      RunCons(s0, a[0], a[1..] + b, s2, o);
      assert [a[0]] + (a[1..] + b) == a + b;
    }
  }

  function StepsToTop<S>(t: Phase<S>): nat {
    match t
    case Sending(_, _) => 4
    case Calling(_, _) => 3
    case Releasing(_, _) => 2
    case Controlling(_) => 1
    case _ => 0
  }

  lemma ResetAdvances<S>(s: System<S>, o: Settings) returns (step: Step<S>, s': System<S>)
    requires WellPaired(s.q.list) && HoldsReset(s.thread) && !s.thread.Controlling?
    ensures Follows(s, step, s', o) && !step.Receive? && s'.flush == s.flush
    ensures s'.q.list == s.q.list && s'.q.batch == s.q.batch && s'.q.flushed == s.q.flushed
    ensures HoldsReset(s'.thread) && StepsToTop(s'.thread) < StepsToTop(s.thread)
  {
    hide WellPaired, Packed, Wrapped, Pull, OfList, OnList, OfControl, AfterFetch, AfterReceive, AfterControl;
    if s.thread.Sending? {
      step, s' := Deliver, Next(s, Deliver, o);
    } else if s.thread.Calling? {
      step, s' := Return(S_OK), Next(s, Return(S_OK), o);
    } else {
      step, s' := ReleaseBatch, Next(s, ReleaseBatch, o);
    }
  }

  /** The thread deals with the batch and the reset in its hands. */
  lemma {:induction false} ResetIsHandled<S>(s: System<S>, o: Settings) returns (more: seq<Step<S>>, s': System<S>)
    requires WellPaired(s.q.list) && HoldsReset(s.thread)
    ensures Run(s, more, s', o) && WellPaired(s'.q.list) && NoReceives(more)
    ensures s'.flush == s.flush && s'.q.hr == S_OK && s'.q.flushComplete
    ensures s'.q.list == s.q.list && s'.q.batch == s.q.batch && s'.q.flushed == s.q.flushed
    decreases StepsToTop(s.thread)
  {
    hide WellPaired, Follows, Run, StepsToTop;
    if s.thread.Controlling? {
      ResetTakesEffect(s, o);
      var s1 := s.(thread := Answering, q := s.q.(hr := S_OK));
      EventIsSet(s1, o);
      s' := s1.(thread := Top, q := s1.q.(flushComplete := true));
      RunNone(s', s', o);
      more := RunFollows(s1, Answer, s', [], s', o);
      more := RunFollows(s, Control, s1, more, s', o);
    } else {
      var step, s1 := ResetAdvances(s, o);
      more, s' := ResetIsHandled(s1, o);
      more := RunFollows(s, step, s1, more, s', o);
    }
  }

  /** A client waits in Reset, the thread has its packet, and a sample has come. */
  function SampleBehind(): System<int> {
    Start<int>().(thread := Sending([], Reset), resetters := 1,
                  q := OutputQueueState.Initial().(list := [Sample(7)], flushed := false),
                  input := [Data(7)], received := multiset{7})
  }

  lemma ResetComes(o: Settings) returns (s1: System<int>, s2: System<int>)
    ensures Follows(Start<int>(), QueueReset, s1, o) && Follows(s1, Fetch, s2, o)
    ensures s2 == Start<int>().(thread := Sending([], Reset), resetters := 1)
  {
    PullsReset<int>(o);
    hide Pull, WellPaired, Wrapped, OfList, OnList, Packed, AfterReceive, AfterDeliver, AfterControl, OfControl;
    s1 := Next(Start<int>(), QueueReset, o);
    assert s1.q.list == [ResetPacket];
    s2 := Next(s1, Fetch, o);
  }

  lemma PullsReset<S>(o: Settings)
    ensures WellPaired<S>([]) && WellPaired<S>([ResetPacket])
    ensures Pull<S>([ResetPacket], [], o.size, o.exact) == ([], [], Sends([], Reset))
  {
  }

  lemma SampleComes(s2: System<int>, o: Settings)
    requires s2 == Start<int>().(thread := Sending([], Reset), resetters := 1)
    ensures Follows(s2, Receive([7]), SampleBehind(), o)
  {
    OneSample();
    hide Pull, OfList, OnList, AfterFetch, AfterDeliver, AfterControl, OfControl, Packed, Wrapped;
  }

  lemma OneSample()
    ensures [] + Packed([7]) == [Sample(7)] && multiset{} + multiset([7]) == multiset{7}
            && [] + Wrapped([7]) == [Data(7)]
  {
  }

  lemma SampleBehindRuns(rest: seq<Step<int>>, s: System<int>, o: Settings)
    requires o.size > 0 && Run(SampleBehind(), rest, s, o)
    ensures Reachable(s, o)
  {
    hide Follows, Run, Start, SampleBehind;
    var s1, s2 := ResetComes(o);
    SampleComes(s2, o);
    var steps := RunFollows(s2, Receive([7]), SampleBehind(), rest, s, o);
    steps := RunFollows(s1, Fetch, s2, steps, s, o);
    steps := RunFollows(Start<int>(), QueueReset, s1, steps, s, o);
  }

  lemma NoBatchToDeliver<S>(s0: System<S>, o: Settings)
    requires s0.thread == Sending([], Reset) && WellPaired(s0.q.list)
    ensures Follows(s0, Deliver, s0.(thread := Controlling(Reset)), o)
  {
    hide Pull, WellPaired, Wrapped, OfList, OnList, Packed, AfterFetch, AfterReceive, AfterControl, OfControl;
  }

  lemma ResetTakesEffect<S>(s0: System<S>, o: Settings)
    requires s0.thread == Controlling(Reset) && WellPaired(s0.q.list)
    ensures Follows(s0, Control, s0.(thread := Answering, q := s0.q.(hr := S_OK)), o)
  {
    assert s0.done + [] == s0.done;
    hide Pull, WellPaired, Wrapped, OfList, OnList, Packed, AfterFetch, AfterReceive, AfterDeliver;
  }

  lemma EventIsSet<S>(s0: System<S>, o: Settings)
    requires s0.thread.Answering? && WellPaired(s0.q.list)
    ensures Follows(s0, Answer, s0.(thread := Top, q := s0.q.(flushComplete := true)), o)
  {
    hide Pull, WellPaired, Wrapped, OfList, OnList, Packed, AfterFetch, AfterReceive, AfterDeliver, AfterControl;
  }

  lemma FlushBegins<S>(s0: System<S>, o: Settings)
    requires WellPaired(s0.q.list) && s0.flush.NoFlush? && s0.q.hr == S_OK && !s0.q.flushed && s0.q.waiting == 0
    ensures Follows(s0, BeginFlush,
            s0.(q := s0.q.(flushing := true, hr := S_FALSE, flushComplete := false), flush := Begun, clean := false), o)
  {
    hide Pull, WellPaired, Wrapped, OfList, OnList, Packed, AfterFetch, AfterReceive, AfterDeliver, AfterControl;
  }

  lemma OnePaired()
    ensures WellPaired([Sample(7)])
  {
  }

  lemma FlushWaits<S>(s0: System<S>, o: Settings)
    requires WellPaired(s0.q.list) && s0.flush.Begun? && !s0.q.flushed && s0.q.flushComplete
    ensures Follows(s0, EndFlushWait, s0.(q := s0.q.(flushComplete := false), flush := Waited), o)
  {
    hide Pull, WellPaired, Wrapped, OfList, OnList, Packed, AfterFetch, AfterReceive, AfterDeliver, AfterControl;
  }

  /** There are such runs, even without a sample that comes during the flush: the reset sets the event of EndFlush. */
  lemma ResetLeavesSample(o: Settings)
    requires o.size > 0
    ensures exists s: System<int> :: Reachable(s, o) && s.flush.Waited? && s.q.list == [Sample(7)]
  {
    hide Follows, Run, Reachable, WellPaired;
    OnePaired();
    var s0 := SampleBehind();
    FlushBegins(s0, o);
    var s1 := s0.(q := s0.q.(flushing := true, hr := S_FALSE), flush := Begun, clean := false);
    NoBatchToDeliver(s1, o);
    var s2 := s1.(thread := Controlling(Reset));
    ResetTakesEffect(s2, o);
    var s3 := s2.(thread := Answering, q := s2.q.(hr := S_OK));
    EventIsSet(s3, o);
    var s4 := s3.(thread := Top, q := s3.q.(flushComplete := true));
    FlushWaits(s4, o);
    var s5 := s4.(q := s4.q.(flushComplete := false), flush := Waited);
    RunNone(s5, s5, o);
    var steps := RunFollows(s4, EndFlushWait, s5, [], s5, o);
    steps := RunFollows(s3, Answer, s4, steps, s5, o);
    steps := RunFollows(s2, Control, s3, steps, s5, o);
    steps := RunFollows(s1, Deliver, s2, steps, s5, o);
    steps := RunFollows(s0, BeginFlush, s1, steps, s5, o);
    SampleBehindRuns(steps, s5, o);
  }

  /** Unless a client in Reset takes the event while the thread sleeps, a client in EndFlush is not left waiting. */
  lemma FlushIsWoken<S>(steps: seq<Step<S>>, s: System<S>, o: Settings)
    requires o.size > 0 && CleanRun(Start<S>(), steps, s, o, FlushWaiting)
    ensures s.flush.Begun? && !s.q.flushComplete && s.thread.Parked? ==> Enabled(s, Wake, o)
  {
    StartKept<S>(o, FlushWaiting);
    CleanRunKeeps(Start<S>(), steps, s, o, FlushWaiting);
  }

  /** Nor is a client in Reset, unless somebody else takes or clears its event. */
  lemma ResetIsWoken<S>(steps: seq<Step<S>>, s: System<S>, o: Settings)
    requires o.size > 0 && CleanRun(Start<S>(), steps, s, o, ResetWaiting)
    ensures s.resetters > 0 && !s.q.flushComplete && s.thread.Parked? ==> Enabled(s, Wake, o) || s.q.terminate
  {
    hide CleanRun, Inv, Kept;
    StartKept<S>(o, ResetWaiting);
    CleanRunKeeps(Start<S>(), steps, s, o, ResetWaiting);
    SleepersReset(s, o);
  }

  lemma SleepersReset<S>(s: System<S>, o: Settings)
    requires Inv(s, o) && Kept(s, o, ResetWaiting)
    ensures s.resetters > 0 && !s.q.flushComplete && s.thread.Parked? ==> s.q.sem > 0 || s.q.terminate
  {
    hide Fifo, BatchFits, References, WellPaired;
  }

  /** A client waits in Reset and another in EndFlush, and the thread has set their event and sleeps. */
  predicate TwoWaiting(s: System<int>) {
    s.q.list == [] && s.q.flushComplete && !s.q.flushed && !s.q.terminate && s.thread.Parked? && s.q.sem == 0
        && s.flush.Begun? && s.resetters == 1
  }

  lemma EitherIsLeft(s: System<int>, o: Settings)
    requires TwoWaiting(s)
    ensures Enabled(s, ResetReturns, o) && TakesFlushEvent(s, ResetReturns)
    ensures Enabled(s, EndFlushWait, o) && TakesResetEvent(s, EndFlushWait, o)
  {
  }

  /** The thread drops what is in the queue, and sets the event. */
  lemma FlushDrops<S>(s0: System<S>, o: Settings) returns (s1: System<S>)
    requires WellPaired(s0.q.list) && s0.thread.Top? && s0.q.flushing && !s0.q.terminate
    ensures Follows(s0, Fetch, s1, o) && s1.thread.Parked? && s1.flush == s0.flush && s1.resetters == s0.resetters
    ensures s1.q == s0.q.(list := [], batch := [], flushComplete := true, waiting := s0.q.waiting + 1)
  {
    PullNothing<S>(o);
    hide Pull, WellPaired, Wrapped, OfList, OnList, Packed, AfterReceive, AfterDeliver, AfterControl;
    s1 := Next(s0, Fetch, o);
  }

  /** There are runs to that: the reset is dealt with just before the flush begins, and its client is slow. */
  lemma OneEventTwoWaiters(o: Settings)
    requires o.size > 0
    ensures exists s: System<int> :: Reachable(s, o) && TwoWaiting(s)
  {
    hide Follows, Run, Reachable, WellPaired;
    OnePaired();
    var s0 := SampleBehind();
    NoBatchToDeliver(s0, o);
    var s1 := s0.(thread := Controlling(Reset));
    ResetTakesEffect(s1, o);
    var s2 := s1.(thread := Answering, q := s1.q.(hr := S_OK));
    EventIsSet(s2, o);
    var s3 := s2.(thread := Top, q := s2.q.(flushComplete := true));
    FlushBegins(s3, o);
    var s4 := s3.(q := s3.q.(flushing := true, hr := S_FALSE, flushComplete := false), flush := Begun, clean := false);
    var s5 := FlushDrops(s4, o);
    RunNone(s5, s5, o);
    var steps := RunFollows(s4, Fetch, s5, [], s5, o);
    steps := RunFollows(s3, BeginFlush, s4, steps, s5, o);
    steps := RunFollows(s2, Answer, s3, steps, s5, o);
    steps := RunFollows(s1, Control, s2, steps, s5, o);
    steps := RunFollows(s0, Deliver, s1, steps, s5, o);
    SampleBehindRuns(steps, s5, o);
  }
}
