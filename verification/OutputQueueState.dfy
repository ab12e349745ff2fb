/**
 The state COutputQueue keeps under its lock when it has a thread (outputq.cpp), and what each lock
 section does to it.  Its special sample pointers are constructors here.
 */
module OutputQueueState {
  import opened HResults

  datatype Segment = Segment(tStart: int, tStop: int, dRate: real)

  /** An entry of m_List.  A NewSegmentMark is followed by its parameters. */
  datatype Packet<S> =
    | Sample(sample: S) | SendPacket | EosPacket | ResetPacket | NewSegmentMark | Parameters(segment: Segment)

  datatype Queue<S> = Queue(
    list: seq<Packet<S>>, batch: seq<S>, waiting: nat, sem: nat, hr: HRESULT,
    flushing: bool, flushed: bool, terminate: bool, flushComplete: bool)

  function Initial<S>(): Queue<S> {
    Queue([], [], 0, 0, S_OK, false, true, false, false)
  }

  ghost predicate WellPaired<S>(list: seq<Packet<S>>) {
    if list == [] then true
    else match list[0]
      case NewSegmentMark => |list| >= 2 && list[1].Parameters? && WellPaired(list[2..])
      case Parameters(_) => false
      case _ => WellPaired(list[1..])
  }

  function Notified<S>(q: Queue<S>): Queue<S> {
    q.(sem := q.sem + q.waiting, waiting := 0)
  }

  // ---------- the thread ----------

  /** What made the thread stop taking packets off the list. */
  datatype Control = NoControl | Send | Eos | Reset | NewSegment(segment: Segment)

  datatype Fetched<S> = Terminated | Parks | Sends(batch: seq<S>, control: Control)

  /** The inner loop of ThreadProc: packets join the batch till it is full, the list ends, or a control packet comes. */
  function Pull<S>(list: seq<Packet<S>>, batch: seq<S>, size: nat, exact: bool)
    : (r: (seq<Packet<S>>, seq<S>, Fetched<S>))
    requires WellPaired(list)
    ensures WellPaired(r.0)
  {
    if list == [] then
      if exact || batch == [] then ([], batch, Parks) else ([], [], Sends(batch, NoControl))
    else match list[0]
      case Sample(x) =>
        if |batch| + 1 == size then (list[1..], [], Sends(batch + [x], NoControl))
        else Pull(list[1..], batch + [x], size, exact)
      case SendPacket =>
        if batch == [] then Pull(list[1..], batch, size, exact) else (list[1..], [], Sends(batch, Send))
      case EosPacket => (list[1..], [], Sends(batch, Eos))
      case ResetPacket => (list[1..], [], Sends(batch, Reset))
      case NewSegmentMark => (list[2..], [], Sends(batch, NewSegment(list[1].segment)))
  }

  /** FreeSamples. */
  function Freed<S>(q: Queue<S>): Queue<S> {
    q.(list := [], batch := [])
  }

  /** The lock section of ThreadProc. */
  function Fetch<S>(q: Queue<S>, size: nat, exact: bool): (Queue<S>, Fetched<S>)
    requires WellPaired(q.list)
  {
    if q.terminate then (Freed(q), Terminated)
    else
      var q1 := if q.flushing then Freed(q).(flushComplete := true) else q;
      var (list, batch, f) := Pull(q1.list, q1.batch, size, exact);
      (q1.(list := list, batch := batch, waiting := if f.Parks? then q1.waiting + 1 else q1.waiting), f)
  }

  // ---------- the clients ----------

  function Packed<S>(ss: seq<S>): seq<Packet<S>> {
    seq(|ss|, i requires 0 <= i < |ss| => Sample(ss[i]))
  }

  /** ReceiveMultiple: under a sticky error nothing is queued. */
  function Received<S>(q: Queue<S>, ss: seq<S>, size: nat, exact: bool): Queue<S> {
    if q.hr != S_OK then q
    else
      var q1 := q.(flushed := false, list := q.list + Packed(ss));
      if !exact || |q1.batch| + |q1.list| >= size then Notified(q1) else q1
  }

  function Queued<S>(q: Queue<S>, packets: seq<Packet<S>>): Queue<S> {
    Notified(q.(list := q.list + packets))
  }

  function EosQueued<S>(q: Queue<S>): Queue<S> {
    if q.hr != S_OK then q else Queued(q.(flushed := false), [EosPacket])
  }

  /** With the optimization, a queue that has had nothing since the last flush does not trouble its thread. */
  function BeginFlushed<S>(q: Queue<S>, flushingOpt: bool): Queue<S> {
    var q1 := q.(flushing := true, hr := if q.hr == S_OK then S_FALSE else q.hr);
    if q1.flushed && flushingOpt then q1 else Notified(q1.(flushComplete := false))
  }

  // ---------- packets stay paired ----------

  lemma {:induction false} PairedConcat<S>(a: seq<Packet<S>>, b: seq<Packet<S>>)
    requires WellPaired(a)
    ensures WellPaired(a + b) <==> WellPaired(b)
    decreases |a|
  {
    if a == [] {
      assert a + b == b;
    } else if a[0].NewSegmentMark? {
      PairedConcat(a[2..], b);
      assert (a + b)[2..] == a[2..] + b;
    } else {
      PairedConcat(a[1..], b);
      assert (a + b)[1..] == a[1..] + b;
    }
  }

  lemma {:induction false} PairedPacked<S>(ss: seq<S>)
    ensures WellPaired(Packed(ss))
  {
    if ss != [] {
      PairedPacked(ss[1..]);
      assert Packed(ss)[1..] == Packed(ss[1..]);
    }
  }
}
