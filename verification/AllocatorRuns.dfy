/**
 Any number of threads and clients over one allocator (amfilter.cpp 4732-4967): lock sections and
 semaphore waits interleave freely.
 */
module AllocatorRuns {
  import opened HResults
  import opened MemLayout
  import opened AllocatorState

  /** What a thread is doing inside the allocator's code, outside the lock. */
  datatype Phase<S> =
    | Idle
    | Asking(noWait: bool)      // in GetBuffer, before the lock section
    | Parked                    // in GetBuffer, before or in the wait on the semaphore
    | Taken(sample: S)          // in GetBuffer, before the sample's count is set to one
    | Returning(sample: S)      // in Release, after the sample's count reached zero
    | Dropping                  // about to drop the allocator's reference to itself

  /** `refs` counts the references to each sample that exists; `self` is the allocator's count of itself. */
  datatype System<S> = System(a: State<S>, threads: map<nat, Phase<S>>, refs: map<S, nat>, self: int, timeouts: nat)

  datatype Step<S> =
    | Ask(t: nat, noWait: bool)
    | Try(t: nat)
    | Wake(t: nat)
    | Grant(t: nat)
    | AddRef(sample: S)
    | Release(t: nat, sample: S)
    | Put(t: nat)
    | Decommit(t: nat)
    | Drop(t: nat)
    | Commit(a: Allocation<S>)
    | SetProperties(props: Props)

  function Start<S>(): System<S> {
    System(AllocatorState.Initial(), map[], map[], 0, 0)
  }

  function At<S>(s: System<S>, t: nat): Phase<S> {
    if t in s.threads then s.threads[t] else Idle
  }

  function Goes<S>(s: System<S>, t: nat, p: Phase<S>): System<S> {
    s.(threads := s.threads[t := p])
  }

  ghost predicate Enabled<S>(s: System<S>, step: Step<S>) {
    match step
    case Ask(t, _) => At(s, t).Idle?
    case Try(t) => At(s, t).Asking?
    case Wake(t) => At(s, t).Parked? && s.a.sem > 0
    case Grant(t) => At(s, t).Taken?
    case AddRef(p) => p in s.refs && s.refs[p] > 0
    case Release(t, p) => At(s, t).Idle? && p in s.refs && s.refs[p] > 0
    case Put(t) => At(s, t).Returning?
    case Decommit(t) => At(s, t).Idle?
    case Drop(t) => At(s, t).Dropping?
    case Commit(a) => Allocates(s.a) ==> Possible(s.a, a) && NewSamples(a)
    case SetProperties(_) => true
  }

  /** Allocation makes every sample once. */
  ghost predicate NewSamples<S>(a: Allocation<S>) {
    (a.Failed? || a.Fresh?) ==> NoDups(a.made)
  }

  ghost predicate NoDups<S>(c: seq<S>) {
    forall i, j :: 0 <= i < j < |c| ==> c[i] != c[j]
  }

  ghost function Next<S>(s: System<S>, step: Step<S>): System<S>
    requires Enabled(s, step)
  {
    match step
    case Ask(t, noWait) => Goes(s, t, Asking(noWait))
    case Try(t) =>
      var (a, r) := AllocatorState.Try(s.a);
      (match r
       case NotCommitted => Goes(s, t, Idle)
       case NoneFree => if At(s, t).noWait then Goes(s, t, Idle).(a := a, timeouts := s.timeouts + 1)
           else Goes(s, t, Parked).(a := a)
       case Got(p) => Goes(s, t, Taken(p)).(a := a))
    case Wake(t) => Goes(s, t, Asking(false)).(a := s.a.(sem := s.a.sem - 1))
    case Grant(t) => Goes(s, t, Idle).(refs := s.refs[At(s, t).sample := 1])
    case AddRef(p) => s.(refs := s.refs[p := s.refs[p] + 1])
    case Release(t, p) => (if s.refs[p] == 1 then Goes(s, t, Returning(p)) else s).(refs := s.refs[p := s.refs[p] - 1])
    case Put(t) =>
      var (a, done) := AllocatorState.Put(s.a, At(s, t).sample);
      Goes(s, t, if done then Dropping else Idle).(a := a)
    case Decommit(t) =>
      var (a, done) := Decommitted(s.a);
      Goes(s, t, if done then Dropping else Idle).(a := a)
    case Drop(t) => Goes(s, t, Idle).(self := s.self - 1)
    case Commit(a) =>
      var made := Committed(s.a, a);
      s.(a := made,
         refs := if Allocates(s.a) && (a.Failed? || a.Fresh?) then Zeroes(a.made) else s.refs,
         self := if Allocates(s.a) && made.committed then s.self + 1 else s.self)
    case SetProperties(props) => s.(a := Configured(s.a, props).0)
  }

  ghost function Zeroes<S>(made: seq<S>): map<S, nat> {
    map p | p in made :: 0
  }

  // ---------- what every step keeps ----------

  ghost function Waiters<S>(s: System<S>): set<nat> { set t | t in s.threads && s.threads[t].Parked? }

  ghost function Droppers<S>(s: System<S>): set<nat> { set t | t in s.threads && s.threads[t].Dropping? }

  /** The statement of amfilter.h 1412-1416, with what its second claim leaves out. */
  ghost predicate Signalling<S>(s: System<S>) {
    && (s.a.free != [] ==> s.a.waiting == 0)
    && (!s.a.committed ==> s.a.waiting == 0)
    && s.a.waiting + s.a.sem == |Waiters(s)| + s.timeouts
  }

  predicate Carries<S>(p: Phase<S>) { p.Taken? || p.Returning? }

  /** Each sample that exists is in one place: on the free list, in the hands of one thread, or with its clients. */
  ghost predicate Custody<S>(s: System<S>) {
    && NoDups(s.a.free)
    && (forall p :: p in s.a.free ==> p in s.refs && s.refs[p] == 0)
    && (forall t :: t in s.threads && Carries(s.threads[t]) ==> Carried(s, s.threads[t].sample))
    && (forall t, u :: t in s.threads && u in s.threads && t != u && Carries(s.threads[t]) && Carries(s.threads[u]) ==>
          s.threads[t].sample != s.threads[u].sample)
    && (forall p :: p in s.refs && s.refs[p] == 0 && p !in s.a.free ==> InHand(s, p))
  }

  ghost predicate Carried<S>(s: System<S>, p: S) {
    p in s.refs && s.refs[p] == 0 && p !in s.a.free
  }

  ghost predicate InHand<S>(s: System<S>, p: S) {
    exists t :: t in s.threads && Carries(s.threads[t]) && s.threads[t].sample == p
  }

  /** The commit and decommit flags, against what is out. */
  ghost predicate Flags<S>(a: State<S>) {
    && !(a.committed && a.pending)
    && |a.free| <= a.lAllocated
    && (a.pending ==> |a.free| < a.lAllocated)
    && (Allocates(a) ==> |a.free| == a.lAllocated)
    && (!Allocates(a) ==> !a.changed)
    && (!a.changed ==> a.lAllocated == a.props.cBuffers)
  }

  ghost predicate Inv<S>(s: System<S>) {
    && Signalling(s)
    && Custody(s)
    && Flags(s.a)
    && |s.refs| == s.a.lAllocated
    && s.self == (if Allocates(s.a) then 0 else 1) + |Droppers(s)|
  }

  // ---------- small facts ----------

  /** A thread that changes phase joins or leaves the waiters and the droppers. */
  lemma WaitersAfter<S>(s: System<S>, t: nat, p: Phase<S>)
    ensures |Waiters(Goes(s, t, p))|
            == |Waiters(s)| + (if p.Parked? then 1 else 0) - (if At(s, t).Parked? then 1 else 0)
    ensures |Droppers(Goes(s, t, p))|
            == |Droppers(s)| + (if p.Dropping? then 1 else 0) - (if At(s, t).Dropping? then 1 else 0)
  {
    WaitingAfter(s, t, p);
    DroppingAfter(s, t, p);
  }

  lemma WaitingAfter<S>(s: System<S>, t: nat, p: Phase<S>)
    ensures |Waiters(Goes(s, t, p))|
            == |Waiters(s)| + (if p.Parked? then 1 else 0) - (if At(s, t).Parked? then 1 else 0)
  {
    assert Waiters(Goes(s, t, p)) == if p.Parked? then Waiters(s) + {t} else Waiters(s) - {t};
    assert At(s, t).Parked? <==> t in Waiters(s);
  }

  lemma DroppingAfter<S>(s: System<S>, t: nat, p: Phase<S>)
    ensures |Droppers(Goes(s, t, p))|
            == |Droppers(s)| + (if p.Dropping? then 1 else 0) - (if At(s, t).Dropping? then 1 else 0)
  {
    assert Droppers(Goes(s, t, p)) == if p.Dropping? then Droppers(s) + {t} else Droppers(s) - {t};
    assert At(s, t).Dropping? <==> t in Droppers(s);
  }

  /** Only the threads matter to these sets. */
  lemma SameThreads<S>(s: System<S>, s': System<S>)
    requires s.threads == s'.threads
    ensures Waiters(s) == Waiters(s') && Droppers(s) == Droppers(s')
  {
  }

  ghost function Elements<S>(c: seq<S>): set<S> { set p | p in c }

  lemma {:induction false} CountElements<S>(c: seq<S>)
    requires NoDups(c)
    ensures |Elements(c)| == |c|
  {
    if c != [] {
      CountElements(c[1..]);
      assert Elements(c) == {c[0]} + Elements(c[1..]);
    }
  }

  lemma SubsetOfSameSize<S>(a: set<S>, b: set<S>)
    requires a <= b && |a| >= |b|
    ensures a == b
  {
    assert b == a + (b - a);
  }

  lemma SubsetSize<S>(a: set<S>, b: set<S>)
    requires a <= b
    ensures |a| <= |b|
  {
    assert b == a + (b - a);
  }

  /** When the list is as long as there are samples, all of them are on it. */
  lemma AllHome<S>(s: System<S>)
    requires Custody(s) && |s.refs| == s.a.lAllocated == |s.a.free|
    ensures forall p :: p in s.refs <==> p in s.a.free
    ensures forall t :: t in s.threads ==> !Carries(s.threads[t])
  {
    CountElements(s.a.free);
    assert |s.refs.Keys| == |s.refs|;
    SubsetOfSameSize(Elements(s.a.free), s.refs.Keys);
    assert forall p :: p in s.refs <==> p in Elements(s.a.free);
  }

  /** A sample that is not on the list leaves it shorter than the number of samples. */
  lemma SomeoneOut<S>(s: System<S>, p: S)
    requires NoDups(s.a.free) && (forall q :: q in s.a.free ==> q in s.refs) && |s.refs| == s.a.lAllocated
    requires p in s.refs && p !in s.a.free
    ensures |s.a.free| < s.a.lAllocated
  {
    CountElements(s.a.free);
    assert |s.refs.Keys| == |s.refs|;
    SubsetSize(Elements(s.a.free) + {p}, s.refs.Keys);
    assert |Elements(s.a.free) + {p}| == |s.a.free| + 1;
  }

  // ---------- one step ----------

  lemma TryKeeps<S>(s: System<S>, t: nat)
    requires Inv(s) && Enabled(s, Try(t))
    ensures Inv(Next(s, Try(t)))
  {
    var s' := Next(s, Try(t));
    WaitersAfter(s, t, s'.threads[t]);
    SameThreads(s', Goes(s, t, s'.threads[t]));
    TryCustody(s, t);
  }

  lemma TryCustody<S>(s: System<S>, t: nat)
    requires Custody(s) && Enabled(s, Try(t))
    ensures Custody(Next(s, Try(t)))
  {
    var s' := Next(s, Try(t));
    if AllocatorState.Try(s.a).1.Got? {
      var p := s.a.free[0];
      assert s'.a.free == s.a.free[1..];
      assert p !in s'.a.free;
      assert s'.threads[t] == Taken(p);
      assert InHand(s', p);
    }
    forall p | p in s.refs && InHand(s, p)
      ensures InHand(s', p)
    {
      StillInHand(s, s', t, p);
    }
  }

  /** Only thread t changed, and it carried nothing. */
  lemma StillInHand<S>(s: System<S>, s': System<S>, t: nat, p: S)
    requires InHand(s, p) && !Carries(At(s, t))
    requires forall u :: u in s.threads && u != t ==> u in s'.threads && s'.threads[u] == s.threads[u]
    ensures InHand(s', p)
  {
    var u :| u in s.threads && Carries(s.threads[u]) && s.threads[u].sample == p;
    assert s'.threads[u] == s.threads[u];
  }

  lemma PutKeeps<S>(s: System<S>, t: nat)
    requires Inv(s) && Enabled(s, Put(t))
    ensures Inv(Next(s, Put(t)))
  {
    var s' := Next(s, Put(t));
    var p := s.threads[t].sample;
    assert Carried(s, p);
    SomeoneOut(s, p);
    WaitersAfter(s, t, s'.threads[t]);
    SameThreads(s', Goes(s, t, s'.threads[t]));
    PutCustody(s, t);
  }

  lemma PutCustody<S>(s: System<S>, t: nat)
    requires Custody(s) && Enabled(s, Put(t))
    ensures Custody(Next(s, Put(t)))
  {
    var s', p := Next(s, Put(t)), s.threads[t].sample;
    assert Carried(s, p);
    assert s'.a.free == [p] + s.a.free;
    forall q | q in s.refs && q != p && InHand(s, q)
      ensures InHand(s', q)
    {
      var u :| u in s.threads && Carries(s.threads[u]) && s.threads[u].sample == q;
      assert s'.threads[u] == s.threads[u];
    }
  }

  lemma GrantKeeps<S>(s: System<S>, t: nat)
    requires Inv(s) && Enabled(s, Grant(t))
    ensures Inv(Next(s, Grant(t)))
  {
    var s', p := Next(s, Grant(t)), s.threads[t].sample;
    assert Carried(s, p);
    WaitersAfter(s, t, Idle);
    SameThreads(s', Goes(s, t, Idle));
    assert s'.refs.Keys == s.refs.Keys;
    GrantCustody(s, t);
  }

  lemma GrantCustody<S>(s: System<S>, t: nat)
    requires Custody(s) && Enabled(s, Grant(t))
    ensures Custody(Next(s, Grant(t)))
  {
    var s', p := Next(s, Grant(t)), s.threads[t].sample;
    assert Carried(s, p);
    forall q | q in s.refs && q != p && InHand(s, q)
      ensures InHand(s', q)
    {
      var u :| u in s.threads && Carries(s.threads[u]) && s.threads[u].sample == q;
      assert s'.threads[u] == s.threads[u];
    }
    assert forall u :: u in s'.threads && Carries(s'.threads[u]) ==> u != t && s'.threads[u] == s.threads[u];
  }

  lemma ReleaseKeeps<S>(s: System<S>, t: nat, p: S)
    requires Inv(s) && Enabled(s, Release(t, p))
    ensures Inv(Next(s, Release(t, p)))
  {
    var s' := Next(s, Release(t, p));
    WaitersAfter(s, t, At(s', t));
    SameThreads(s', if s.refs[p] == 1 then Goes(s, t, Returning(p)) else s);
    assert s'.refs.Keys == s.refs.Keys;
    ReleaseCustody(s, t, p);
  }

  lemma ReleaseCustody<S>(s: System<S>, t: nat, p: S)
    requires Custody(s) && Enabled(s, Release(t, p))
    ensures Custody(Next(s, Release(t, p)))
  {
    var s' := Next(s, Release(t, p));
    if s.refs[p] == 1 {
      assert s'.threads[t] == Returning(p);
      assert InHand(s', p);
    }
    forall q | q in s.refs && InHand(s, q)
      ensures InHand(s', q)
    {
      StillInHand(s, s', t, q);
    }
    assert forall u :: u in s.threads && Carries(s.threads[u]) ==> s.threads[u].sample != p;
  }

  lemma CommitKeeps<S>(s: System<S>, a: Allocation<S>)
    requires Inv(s) && Enabled(s, Commit(a))
    ensures Inv(Next(s, Commit(a)))
  {
    var s' := Next(s, Commit(a));
    SameThreads(s, s');
    if Allocates(s.a) {
      AllHome(s);
      if a.Failed? || a.Fresh? {
        CountElements(a.made);
        assert s'.refs.Keys == Elements(a.made);
        assert |s'.refs.Keys| == |s'.refs|;
      }
    }
  }

  lemma OtherKeeps<S>(s: System<S>, step: Step<S>)
    requires Inv(s) && Enabled(s, step)
    requires step.Ask? || step.Wake? || step.AddRef? || step.Decommit? || step.Drop? || step.SetProperties?
    ensures Inv(Next(s, step))
  {
    var s' := Next(s, step);
    if step.AddRef? || step.SetProperties? {
      SameThreads(s, s');
    } else {
      WaitersAfter(s, step.t, s'.threads[step.t]);
      SameThreads(s', Goes(s, step.t, s'.threads[step.t]));
    }
    OtherCustody(s, step);
    if step.AddRef? {
      assert s'.refs.Keys == s.refs.Keys;
    }
  }

  lemma OtherCustody<S>(s: System<S>, step: Step<S>)
    requires Custody(s) && Enabled(s, step)
    requires step.Ask? || step.Wake? || step.AddRef? || step.Decommit? || step.Drop? || step.SetProperties?
    ensures Custody(Next(s, step))
  {
    var s' := Next(s, step);
    SameCustody(s, s');
  }

  /** Custody is a matter of the list, of who carries what, and of which counts are zero. */
  lemma SameCustody<S>(s: System<S>, s': System<S>)
    requires Custody(s) && s'.a.free == s.a.free && s'.refs.Keys == s.refs.Keys
    requires forall p :: p in s.refs ==> (s.refs[p] == 0 <==> s'.refs[p] == 0)
    requires forall u :: u in s'.threads && Carries(s'.threads[u]) ==> u in s.threads && s'.threads[u] == s.threads[u]
    requires forall u :: u in s.threads && Carries(s.threads[u]) ==> u in s'.threads && s'.threads[u] == s.threads[u]
    ensures Custody(s')
  {
    forall q | q in s.refs && InHand(s, q)
      ensures InHand(s', q)
    {
      var u :| u in s.threads && Carries(s.threads[u]) && s.threads[u].sample == q;
      assert s'.threads[u] == s.threads[u];
    }
  }

  lemma StepKeepsInv<S>(s: System<S>, step: Step<S>)
    requires Inv(s) && Enabled(s, step)
    ensures Inv(Next(s, step))
  {
    hide *;
    match step
    case Try(t) => TryKeeps(s, t);
    case Put(t) => PutKeeps(s, t);
    case Grant(t) => GrantKeeps(s, t);
    case Release(t, p) => ReleaseKeeps(s, t, p);
    case Commit(a) => CommitKeeps(s, a);
    case _ => OtherKeeps(s, step);
  }

  // ---------- all runs ----------

  ghost predicate Run<S>(s0: System<S>, steps: seq<Step<S>>, s: System<S>)
    decreases |steps|
  {
    if steps == [] then s == s0 else Enabled(s0, steps[0]) && Run(Next(s0, steps[0]), steps[1..], s)
  }

  lemma {:induction false} RunKeepsInv<S>(s0: System<S>, steps: seq<Step<S>>, s: System<S>)
    requires Inv(s0) && Run(s0, steps, s)
    ensures Inv(s)
    decreases |steps|
  {
    hide Inv, Enabled, Next;
    if steps != [] {
      StepKeepsInv(s0, steps[0]);
      RunKeepsInv(Next(s0, steps[0]), steps[1..], s);
    }
  }

  ghost predicate Reachable<S(!new)>(s: System<S>) {
    exists steps :: Run(Start<S>(), steps, s)
  }

  lemma ReachableInv<S(!new)>(s: System<S>)
    requires Reachable(s)
    ensures Inv(s)
  {
    var steps :| Run(Start<S>(), steps, s);
    assert Waiters(Start<S>()) == {} && Droppers(Start<S>()) == {};
    RunKeepsInv(Start<S>(), steps, s);
  }

  /** No thread stays parked on an empty semaphore while a buffer is free, or after a decommit. */
  lemma NoDeadlock<S(!new)>(s: System<S>, t: nat)
    requires Reachable(s) && At(s, t).Parked? && (s.a.free != [] || !s.a.committed)
    ensures Enabled(s, Wake(t)) && s.a.sem >= |Waiters(s)|
  {
    ReachableInv(s);
    assert t in Waiters(s);
  }

  /** A thread that finds no count in the semaphore waits for a buffer, all of which are out; the next buffer
      that comes back, and the next decommit, leaves a count for every waiter. */
  lemma WaitersAreServed<S(!new)>(s: System<S>, t: nat, step: Step<S>)
    requires Reachable(s) && At(s, t).Parked? && !Enabled(s, Wake(t))
    ensures s.a.committed && s.a.free == []
    ensures (step.Put? || step.Decommit?) && Enabled(s, step) ==> |Waiters(Next(s, step))| <= Next(s, step).a.sem
  {
    ReachableInv(s);
    assert t in Waiters(s);
    if (step.Put? || step.Decommit?) && Enabled(s, step) {
      var s' := Next(s, step);
      WaitersAfter(s, step.t, s'.threads[step.t]);
      SameThreads(s', Goes(s, step.t, s'.threads[step.t]));
    }
  }

  /** A call of GetBuffer at a committed allocator takes the buffer in front; when none is free it waits, unless it was
      told not to. */
  lemma WhoGetsABuffer<S>(s: System<S>, t: nat)
    requires At(s, t).Asking?
    ensures var p := At(Next(s, Step.Try(t)), t);
            && (s.a.committed && s.a.free != [] ==>
                  p == Taken(s.a.free[0]) && Next(s, Step.Try(t)).a.free == s.a.free[1..])
            && (s.a.committed && s.a.free == [] ==>
                  p == (if At(s, t).noWait then Idle else Parked) && forall x :: x in s.refs ==> x !in s.a.free)
            && (!s.a.committed ==> p == Idle && Next(s, Step.Try(t)).a == s.a)
  {
  }

  /** A commit leaves the allocator committed with no decommit pending, unless it had to allocate and could not. */
  lemma CommitOutcome<S(!new)>(s: System<S>, a: Allocation<S>)
    requires Reachable(s) && Enabled(s, Commit(a))
    ensures var s' := Next(s, Commit(a));
            && !s'.a.pending
            && (s'.a.committed <==> !Allocates(s.a) || a.Same? || a.Fresh?)
            && (!Allocates(s.a) ==> s'.a.free == s.a.free && s'.refs == s.refs)
            && (s'.a.committed ==> |s'.refs| == s'.a.props.cBuffers)
  {
    ReachableInv(s);
    CommitKeeps(s, a);
  }

  /** From a decommit until the next commit no call of GetBuffer gets a sample, whatever comes back meanwhile; and the
      decommit is pending exactly while something is out. */
  lemma {:induction false} DecommitHolds<S>(s0: System<S>, steps: seq<Step<S>>, s: System<S>)
    requires Inv(s0) && Run(s0, steps, s)
    requires steps != [] && steps[0].Decommit? && forall i :: 0 <= i < |steps| ==> !steps[i].Commit?
    ensures !s.a.committed && (s.a.pending <==> exists p :: p in s.refs && p !in s.a.free)
    ensures forall t :: Enabled(s, Step.Try(t)) ==> !At(Next(s, Step.Try(t)), t).Taken?
  {
    var s1 := Next(s0, steps[0]);
    StepKeepsInv(s0, steps[0]);
    RunKeepsInv(s1, steps[1..], s);
    assert forall i :: 0 <= i < |steps[1..]| ==> steps[1..][i] == steps[i + 1];
    StaysDecommitted(s1, steps[1..], s);
    PendingIffOut(s);
  }

  lemma {:induction false} StaysDecommitted<S>(s0: System<S>, steps: seq<Step<S>>, s: System<S>)
    requires !s0.a.committed && Run(s0, steps, s) && forall i :: 0 <= i < |steps| ==> !steps[i].Commit?
    ensures !s.a.committed
    decreases |steps|
  {
    if steps != [] {
      var s1 := Next(s0, steps[0]);
      assert !s1.a.committed;
      assert forall i :: 0 <= i < |steps[1..]| ==> steps[1..][i] == steps[i + 1];
      hide Enabled, Next;
      StaysDecommitted(s1, steps[1..], s);
    }
  }

  lemma PendingIffOut<S>(s: System<S>)
    requires Inv(s) && !s.a.committed
    ensures s.a.pending <==> exists p :: p in s.refs && p !in s.a.free
  {
    if s.a.pending {
      CountElements(s.a.free);
      assert |s.refs.Keys| == |s.refs|;
      if forall p :: p in s.refs ==> p in s.a.free {
        SubsetSize(s.refs.Keys, Elements(s.a.free));
      }
    } else {
      AllHome(s);
    }
  }

  /** The header's second claim holds exactly as long as no AM_GBF_NOWAIT call has timed out. */
  lemma HeaderClaimIff<S(!new)>(s: System<S>)
    requires Reachable(s)
    ensures s.a.waiting + s.a.sem == |Waiters(s)| <==> s.timeouts == 0
  {
    ReachableInv(s);
  }

  /** What GetFreeCount answers is what was agreed less what is out: neither on the list nor lost. */
  lemma FreeCount<S(!new)>(s: System<S>)
    requires Reachable(s)
    ensures s.a.props.cBuffers - s.a.lAllocated + |s.a.free| == s.a.props.cBuffers - |s.refs.Keys - Elements(s.a.free)|
    ensures !Allocates(s.a) ==> s.a.lAllocated == s.a.props.cBuffers
  {
    ReachableInv(s);
    CountElements(s.a.free);
    assert |s.refs.Keys| == |s.refs|;
    assert Elements(s.a.free) <= s.refs.Keys;
    assert s.refs.Keys == Elements(s.a.free) + (s.refs.Keys - Elements(s.a.free));
  }

  /** The commit states: never both, a decommit is pending only while something is out, and at rest everything is
      home; the allocator holds itself exactly while it is committed or pending, but for releases still to be made. */
  lemma CommitStates<S(!new)>(s: System<S>)
    requires Reachable(s)
    ensures !(s.a.committed && s.a.pending)
    ensures s.a.pending ==> exists p :: p in s.refs && p !in s.a.free
    ensures Allocates(s.a) ==> forall p :: p in s.refs <==> p in s.a.free
    ensures s.self == (if s.a.committed || s.a.pending then 1 else 0) + |Droppers(s)|
  {
    ReachableInv(s);
    if !s.a.committed {
      PendingIffOut(s);
    }
    if Allocates(s.a) {
      AllHome(s);
    }
  }

  /** No sample has two holders, and GetBuffer always finds the count of the sample it takes at zero. */
  lemma OneHolder<S(!new)>(s: System<S>, p: S, t: nat, u: nat)
    requires Reachable(s) && p in s.refs
    ensures At(s, t).Taken? && At(s, t).sample == p ==> s.refs[p] == 0 && p !in s.a.free
    ensures Carries(At(s, t)) && Carries(At(s, u)) && At(s, t).sample == At(s, u).sample ==> t == u
    ensures p in s.a.free ==> s.refs[p] == 0 && !InHand(s, p) && multiset(s.a.free)[p] == 1
    ensures s.refs[p] == 0 <==> p in s.a.free || InHand(s, p)
  {
    ReachableInv(s);
    if p in s.a.free {
      OnceOnly(s.a.free, p);
    }
    if InHand(s, p) {
      var v :| v in s.threads && Carries(s.threads[v]) && s.threads[v].sample == p;
      assert Carried(s, p);
    }
    assert At(s, t).Taken? && At(s, t).sample == p ==> Carried(s, p);
  }

  lemma {:induction false} OnceOnly<S>(c: seq<S>, p: S)
    requires NoDups(c)
    ensures multiset(c)[p] == if p in c then 1 else 0
  {
    if c != [] {
      OnceOnly(c[1..], p);
      assert c == [c[0]] + c[1..];
    }
  }

  ghost predicate Follows<S>(s0: System<S>, step: Step<S>, s1: System<S>) {
    Enabled(s0, step) && Next(s0, step) == s1
  }

  lemma RunFollows<S>(s0: System<S>, step: Step<S>, s1: System<S>, rest: seq<Step<S>>, s: System<S>)
    returns (steps: seq<Step<S>>)
    requires Follows(s0, step, s1) && Run(s1, rest, s)
    ensures Run(s0, steps, s)
  {
    steps := [step] + rest;
    hide Enabled, Next;
    RunCons(s0, step, rest, s);
  }

  lemma RunNone<S>(s: System<S>)
    ensures Run(s, [], s)
  {
  }

  /** One buffer, which the first caller takes. */
  lemma FirstTakes() returns (s1: System<int>, s2: System<int>, s3: System<int>, s4: System<int>)
    ensures Follows(Start<int>(), SetProperties(Props(1, 1, 1, 0)), s1) && Follows(s1, Commit(Fresh([7])), s2)
    ensures Follows(s2, Ask(0, true), s3) && Follows(s3, Try(0), s4)
    ensures s4.a.committed && s4.a.free == [] && s4.timeouts == 0 && 1 !in s4.threads
  {
    s1 := Next(Start<int>(), SetProperties(Props(1, 1, 1, 0)));
    s2 := Next(s1, Commit(Fresh([7])));
    s3 := Next(s2, Ask(0, true));
    s4 := Next(s3, Try(0));
  }

  /** A second caller that will not wait times out. */
  lemma SecondTimesOut(s4: System<int>) returns (s5: System<int>, s6: System<int>)
    requires s4.a.committed && s4.a.free == [] && s4.timeouts == 0 && 1 !in s4.threads
    ensures Follows(s4, Ask(1, true), s5) && Follows(s5, Try(1), s6) && s6.timeouts == 1
  {
    s5 := Next(s4, Ask(1, true));
    s6 := Next(s5, Try(1));
  }

  /** So the claim does fail. */
  lemma NoWaitBreaksTheClaim()
    ensures exists s: System<int> :: Reachable(s) && s.a.waiting + s.a.sem != |Waiters(s)|
  {
    hide Follows, Run, Start;
    var s1, s2, s3, s4 := FirstTakes();
    var s5, s6 := SecondTimesOut(s4);
    RunNone(s6);
    var steps := RunFollows(s5, Try(1), s6, [], s6);
    steps := RunFollows(s4, Ask(1, true), s5, steps, s6);
    steps := RunFollows(s3, Try(0), s4, steps, s6);
    steps := RunFollows(s2, Ask(0, true), s3, steps, s6);
    steps := RunFollows(s1, Commit(Fresh([7])), s2, steps, s6);
    steps := RunFollows(Start<int>(), SetProperties(Props(1, 1, 1, 0)), s1, steps, s6);
    HeaderClaimIff(s6);
  }

  lemma RunCons<S>(s0: System<S>, step: Step<S>, rest: seq<Step<S>>, s: System<S>)
    requires Enabled(s0, step) && Run(Next(s0, step), rest, s)
    ensures Run(s0, [step] + rest, s)
  {
    var steps := [step] + rest;
    assert steps[1..] == rest;
  }
}
