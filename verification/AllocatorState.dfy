/**
 The state of CBaseAllocator under its lock (amfilter.h 1388-1446), and what each lock section
 does to it.  The methods in Allocator.dfy are proved against these functions.
 */
module AllocatorState {
  import opened HResults
  import opened MemLayout

  /** `sem` is the count of the semaphore that threads without a buffer wait on. */
  datatype State<S> = State(
    free: seq<S>, waiting: nat, sem: nat, lAllocated: nat,
    committed: bool, pending: bool, changed: bool, props: Props)

  function Initial<S>(): State<S> {
    State([], 0, 0, 0, false, false, false, Props(0, 0, 0, 0))
  }

  /** NotifySample: one release of the semaphore for each thread that announced its wait. */
  function Notified<S>(s: State<S>): State<S> {
    s.(sem := s.sem + s.waiting, waiting := 0)
  }

  // ---------- GetBuffer ----------

  datatype Attempt<S> = Got(sample: S) | NotCommitted | NoneFree

  /** The lock section of GetBuffer: take the head of the free list, or announce a wait. */
  function Try<S>(s: State<S>): (State<S>, Attempt<S>) {
    if !s.committed then (s, NotCommitted)
    else if s.free != [] then (s.(free := s.free[1..]), Got(s.free[0]))
    else (s.(waiting := s.waiting + 1), NoneFree)
  }

  // ---------- ReleaseBuffer ----------

  /** A sample comes home; the flag says that this completes a decommit. */
  function Put<S>(s: State<S>, p: S): (State<S>, bool) {
    var s1 := Notified(s.(free := [p] + s.free));
    if s1.pending && |s1.free| == s1.lAllocated then (s1.(pending := false), true) else (s1, false)
  }

  // ---------- Decommit ----------

  /** The flag says that the decommit is complete and the allocator's reference to itself is to be dropped. */
  function Decommitted<S>(s: State<S>): (State<S>, bool) {
    if !s.committed && !s.pending then (s, false)
    else if |s.free| < s.lAllocated then (Notified(s.(committed := false, pending := true)), false)
    else (Notified(s.(committed := false, pending := false)), true)
  }

  // ---------- Commit ----------

  /** How CMemAllocator::Alloc can end, once per commit. */
  datatype Allocation<S> =
    | Unset                    // the properties were never set to something usable
    | Same                     // nothing changed since the last time: keep the samples
    | Failed(made: seq<S>)     // the old samples are gone; out of memory after making these
    | Fresh(made: seq<S>)      // the old samples are gone; all of these are new

  predicate Possible<S>(s: State<S>, a: Allocation<S>) {
    var unset := s.props.cBuffers <= 0 || s.props.cbBuffer <= 0 || s.props.cbAlign <= 0;
    match a
    case Unset => unset
    case Same => !unset && !s.changed
    case Failed(made) => !unset && s.changed && |made| < s.props.cBuffers
    case Fresh(made) => !unset && s.changed && |made| == s.props.cBuffers
  }

  function Allocated<S>(s: State<S>, a: Allocation<S>): State<S> {
    match a
    case Unset => s
    case Same => s
    case Failed(made) => s.(free := made, lAllocated := |made|)
    case Fresh(made) => s.(free := made, lAllocated := |made|, changed := false)
  }

  /** Only a commit from rest allocates; one that finds a decommit in progress cancels it. */
  predicate Allocates<S>(s: State<S>) {
    !s.committed && !s.pending
  }

  function Committed<S>(s: State<S>, a: Allocation<S>): State<S> {
    if s.committed then s
    else if s.pending then s.(committed := true, pending := false)
    else Allocated(s, a).(committed := a.Same? || a.Fresh?)
  }

  // ---------- SetProperties ----------

  /** Neither a committed allocator nor one with buffers out takes new properties. */
  function Configured<S>(s: State<S>, stored: Props): (State<S>, HRESULT) {
    if s.committed then (s, VFW_E_ALREADY_COMMITTED)
    else if |s.free| < s.lAllocated then (s, VFW_E_BUFFERS_OUTSTANDING)
    else (s.(props := stored, changed := true), S_OK)
  }
}
