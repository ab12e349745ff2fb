/**
 The block state of CDynamicOutputPin (amfilter.cpp 4038-4255, 4483-4519): clients that block and unblock the
 pin against the threads that stream through it.
 */
module DynamicPin {
  import opened HResults
  import opened Options

  datatype BlockState = NOT_BLOCKED | PENDING | BLOCKED

  /** The fields under m_BlockStateLock.  `notify` is the duplicated handle of a block request, and `sets` and
      `closes` count what was done to the handle of each accepted request. */
  datatype Pin = Pin(
    state: BlockState, notify: Option<nat>, caller: nat, users: nat, unblockEvent: bool, sets: seq<nat>,
        closes: seq<nat>)

  function Initial(): Pin {
    Pin(NOT_BLOCKED, None, 0, 0, true, [], [])
  }

  predicate Requests(p: Pin) {
    |p.sets| == |p.closes| && (p.notify.Some? ==> p.notify.value < |p.sets|)
  }

  /** Set the event of request r and close its handle. */
  function Signalled(p: Pin, r: nat): Pin
    requires Requests(p) && r < |p.sets|
  {
    p.(sets := p.sets[r := p.sets[r] + 1], closes := p.closes[r := p.closes[r] + 1], notify := None)
  }

  /** BlockOutputPin. */
  function NowBlocked(p: Pin): Pin
    requires Requests(p) && p.notify.Some?
  {
    Signalled(p, p.notify.value).(state := BLOCKED, unblockEvent := false)
  }

  /** AsynchronousBlockOutputPin; `duplicated` says whether the handle could be duplicated. */
  function AskedToBlock(p: Pin, thread: nat, duplicated: bool): (Pin, HRESULT)
    requires Requests(p)
  {
    if p.state != NOT_BLOCKED then
      (p, if p.caller == thread then VFW_E_PIN_ALREADY_BLOCKED_ON_THIS_THREAD else VFW_E_PIN_ALREADY_BLOCKED)
    else if !duplicated then (p, E_FAIL)
    else
      var p1 := p.(notify := Some(|p.sets|), sets := p.sets + [0], closes := p.closes + [0], state := PENDING,
          caller := thread);
      (if p1.users > 0 then p1 else NowBlocked(p1), S_OK)
  }

  /** UnblockOutputPin. */
  function AskedToUnblock(p: Pin): (Pin, HRESULT)
    requires Requests(p)
  {
    if p.state == NOT_BLOCKED then (p, S_FALSE)
    else
      var p1 := p.(unblockEvent := true);
      var p2 := if p1.notify.Some? then Signalled(p1, p1.notify.value) else p1;
      (p2.(state := NOT_BLOCKED, caller := 0, notify := None), S_OK)
  }

  /** The lock sections of StartUsingOutputPin and StopUsingOutputPin. */
  function TriedToUse(p: Pin): (Pin, bool) {
    if p.state == BLOCKED then (p, false) else (p.(users := p.users + 1), true)
  }

  function StoppedUsing(p: Pin): Pin
    requires Requests(p) && p.users > 0 && (p.state != NOT_BLOCKED ==> p.notify.Some?)
  {
    var p1 := p.(users := p.users - 1);
    if p1.users == 0 && p1.state != NOT_BLOCKED then NowBlocked(p1) else p1
  }

  // ---------- the invariant ----------

  /** AssertValid, as far as it is about the block state. */
  predicate AssertValid(p: Pin) {
    && ((p.notify.None? && p.state != PENDING) || (p.notify.Some? && p.state == PENDING))
    && (p.caller == 0 || p.state != NOT_BLOCKED)
    && ((p.users != 0 && p.state != BLOCKED) || (p.users == 0 && p.state != NOT_BLOCKED)
        || (p.users == 0 && p.state == NOT_BLOCKED))
  }

  /** What AssertValid leaves out: a pending block has a user to complete it, the unblock event, and what was done for
      each request. */
  predicate Consistent(p: Pin) {
    && Requests(p)
    && (p.notify.Some? <==> p.state == PENDING)
    && (p.state == PENDING ==> p.users > 0)
    && (p.state == BLOCKED ==> p.users == 0)
    && (p.unblockEvent <==> p.state != BLOCKED)
    && (p.state == NOT_BLOCKED ==> p.caller == 0)
    && Handled(p.sets, p.closes, p.notify)
  }

  /** The event of each request was set, and its handle closed, once; unless the request is still pending. */
  predicate Handled(sets: seq<nat>, closes: seq<nat>, notify: Option<nat>) {
    && |sets| == |closes|
    && (forall r :: 0 <= r < |sets| ==> sets[r] == if notify == Some(r) then 0 else 1)
    && (forall r :: 0 <= r < |closes| ==> closes[r] == if notify == Some(r) then 0 else 1)
  }

  /** Every operation keeps AssertValid on its own. */
  lemma AssertValidKept(p: Pin, thread: nat, duplicated: bool)
    requires Requests(p) && AssertValid(p)
    ensures AssertValid(AskedToBlock(p, thread, duplicated).0) && Requests(AskedToBlock(p, thread, duplicated).0)
    ensures AssertValid(AskedToUnblock(p).0) && Requests(AskedToUnblock(p).0)
    ensures AssertValid(TriedToUse(p).0) && Requests(TriedToUse(p).0)
    ensures p.users > 0 ==> AssertValid(StoppedUsing(p)) && Requests(StoppedUsing(p))
  {
  }

  lemma BlockKeeps(p: Pin, thread: nat, duplicated: bool)
    requires Consistent(p)
    ensures Consistent(AskedToBlock(p, thread, duplicated).0)
    ensures AskedToBlock(p, thread, duplicated).1 == S_OK <==> p.state == NOT_BLOCKED && duplicated
    ensures var (p', hr) := AskedToBlock(p, thread, duplicated);
            p'.users == p.users && |p'.sets| == |p.sets| + if hr == S_OK then 1 else 0
  {
  }

  lemma UnblockKeeps(p: Pin)
    requires Consistent(p)
    ensures Consistent(AskedToUnblock(p).0) && AskedToUnblock(p).0.state == NOT_BLOCKED
    ensures AskedToUnblock(p).0.users == p.users && |AskedToUnblock(p).0.sets| == |p.sets|
  {
  }

  lemma UseKeeps(p: Pin)
    requires Consistent(p)
    ensures Consistent(TriedToUse(p).0)
    ensures TriedToUse(p).0.users == p.users + (if TriedToUse(p).1 then 1 else 0) && |TriedToUse(p).0.sets| == |p.sets|
    ensures TriedToUse(p).1 <==> p.state != BLOCKED
    ensures p.users > 0 ==> Consistent(StoppedUsing(p))
    ensures p.users > 0 ==> StoppedUsing(p).users == p.users - 1 && |StoppedUsing(p).sets| == |p.sets|
  {
  }

  class CDynamicOutputPin {
    var m_BlockState: BlockState
    var m_hNotifyCallerPinBlockedEvent: Option<nat>
    var m_dwBlockCallerThreadID: nat
    var m_dwNumOutstandingOutputPinUsers: nat
    var m_hUnblockOutputPinEvent: bool
    ghost var sets: seq<nat>
    ghost var closes: seq<nat>
    var m_dwRequests: nat      // handles duplicated so far

    ghost function State(): Pin
      reads this
    {
      Pin(m_BlockState, m_hNotifyCallerPinBlockedEvent, m_dwBlockCallerThreadID, m_dwNumOutstandingOutputPinUsers,
          m_hUnblockOutputPinEvent, sets, closes)
    }

    ghost predicate Valid()
      reads this
    {
      Consistent(State()) && m_dwRequests == |sets|
    }

    constructor ()
      ensures Valid() && State() == Initial()
    {
      m_BlockState, m_hNotifyCallerPinBlockedEvent, m_dwBlockCallerThreadID := NOT_BLOCKED, None, 0;
      m_dwNumOutstandingOutputPinUsers, m_hUnblockOutputPinEvent, m_dwRequests := 0, true, 0;
      sets, closes := [], [];
    }

    /** SetEvent and CloseHandle on the duplicated handle. */
    method NotifyCaller(r: nat)
      requires Requests(State()) && r < |sets|
      modifies this`sets, this`closes
      ensures sets == old(sets)[r := old(sets)[r] + 1] && closes == old(closes)[r := old(closes)[r] + 1]
    {
      sets := sets[r := sets[r] + 1];
      closes := closes[r := closes[r] + 1];
    }

    method AsynchronousBlockOutputPin(thread: nat, duplicated: bool) returns (hr: HRESULT)
      requires Valid()
      modifies this
      ensures Valid() && (State(), hr) == AskedToBlock(old(State()), thread, duplicated)
      ensures hr == S_OK <==> old(m_BlockState) == NOT_BLOCKED && duplicated
      ensures hr == S_OK ==> m_dwBlockCallerThreadID == thread
                             && m_BlockState == if StreamingThreadUsingOutputPin() then PENDING else BLOCKED
      ensures hr != S_OK ==> State() == old(State())
      ensures hr == VFW_E_PIN_ALREADY_BLOCKED_ON_THIS_THREAD <==>
              old(m_BlockState) != NOT_BLOCKED && old(m_dwBlockCallerThreadID) == thread
      ensures hr == E_FAIL <==> old(m_BlockState) == NOT_BLOCKED && !duplicated
    {
      BlockKeeps(State(), thread, duplicated);
      if m_BlockState != NOT_BLOCKED {
        if m_dwBlockCallerThreadID == thread {
          return VFW_E_PIN_ALREADY_BLOCKED_ON_THIS_THREAD;
        } else {
          return VFW_E_PIN_ALREADY_BLOCKED;
        }
      }
      if !duplicated {
        return E_FAIL;
      }
      m_hNotifyCallerPinBlockedEvent := Some(m_dwRequests);
      m_dwRequests := m_dwRequests + 1;
      sets, closes := sets + [0], closes + [0];
      m_BlockState := PENDING;
      m_dwBlockCallerThreadID := thread;
      // at once, unless a streaming thread is inside
      if !StreamingThreadUsingOutputPin() {
        BlockOutputPin();
      }
      return S_OK;
    }

    predicate StreamingThreadUsingOutputPin()
      reads this
    {
      m_dwNumOutstandingOutputPinUsers > 0
    }

    method BlockOutputPin()
      requires Requests(State()) && m_hNotifyCallerPinBlockedEvent.Some? && !StreamingThreadUsingOutputPin()
      modifies this`m_hUnblockOutputPinEvent, this`sets, this`closes, this`m_BlockState,
          this`m_hNotifyCallerPinBlockedEvent
      ensures State() == NowBlocked(old(State()))
    {
      m_hUnblockOutputPinEvent := false;
      NotifyCaller(m_hNotifyCallerPinBlockedEvent.value);
      m_BlockState := BLOCKED;
      m_hNotifyCallerPinBlockedEvent := None;
    }

    method UnblockOutputPin() returns (hr: HRESULT)
      requires Valid()
      modifies this
      ensures Valid() && (State(), hr) == AskedToUnblock(old(State()))
      ensures hr == (if old(m_BlockState) == NOT_BLOCKED then S_FALSE else S_OK) && m_BlockState == NOT_BLOCKED
    {
      UnblockKeeps(State());
      if m_BlockState == NOT_BLOCKED {
        return S_FALSE;
      }
      m_hUnblockOutputPinEvent := true;
      // a block that is still pending is called off
      if m_hNotifyCallerPinBlockedEvent != None {
        NotifyCaller(m_hNotifyCallerPinBlockedEvent.value);
      }
      m_BlockState := NOT_BLOCKED;
      m_dwBlockCallerThreadID := 0;
      m_hNotifyCallerPinBlockedEvent := None;
      return S_OK;
    }

    /** One pass of StartUsingOutputPin under the lock; if the pin is blocked the thread waits for the unblock event and
        tries again. */
    method TryStartUsingOutputPin() returns (started: bool)
      requires Valid()
      modifies this`m_dwNumOutstandingOutputPinUsers
      ensures Valid() && (State(), started) == TriedToUse(old(State()))
      ensures started <==> old(m_BlockState) != BLOCKED
    {
      if m_BlockState == BLOCKED {
        return false;
      }
      m_dwNumOutstandingOutputPinUsers := m_dwNumOutstandingOutputPinUsers + 1;
      return true;
    }

    method StopUsingOutputPin()
      requires Valid() && StreamingThreadUsingOutputPin()
      modifies this
      ensures Valid() && State() == StoppedUsing(old(State()))
    {
      UseKeeps(State());
      m_dwNumOutstandingOutputPinUsers := m_dwNumOutstandingOutputPinUsers - 1;
      if m_dwNumOutstandingOutputPinUsers == 0 && m_BlockState != NOT_BLOCKED {
        BlockOutputPin();
      }
    }
  }

  // ---------- all interleavings ----------

  /** One call of StartUsingOutputPin, up to its StopUsingOutputPin. */
  datatype Session = Entering | Sleeping | Using | Over

  /** Calls of StartUsingOutputPin by number, and synchronous block calls with the request each one waits for. */
  datatype System = System(pin: Pin, sessions: map<nat, Session>, waiting: map<nat, nat>)

  datatype Step =
    | Enter(id: nat)
    | Try(id: nat)
    | Wake(id: nat)
    | StopEvent(id: nat)
    | Leave(id: nat)
    | Block(thread: nat, duplicated: bool)
    | BlockAndWait(id: nat, thread: nat, duplicated: bool)
    | Blocked(id: nat)
    | Unblock

  predicate Enabled(s: System, step: Step) {
    match step
    case Enter(id) => id !in s.sessions
    case Try(id) => id in s.sessions && s.sessions[id].Entering?
    case Wake(id) => id in s.sessions && s.sessions[id].Sleeping? && s.pin.unblockEvent
    case StopEvent(id) => id in s.sessions && s.sessions[id].Sleeping?
    case Leave(id) => id in s.sessions && s.sessions[id].Using?
    case BlockAndWait(id, _, _) => id !in s.waiting
    case Blocked(id) => id in s.waiting && s.waiting[id] < |s.pin.sets| && s.pin.sets[s.waiting[id]] > 0
    case _ => true
  }

  ghost function Next(s: System, step: Step): System
    requires Inv(s) && Enabled(s, step)
  {
    match step
    case Enter(id) => s.(sessions := s.sessions[id := Entering])
    case Try(id) =>
      var (pin, ok) := TriedToUse(s.pin);
      s.(pin := pin, sessions := s.sessions[id := if ok then Using else Sleeping])
    case Wake(id) => s.(sessions := s.sessions[id := Entering])
    case StopEvent(id) => s.(sessions := s.sessions[id := Over])
    case Leave(id) =>
      UserCounts(s, id);
      s.(pin := StoppedUsing(s.pin), sessions := s.sessions[id := Over])
    case Block(thread, duplicated) => s.(pin := AskedToBlock(s.pin, thread, duplicated).0)
    case BlockAndWait(id, thread, duplicated) =>
      var (pin, hr) := AskedToBlock(s.pin, thread, duplicated);
      if hr == S_OK then s.(pin := pin, waiting := s.waiting[id := |s.pin.sets|]) else s.(pin := pin)
    case Blocked(id) => s.(waiting := s.waiting - {id})
    case Unblock => s.(pin := AskedToUnblock(s.pin).0)
  }

  ghost function Users(s: System): set<nat> { set id | id in s.sessions && s.sessions[id].Using? }

  ghost predicate Inv(s: System) {
    && Consistent(s.pin)
    && s.pin.users == |Users(s)|
    && forall id :: id in s.waiting ==> s.waiting[id] < |s.pin.sets|
  }

  lemma UserCounts(s: System, id: nat)
    requires s.pin.users == |Users(s)| && id in s.sessions && s.sessions[id].Using?
    ensures s.pin.users > 0
  {
    assert id in Users(s);
  }

  lemma UsersAfter(s: System, id: nat, p: Session)
    ensures var s' := s.(sessions := s.sessions[id := p]);
            |Users(s')|
            == |Users(s)| + (if p.Using? then 1 else 0) - (if id in s.sessions && s.sessions[id].Using? then 1 else 0)
  {
    var s' := s.(sessions := s.sessions[id := p]);
    assert Users(s') == if p.Using? then Users(s) + {id} else Users(s) - {id};
    assert id in s.sessions && s.sessions[id].Using? <==> id in Users(s);
  }

  lemma StepKeepsInv(s: System, step: Step)
    requires Inv(s) && Enabled(s, step)
    ensures Inv(Next(s, step))
  {
    var s' := Next(s, step);
    hide Consistent, AskedToBlock, AskedToUnblock, TriedToUse, StoppedUsing;
    match step
    case Block(thread, duplicated) => BlockKeeps(s.pin, thread, duplicated);
    case BlockAndWait(_, thread, duplicated) => BlockKeeps(s.pin, thread, duplicated);
    case Unblock => UnblockKeeps(s.pin);
    case Blocked(_) =>
    case _ =>
      UseKeeps(s.pin);
      UsersAfter(s, step.id, s'.sessions[step.id]);
      assert Users(s') == Users(s.(sessions := s'.sessions));
  }

  ghost predicate Run(s0: System, steps: seq<Step>, s: System)
    decreases |steps|
  {
    if steps == [] then s == s0
    else Inv(s0) && Enabled(s0, steps[0]) && Run(Next(s0, steps[0]), steps[1..], s)
  }

  lemma {:induction false} RunKeepsInv(s0: System, steps: seq<Step>, s: System)
    requires Inv(s0) && Run(s0, steps, s)
    ensures Inv(s)
    decreases |steps|
  {
    hide Consistent, Enabled, Next;
    if steps != [] {
      StepKeepsInv(s0, steps[0]);
      RunKeepsInv(Next(s0, steps[0]), steps[1..], s);
    }
  }

  function Start(): System { System(Initial(), map[], map[]) }

  lemma StartInv()
    ensures Inv(Start())
  {
    assert Users(Start()) == {};
  }

  /** In every interleaving AssertValid holds, a block is pending only while somebody uses the pin and is in force only
      while nobody does, the unblock event says whether it is in force, and each accepted request has its event set and
      its handle closed once, when it stops pending. */
  lemma BlockStates(steps: seq<Step>, s: System)
    requires Run(Start(), steps, s)
    ensures AssertValid(s.pin)
    ensures s.pin.state == PENDING ==> Users(s) != {}
    ensures s.pin.state == BLOCKED ==> Users(s) == {}
    ensures s.pin.unblockEvent <==> s.pin.state != BLOCKED
    ensures Handled(s.pin.sets, s.pin.closes, s.pin.notify) && (s.pin.notify.Some? <==> s.pin.state == PENDING)
  {
    StartInv();
    RunKeepsInv(Start(), steps, s);
  }

  /** A streaming thread gets in exactly while no block is in force: a pending one does not keep it out. */
  lemma StartsUnlessBlocked(s: System, id: nat)
    requires Inv(s) && Enabled(s, Try(id))
    ensures var s' := Next(s, Try(id));
            && s'.sessions[id] == (if s.pin.state == BLOCKED then Sleeping else Using)
            && Users(s') == (if s.pin.state == BLOCKED then Users(s) else Users(s) + {id})
            && s'.pin.state == s.pin.state
  {
    var s' := Next(s, Try(id));
    assert s.pin.state == BLOCKED ==> s'.sessions == s.sessions[id := Sleeping];
  }

  /** One that found the pin blocked gets in after an unblock, and otherwise need not wait for one. */
  lemma SleeperGetsIn(s: System, id: nat)
    requires Inv(s) && id in s.sessions && s.sessions[id].Sleeping?
    ensures exists steps, s' ::
              Run(s, steps, s') && id in s'.sessions && s'.sessions[id].Using?
                  && (steps == [Wake(id), Try(id)] || (s.pin.state == BLOCKED && steps == [Unblock, Wake(id), Try(id)]))
  {
    if s.pin.state == BLOCKED {
      var s1 := Next(s, Unblock);
      StepKeepsInv(s, Unblock);
      UnblockKeeps(s.pin);
      var s3 := WakesAndTries(s1, id);
      assert [Unblock, Wake(id), Try(id)][1..] == [Wake(id), Try(id)];
      assert Run(s, [Unblock, Wake(id), Try(id)], s3);
    } else {
      var s2 := WakesAndTries(s, id);
    }
  }

  lemma WakesAndTries(s: System, id: nat) returns (s2: System)
    requires Inv(s) && id in s.sessions && s.sessions[id].Sleeping? && s.pin.state != BLOCKED
    ensures Run(s, [Wake(id), Try(id)], s2) && id in s2.sessions && s2.sessions[id].Using?
  {
    var s1 := Next(s, Wake(id));
    StepKeepsInv(s, Wake(id));
    s2 := Next(s1, Try(id));
    var steps := [Wake(id), Try(id)];
    assert steps[1..] == [Try(id)] && steps[1..][1..] == [];
  }

  /** Nobody waits in vain: a streaming thread sleeps on a set event or the pin is blocked, and a client that waits
      for its block can go on or waits for a thread that is using the pin. */
  lemma NobodyStuck(steps: seq<Step>, s: System, id: nat)
    requires Run(Start(), steps, s)
    ensures id in s.sessions && s.sessions[id].Sleeping? ==> Enabled(s, Wake(id)) || s.pin.state == BLOCKED
    ensures id in s.waiting ==>
            Enabled(s, Blocked(id)) || (s.pin.state == PENDING && s.pin.notify == Some(s.waiting[id]) && Users(s) != {})
  {
    StartInv();
    RunKeepsInv(Start(), steps, s);
  }

  /** A request's event tells its caller that the request is over, not that the pin is blocked: it is exactly unless
      it was Unblock that ended the request. */
  lemma WhatTheEventMeans(s: System, step: Step, r: nat)
    requires Inv(s) && Enabled(s, step) && r < |s.pin.sets|
    requires s.pin.sets[r] == 0 && Next(s, step).pin.sets[r] > 0
    ensures Next(s, step).pin.state == BLOCKED <==> !step.Unblock?
  {
    UnblockKeeps(s.pin);
  }
}
