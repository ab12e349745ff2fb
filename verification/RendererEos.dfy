/**
 End of stream at a renderer (renbase.cpp 397-586, 664-693, 1039-1416, 1606-1674): samples and the end-of-stream
 signal come from the source thread, state changes from the application, and a timer calls back on a thread of its own.
 */
module RendererEos {
  import opened HResults
  import opened Options

  datatype FilterState = State_Stopped | State_Paused | State_Running

  /** The fields under the renderer lock; timer 0 is no timer. */
  datatype Renderer<S> = Renderer(
    state: FilterState, streaming: bool, eos: bool, delivered: bool, timer: nat, sample: Option<S>, abort: bool)

  function Initial<S>(): Renderer<S> {
    Renderer(State_Stopped, false, false, false, 0, None, false)
  }

  /** What SendEndOfStream finds: no clock, a delivery time that is near, one that is far, for which the system starts
      timer `id`, or one for which it has no timer. */
  datatype Delay = NoClock | Near | Far(id: nat) | NoTimer

  /** NotifyEndOfStream; the flag says that EC_COMPLETE was sent. */
  function Notified<S>(r: Renderer<S>): (Renderer<S>, bool) {
    if !r.streaming then (r, false) else (r.(timer := 0, delivered := true), true)
  }

  /** SendEndOfStream. */
  function Sent<S>(r: Renderer<S>, d: Delay): (Renderer<S>, bool) {
    if !r.eos || r.delivered || r.timer != 0 then (r, false)
    else if d.Far? && d.id != 0 then (r.(timer := d.id), false)
    else Notified(r)
  }

  /** EndOfStream: with a sample pending, or while not running, completion has to wait. */
  function Ended<S>(r: Renderer<S>, d: Delay): (Renderer<S>, bool) {
    if r.state.State_Stopped? then (r, false)
    else
      var r1 := r.(eos := true);
      if r1.sample.Some? || !r1.streaming then (r1, false) else Sent(r1, d)
  }

  /** PrepareReceive, past the checks of the base pin; `scheduled` says whether the clock took the sample. */
  function Prepared<S>(r: Renderer<S>, p: S, scheduled: bool): (Renderer<S>, HRESULT) {
    if r.sample.Some? || r.eos || r.abort then (r, E_UNEXPECTED)
    else if r.streaming && !scheduled then (r, VFW_E_SAMPLE_REJECTED)
    else (r.(sample := Some(p)), S_OK)
  }

  function Cleared<S>(r: Renderer<S>): Renderer<S> { r.(sample := None) }

  /** The end of Receive, when the sample has been rendered. */
  function Finished<S>(r: Renderer<S>, d: Delay): (Renderer<S>, bool) {
    if r.state.State_Stopped? then (r, false) else Sent(Cleared(r), d)
  }

  function Started<S>(r: Renderer<S>, d: Delay): (Renderer<S>, bool) {
    if r.streaming then (r, false)
    else
      var r1 := r.(streaming := true);
      if r1.sample.None? then Sent(r1, d) else (r1, false)
  }

  function Stopped<S>(r: Renderer<S>): Renderer<S> { r.(delivered := false, streaming := false) }

  /** The locked part of ResetEndOfStream. */
  function Reset<S>(r: Renderer<S>): Renderer<S> { r.(eos := false, delivered := false) }

  class CBaseRenderer<S> {
    var m_State: FilterState
    var m_bStreaming: bool
    var m_bEOS: bool
    var m_bEOSDelivered: bool
    var m_EndOfStreamTimer: nat
    var m_pMediaSample: Option<S>
    var m_bAbort: bool
    ghost var completes: nat       // EC_COMPLETE events sent by NotifyEndOfStream
    ghost var added: seq<S>        // references taken on samples, and given back
    ghost var released: seq<S>

    ghost function State(): Renderer<S>
      reads this
    {
      Renderer(m_State, m_bStreaming, m_bEOS, m_bEOSDelivered, m_EndOfStreamTimer, m_pMediaSample, m_bAbort)
    }

    constructor ()
      ensures State() == Initial() && completes == 0 && added == released == []
    {
      m_State, m_bStreaming, m_bEOS, m_bEOSDelivered, m_EndOfStreamTimer := State_Stopped, false, false, false, 0;
      m_pMediaSample, m_bAbort, completes, added, released := None, false, 0, [], [];
    }

    method NotifyEndOfStream()
      modifies this`m_EndOfStreamTimer, this`m_bEOSDelivered, this`completes
      ensures State() == Notified(old(State())).0
      ensures completes == old(completes) + if Notified(old(State())).1 then 1 else 0
      ensures m_bStreaming ==> m_bEOSDelivered && m_EndOfStreamTimer == 0 && completes == old(completes) + 1
      ensures !m_bStreaming ==> State() == old(State()) && completes == old(completes)
    {
      if !m_bStreaming {
        return;
      }
      m_EndOfStreamTimer := 0;
      m_bEOSDelivered := true;
      completes := completes + 1;
    }

    method SendEndOfStream(d: Delay)
      modifies this`m_EndOfStreamTimer, this`m_bEOSDelivered, this`completes
      ensures State() == Sent(old(State()), d).0
      ensures completes == old(completes) + if Sent(old(State()), d).1 then 1 else 0
      ensures m_bEOS && !old(m_bEOSDelivered) && old(m_EndOfStreamTimer) == 0 ==>
              if d.Far? && d.id != 0 then m_EndOfStreamTimer == d.id && !m_bEOSDelivered && completes == old(completes)
              else completes == old(completes) + if m_bStreaming then 1 else 0
      ensures !(m_bEOS && !old(m_bEOSDelivered) && old(m_EndOfStreamTimer) == 0) ==>
              State() == old(State()) && completes == old(completes)
    {
      if !m_bEOS || m_bEOSDelivered || m_EndOfStreamTimer != 0 {
        return;
      }
      if d.NoClock? {
        NotifyEndOfStream();
        return;
      }
      if d.Near? {
        NotifyEndOfStream();
        return;
      }
      // wait on a timer, if the system has one
      m_EndOfStreamTimer := if d.Far? then d.id else 0;
      if m_EndOfStreamTimer == 0 {
        NotifyEndOfStream();
      }
    }

    method TimerCallback(d: Delay)
      modifies this`m_EndOfStreamTimer, this`m_bEOSDelivered, this`completes
      ensures State() == if old(m_EndOfStreamTimer) != 0 then Sent(old(State()).(timer := 0), d).0 else old(State())
      ensures completes
              == old(completes) + if old(m_EndOfStreamTimer) != 0 && Sent(old(State()).(timer := 0), d).1 then 1 else 0
    {
      if m_EndOfStreamTimer != 0 {
        m_EndOfStreamTimer := 0;
        SendEndOfStream(d);
      }
    }

    method EndOfStream(d: Delay)
      modifies this`m_bEOS, this`m_EndOfStreamTimer, this`m_bEOSDelivered, this`completes
      ensures State() == Ended(old(State()), d).0
      ensures completes == old(completes) + if Ended(old(State()), d).1 then 1 else 0
      ensures m_State != State_Stopped ==> m_bEOS
      ensures m_State == State_Stopped || m_pMediaSample != None || !m_bStreaming ==>
              completes == old(completes) && m_EndOfStreamTimer == old(m_EndOfStreamTimer)
    {
      if m_State == State_Stopped {
        return;
      }
      // a pending sample comes first
      m_bEOS := true;
      if m_pMediaSample != None {
        return;
      }
      if m_bStreaming {
        SendEndOfStream(d);
      }
    }

    method ClearPendingSample()
      modifies this`m_pMediaSample, this`released
      ensures State() == Cleared(old(State()))
      ensures released == old(released) + if old(m_pMediaSample).Some? then [old(m_pMediaSample).value] else []
    {
      if m_pMediaSample != None {
        released := released + [m_pMediaSample.value];
        m_pMediaSample := None;
      }
    }

    method PrepareReceive(pMediaSample: S, scheduled: bool) returns (hr: HRESULT)
      modifies this`m_pMediaSample, this`added
      ensures (State(), hr) == Prepared(old(State()), pMediaSample, scheduled)
      ensures added == old(added) + if hr == S_OK then [pMediaSample] else []
      ensures hr == S_OK <==>
              old(m_pMediaSample) == None && !m_bEOS && !m_bAbort && (!m_bStreaming || scheduled)
      ensures hr == VFW_E_SAMPLE_REJECTED <==>
              old(m_pMediaSample) == None && !m_bEOS && !m_bAbort && m_bStreaming && !scheduled
      ensures m_pMediaSample == if hr == S_OK then Some(pMediaSample) else old(m_pMediaSample)
    {
      // neither a second sample nor one after the end of the stream
      if m_pMediaSample != None || m_bEOS || m_bAbort {
        return E_UNEXPECTED;
      }
      if m_bStreaming && !scheduled {
        return VFW_E_SAMPLE_REJECTED;
      }
      m_pMediaSample := Some(pMediaSample);
      added := added + [pMediaSample];
      return S_OK;
    }

    /** The last lock section of Receive. */
    method FinishReceive(d: Delay)
      modifies this`m_pMediaSample, this`released, this`m_EndOfStreamTimer, this`m_bEOSDelivered, this`completes
      ensures State() == Finished(old(State()), d).0
      ensures completes == old(completes) + if Finished(old(State()), d).1 then 1 else 0
      ensures released == old(released) +
              if old(m_State) != State_Stopped && old(m_pMediaSample).Some? then [old(m_pMediaSample).value] else []
      ensures m_State != State_Stopped ==> m_pMediaSample == None
    {
      if m_State == State_Stopped {
        return;
      }
      ClearPendingSample();
      SendEndOfStream(d);
    }

    method StartStreaming(d: Delay)
      modifies this`m_bStreaming, this`m_EndOfStreamTimer, this`m_bEOSDelivered, this`completes
      ensures State() == Started(old(State()), d).0
      ensures completes == old(completes) + if Started(old(State()), d).1 then 1 else 0
      ensures m_bStreaming
    {
      if m_bStreaming {
        return;
      }
      m_bStreaming := true;
      // an end of stream that came while paused
      if m_pMediaSample == None {
        SendEndOfStream(d);
      }
    }

    method StopStreaming()
      modifies this`m_bEOSDelivered, this`m_bStreaming
      ensures State() == Stopped(old(State()))
    {
      m_bEOSDelivered := false;
      if m_bStreaming {
        m_bStreaming := false;
      }
    }

    method ResetEndOfStreamTimer()
      modifies this`m_EndOfStreamTimer
      ensures State() == old(State()).(timer := 0)
    {
      if m_EndOfStreamTimer != 0 {
        m_EndOfStreamTimer := 0;
      }
    }

    method ResetEndOfStream()
      modifies this`m_EndOfStreamTimer, this`m_bEOS, this`m_bEOSDelivered
      ensures State() == Reset(old(State()).(timer := 0))
    {
      ResetEndOfStreamTimer();
      m_bEOS := false;
      m_bEOSDelivered := false;
    }
  }

  // ---------- all interleavings ----------

  /** ResetEndOfStream: ResetEndOfStreamTimer looks at the timer and kills it without the renderer lock; then the
      flags are cleared with it. */
  datatype ResetPoint = Look | Kill | Flags

  datatype StopPoint = Inactive | SetStopped | StopStreams | StopReset(at: ResetPoint) | StopAbort

  datatype PausePoint = SetPaused | PauseStreams | PauseLook | PauseKill | PauseAbort | PauseClear

  datatype RunPoint = SetRunning | RunAbort | RunClear | RunStart

  datatype BreakPoint = BreakReset(at: ResetPoint) | BreakClear | BreakAbort

  /** Run goes through Pause if the filter was stopped. */
  datatype Reason = FromRunning | FromStopped | ForRun

  /** What the thread with the interface lock does next, in Stop, Pause, Run, BeginFlush and BreakConnect. */
  datatype Work =
    | Free
    | Stopping(stop: StopPoint)
    | Pausing(pause: PausePoint, why: Reason)
    | Starting(run: RunPoint, stopped: bool)
    | Flushing(at: ResetPoint)
    | Breaking(breaks: BreakPoint)

  /** `callback`: a timer callback has the renderer lock and has cleared the timer.  `armed` are the system's timers
      that may still fire; `failing` calls of Receive are about to report their failure; `completes` counts EC_COMPLETE
      since the last StopStreaming or ResetEndOfStream; `overtaken`: one was sent through SendEndOfStream while a sample
      was pending. */
  datatype System<S> = System(
    r: Renderer<S>, work: Work, connected: bool, flushing: bool, runTimeError: bool, failing: nat,
    callback: bool, armed: set<nat>,
    added: multiset<S>, released: multiset<S>, completes: nat, overtaken: bool)

  datatype Step<S> =
    | Connect
    | Disconnect
    | Stop
    | Pause
    | RunFilter
    | BeginFlush
    | EndFlush
    | Go(d: Delay)
    | DisplayChange
    | EndOfStream(d: Delay)
    | Prepare(sample: S, scheduled: bool)
    | FailReceive(error: bool)
    | Finish(d: Delay)
    | ErrorPath
    | TimerTakes(id: nat)
    | TimerSends(d: Delay)

  function Start<S>(): System<S> {
    System(Initial(), Free, false, false, false, 0, false, {}, multiset{}, multiset{}, 0, false)
  }

  /** The system starts a timer under a number it is not using. */
  predicate FreshTimer<S>(s: System<S>, d: Delay) {
    d.Far? ==> d.id != 0 && d.id !in s.armed
  }

  /** Does the next point need the renderer lock? */
  predicate NeedsLock(w: Work) {
    match w
    case Free => false
    case Stopping(p) => p.Inactive? || p.StopStreams? || p == StopReset(Flags)
    case Pausing(p, _) => p.PauseStreams? || p.PauseClear?
    case Starting(p, _) => p.RunClear? || p.RunStart?
    case Flushing(at) => at.Flags?
    case Breaking(p) => p == BreakReset(Flags) || p.BreakClear?
  }

  /** CheckStreaming of the input pin. */
  predicate StreamingOk<S>(s: System<S>) {
    !s.r.state.State_Stopped? && !s.flushing && !s.runTimeError
  }

  /** The pin is connected and disconnected only while the filter is stopped. */
  predicate Enabled<S>(s: System<S>, step: Step<S>) {
    match step
    case Connect => s.work.Free? && !s.connected && s.r.state.State_Stopped?
    case Disconnect => s.work.Free? && s.connected && s.r.state.State_Stopped?
    case Stop => s.work.Free? && !s.r.state.State_Stopped?
    case Pause => s.work.Free? && !s.r.state.State_Paused?
    case RunFilter => s.work.Free? && !s.r.state.State_Running?
    case BeginFlush => s.work.Free? && s.connected && !s.callback
    case EndFlush => s.work.Free? && s.connected && s.flushing && !s.callback
    case Go(d) => !s.work.Free? && (NeedsLock(s.work) ==> !s.callback) && FreshTimer(s, d)
    case DisplayChange => s.connected && !s.callback
    case EndOfStream(d) => s.work.Free? && s.connected && !s.callback && FreshTimer(s, d)
    case Prepare(_, _) => s.work.Free? && s.connected && !s.callback
    case FailReceive(_) => s.work.Free? && s.connected && StreamingOk(s)
    case Finish(d) => s.work.Free? && s.connected && !s.callback && FreshTimer(s, d)
    case ErrorPath => s.work.Free? && !s.callback && s.failing > 0
    case TimerTakes(id) => id in s.armed && !s.callback
    case TimerSends(d) => s.callback && FreshTimer(s, d)
  }

  /** After a call that ends in SendEndOfStream, at which point the pending sample was `pending`. */
  function AfterSend<S>(s: System<S>, result: (Renderer<S>, bool), pending: Option<S>): System<S> {
    s.(r := result.0,
       armed := if result.0.timer != 0 then s.armed + {result.0.timer} else s.armed,
       completes := s.completes + (if result.1 then 1 else 0),
       overtaken := s.overtaken || (result.1 && pending.Some?))
  }

  function Pending<S>(r: Renderer<S>): multiset<S> {
    if r.sample.Some? then multiset{r.sample.value} else multiset{}
  }

  function Discarded<S>(s: System<S>): System<S> {
    s.(r := Cleared(s.r), released := s.released + Pending(s.r))
  }

  function Unstreamed<S>(s: System<S>): System<S> {
    s.(r := Stopped(s.r), completes := 0)
  }

  function ResetNext<S>(s: System<S>, at: ResetPoint): (System<S>, Option<ResetPoint>) {
    match at
    case Look => (s, Some(if s.r.timer != 0 then Kill else Flags))
    case Kill => (s.(r := s.r.(timer := 0)), Some(Flags))
    case Flags => (s.(r := Reset(s.r), completes := 0), None)
  }

  function StopNext<S>(s: System<S>, p: StopPoint): System<S> {
    match p
    case Inactive => Discarded(s).(runTimeError := false, work := Stopping(SetStopped))
    case SetStopped => s.(r := s.r.(state := State_Stopped), work := Stopping(StopStreams))
    case StopStreams => Unstreamed(s).(work := Stopping(StopReset(Look)))
    case StopReset(at) =>
      var (s1, next) := ResetNext(s, at);
      s1.(work := Stopping(if next.Some? then StopReset(next.value) else StopAbort))
    case StopAbort => s.(r := s.r.(abort := false), work := Free)
  }

  function PauseNext<S>(s: System<S>, p: PausePoint, why: Reason): System<S> {
    var after := if why.FromRunning? then Free else Pausing(PauseAbort, why);
    match p
    case SetPaused => s.(r := s.r.(state := State_Paused), work := Pausing(PauseStreams, why))
    case PauseStreams => Unstreamed(s).(work := Pausing(PauseLook, why))
    case PauseLook => s.(work := if s.r.timer != 0 then Pausing(PauseKill, why) else after)
    case PauseKill => s.(r := s.r.(timer := 0), work := after)
    case PauseAbort => s.(r := s.r.(abort := false), work := Pausing(PauseClear, why))
    case PauseClear => Discarded(s).(work := if why.ForRun? then Starting(SetRunning, true) else Free)
  }

  function StartNext<S>(s: System<S>, p: RunPoint, stopped: bool, d: Delay): System<S> {
    match p
    case SetRunning =>
      s.(r := s.r.(state := State_Running), work := Starting(if stopped then RunAbort else RunStart, stopped))
    case RunAbort => s.(r := s.r.(abort := false), work := Starting(RunClear, stopped))
    case RunClear => Discarded(s).(work := Starting(RunStart, stopped))
    case RunStart => AfterSend(s, Started(s.r, d), s.r.sample).(work := Free)
  }

  function FlushNext<S>(s: System<S>, at: ResetPoint): System<S> {
    var (s1, next) := ResetNext(s, at);
    s1.(work := if next.Some? then Flushing(next.value) else Free)
  }

  function BreakNext<S>(s: System<S>, p: BreakPoint): System<S> {
    match p
    case BreakReset(at) =>
      var (s1, next) := ResetNext(s, at);
      s1.(work := Breaking(if next.Some? then BreakReset(next.value) else BreakClear))
    case BreakClear => Discarded(s).(work := Breaking(BreakAbort))
    case BreakAbort => s.(r := s.r.(abort := false), connected := false, work := Free)
  }

  /** One point of the work under the interface lock. */
  function WorkNext<S>(s: System<S>, d: Delay): System<S> {
    match s.work
    case Free => s
    case Stopping(p) => StopNext(s, p)
    case Pausing(p, why) => PauseNext(s, p, why)
    case Starting(p, stopped) => StartNext(s, p, stopped, d)
    case Flushing(at) => FlushNext(s, at)
    case Breaking(p) => BreakNext(s, p)
  }

  function Called<S>(s: System<S>, state: FilterState, work: Work): System<S> {
    if s.connected then s.(work := work) else s.(r := s.r.(state := state))
  }

  function Next<S>(s: System<S>, step: Step<S>): System<S>
    requires Enabled(s, step)
  {
    match step
    case Connect => s.(connected := true, r := s.r.(abort := false))
    case Disconnect => s.(work := Breaking(BreakReset(Look)))
    case Stop => Called(s, State_Stopped, Stopping(Inactive))
    case Pause =>
      Called(s, State_Paused, Pausing(SetPaused, if s.r.state.State_Stopped? then FromStopped else FromRunning))
    case RunFilter =>
      var work := if s.r.state.State_Stopped? then Pausing(SetPaused, ForRun) else Starting(SetRunning, false);
      Called(s, State_Running, work)
    case BeginFlush => Discarded(s).(flushing := true, work := Flushing(Look))
    case EndFlush => s.(flushing := false, runTimeError := false)
    case Go(d) => WorkNext(s, d)
    case DisplayChange => Discarded(s).(r := Cleared(s.r).(abort := true))
    case EndOfStream(d) => if StreamingOk(s) then AfterSend(s, Ended(s.r, d), s.r.sample) else s
    case Prepare(p, scheduled) => AfterPrepare(s, p, Prepared(s.r, p, scheduled))
    case FailReceive(error) => s.(failing := s.failing + 1, runTimeError := s.runTimeError || error)
    case Finish(d) =>
      if s.r.state.State_Stopped? then s
      else AfterSend(s, Finished(s.r, d), None).(released := s.released + Pending(s.r))
    case ErrorPath => AfterError(s)
    case TimerTakes(id) =>
      var s1 := s.(armed := s.armed - {id});
      if s.r.timer != 0 then s1.(r := s.r.(timer := 0), callback := true) else s1
    case TimerSends(d) => AfterSend(s, Sent(s.r, d), s.r.sample).(callback := false)
  }

  /** A refused sample is a failure of Receive, unless it is only not scheduled. */
  function AfterPrepare<S>(s: System<S>, p: S, result: (Renderer<S>, HRESULT)): System<S> {
    if !StreamingOk(s) then s.(failing := s.failing + 1)
    else if result.1 == S_OK then s.(r := result.0, added := s.added + multiset{p})
    else if result.1 == VFW_E_SAMPLE_REJECTED then s
    else s.(failing := s.failing + 1)
  }

  /** Does the error path go as far as NotifyEndOfStream? */
  predicate Notifies<S>(s: System<S>) {
    StreamingOk(s) && !s.r.abort && s.r.streaming && !s.r.delivered
  }

  function AfterError<S>(s: System<S>): System<S>
    requires s.failing > 0
  {
    var s1 := s.(failing := s.failing - 1, runTimeError := s.runTimeError || (StreamingOk(s) && !s.r.abort));
    if Notifies(s) then s1.(r := Notified(s.r).0, completes := s.completes + (if Notified(s.r).1 then 1 else 0)) else s1
  }

  // ---------- what holds in every run ----------

  /** EC_COMPLETE is sent at most once, and each reference to a sample is given back once. */
  predicate Inv<S>(s: System<S>) {
    Counted(s) && References(s)
  }

  predicate Counted<S>(s: System<S>) {
    s.completes == if s.r.delivered then 1 else 0
  }

  predicate References<S>(s: System<S>) {
    s.added == s.released + Pending(s.r)
  }

  lemma StepKeepsInv<S>(s: System<S>, step: Step<S>)
    requires Inv(s) && Enabled(s, step)
    ensures Inv(Next(s, step))
  {
    hide References, Counted;
    StepKeepsReferences(s, step);
    StepKeepsCount(s, step);
  }

  lemma StepKeepsCount<S>(s: System<S>, step: Step<S>)
    requires Counted(s) && Enabled(s, step)
    ensures Counted(Next(s, step))
  {
    hide Counted, WorkNext, AfterSend, Discarded, AfterPrepare, AfterError, SampleMoved;
    match step
    case Go(d) => WorkMoves(s, d);
    case EndOfStream(_) | Finish(_) | TimerSends(_) => SendKeepsCount(s, step);
    case _ => OtherKeepsCount(s, step);
  }

  lemma SendKeepsCount<S>(s: System<S>, step: Step<S>)
    requires Counted(s) && Enabled(s, step) && (step.EndOfStream? || step.Finish? || step.TimerSends?)
    ensures Counted(Next(s, step))
  {
    hide Pending, Sent, Ended, Started, Finished, NeedsLock, WorkNext, AfterPrepare, AfterError;
    SendCounts(s.r, step.d);
  }

  lemma OtherKeepsCount<S>(s: System<S>, step: Step<S>)
    requires Counted(s) && Enabled(s, step) && !step.Go? && !step.EndOfStream? && !step.Finish? && !step.TimerSends?
    ensures Counted(Next(s, step))
  {
    hide Pending, Sent, Ended, Started, Finished, NeedsLock, WorkNext, AfterSend;
  }

  /** EC_COMPLETE is sent exactly when the flag goes up. */
  lemma SendCounts<S>(r: Renderer<S>, d: Delay)
    ensures Raises(r, Sent(r, d)) && Raises(r, Ended(r, d)) && Raises(r, Started(r, d)) && Raises(r, Finished(r, d))
  {
  }

  predicate Raises<S>(r: Renderer<S>, result: (Renderer<S>, bool)) {
    (result.1 <==> !r.delivered && result.0.delivered) && (r.delivered ==> result.0.delivered)
  }

  lemma StepKeepsReferences<S>(s: System<S>, step: Step<S>)
    requires References(s) && Enabled(s, step)
    ensures References(Next(s, step))
  {
    hide References, WorkNext, AfterSend, Discarded, AfterPrepare, AfterError, SampleMoved, Clears;
    if step.Prepare? {
      PrepareKeepsReferences(s, step.sample, Prepared(s.r, step.sample, step.scheduled), step.scheduled);
    } else {
      SampleAfter(s, step);
      MovedKeepsReferences(s, Next(s, step), Clears(s, step));
    }
  }

  lemma PrepareKeepsReferences<S>(s: System<S>, p: S, result: (Renderer<S>, HRESULT), scheduled: bool)
    requires References(s) && result == Prepared(s.r, p, scheduled)
    ensures References(AfterPrepare(s, p, result))
  {
    PendingOf(s.r, result.0);
    EmptyLeft(s.released);
  }

  lemma MovedKeepsReferences<S>(s: System<S>, s': System<S>, clears: bool)
    requires References(s) && SampleMoved(s, s', clears)
    ensures References(s')
  {
    PendingOf(s.r, s'.r);
    hide Pending;
    EmptyLeft(s.released + Pending(s.r));
  }

  lemma EmptyLeft<S>(m: multiset<S>)
    ensures m + multiset{} == m
  {
  }

  lemma PendingOf<S>(r: Renderer<S>, r': Renderer<S>)
    ensures r'.sample == r.sample ==> Pending(r') == Pending(r)
    ensures r'.sample.None? ==> Pending(r') == multiset{}
    ensures r.sample.None? ==> Pending(r) == multiset{}
    ensures r'.sample.Some? ==> Pending(r') == multiset{r'.sample.value}
  {
  }

  predicate Clears<S>(s: System<S>, step: Step<S>) {
    || step.DisplayChange? || step.BeginFlush? || (step.Finish? && !s.r.state.State_Stopped?)
    || (step.Go? && WorkClears(s.work))
  }

  predicate WorkClears(w: Work) {
    match w
    case Stopping(p) => p.Inactive?
    case Pausing(p, _) => p.PauseClear?
    case Starting(p, _) => p.RunClear?
    case Breaking(p) => p.BreakClear?
    case _ => false
  }

  /** A sample is only cleared, and its reference given back, at the end of Receive and by ClearPendingSample. */
  lemma SampleAfter<S>(s: System<S>, step: Step<S>)
    requires Enabled(s, step) && !step.Prepare?
    ensures SampleMoved(s, Next(s, step), Clears(s, step))
  {
    hide Pending, Sent, Ended, Started, Finished, WorkNext, NeedsLock;
    if step.Go? {
      WorkMoves(s, step.d);
    } else if step.EndOfStream? || step.Finish? || step.TimerSends? {
      SamplesKept(s.r, step.d);
    }
  }

  predicate SampleMoved<S(==)>(s: System<S>, s': System<S>, clears: bool) {
    && s'.added == s.added
    && s'.r.sample == (if clears then None else s.r.sample)
    && s'.released == if clears then s.released + Pending(s.r) else s.released
  }

  /** One point of the work keeps the count, and clears the sample only where it should. */
  predicate Moves<S(==)>(s: System<S>, s': System<S>, clears: bool) {
    (Counted(s) ==> Counted(s')) && SampleMoved(s, s', clears)
  }

  lemma WorkMoves<S>(s: System<S>, d: Delay)
    ensures Moves(s, WorkNext(s, d), WorkClears(s.work))
  {
    hide Moves, StopNext, PauseNext, StartNext, FlushNext, BreakNext;
    match s.work
    case Free => NothingMoves(s);
    case Stopping(p) => StopMoves(s, p);
    case Pausing(p, why) => PauseMoves(s, p, why);
    case Starting(p, stopped) => StartMoves(s, p, stopped, d);
    case Flushing(at) => FlushMoves(s, at);
    case Breaking(p) => BreakMoves(s, p);
  }

  lemma NothingMoves<S>(s: System<S>)
    ensures Moves(s, s, false)
  {
  }

  lemma ResetMoves<S>(s: System<S>, at: ResetPoint)
    ensures Moves(s, ResetNext(s, at).0, false)
  {
    match at { case Look => case Kill => case Flags => }
  }

  lemma StopMoves<S>(s: System<S>, p: StopPoint)
    ensures Moves(s, StopNext(s, p), p.Inactive?)
  {
    hide Pending, ResetNext;
    match p {
      case Inactive => case SetStopped => case StopStreams => case StopAbort =>
      case StopReset(at) => ResetMoves(s, at);
    }
  }

  lemma PauseMoves<S>(s: System<S>, p: PausePoint, why: Reason)
    ensures Moves(s, PauseNext(s, p, why), p.PauseClear?)
  {
    hide Pending;
    match p {
      case SetPaused => case PauseStreams => case PauseLook => case PauseKill => case PauseAbort => case PauseClear =>
    }
  }

  lemma StartMoves<S>(s: System<S>, p: RunPoint, stopped: bool, d: Delay)
    ensures Moves(s, StartNext(s, p, stopped, d), p.RunClear?)
  {
    hide Pending, Started, AfterSend;
    match p { case SetRunning => case RunAbort => case RunClear => case RunStart => SendMoves(s, Started(s.r, d), d); }
  }

  lemma SendMoves<S>(s: System<S>, result: (Renderer<S>, bool), d: Delay)
    requires result == Started(s.r, d)
    ensures Moves(s, AfterSend(s, result, s.r.sample), false)
  {
    hide Pending, Sent, Ended, Started, Finished;
    SamplesKept(s.r, d);
    SendCounts(s.r, d);
  }

  lemma FlushMoves<S>(s: System<S>, at: ResetPoint)
    ensures Moves(s, FlushNext(s, at), false)
  {
    hide Pending, ResetNext;
    ResetMoves(s, at);
  }

  lemma BreakMoves<S>(s: System<S>, p: BreakPoint)
    ensures Moves(s, BreakNext(s, p), p.BreakClear?)
  {
    hide Pending, ResetNext;
    match p { case BreakReset(at) => ResetMoves(s, at); case BreakClear => case BreakAbort => }
  }

  lemma SamplesKept<S>(r: Renderer<S>, d: Delay)
    ensures Sent(r, d).0.sample == Ended(r, d).0.sample == Started(r, d).0.sample == r.sample
    ensures Finished(r, d).0.sample == if r.state.State_Stopped? then r.sample else None
  {
  }

  ghost predicate Run<S>(s0: System<S>, steps: seq<Step<S>>, s: System<S>, quiet: bool)
    decreases |steps|
  {
    if steps == [] then s == s0
    else Enabled(s0, steps[0]) && (quiet ==> Quiet(s0, steps[0])) && Run(Next(s0, steps[0]), steps[1..], s, quiet)
  }

  lemma {:induction false} RunKeepsInv<S>(s0: System<S>, steps: seq<Step<S>>, s: System<S>, quiet: bool)
    requires Inv(s0) && Run(s0, steps, s, quiet)
    ensures Inv(s)
    decreases |steps|
  {
    hide Inv, Enabled, Next, Quiet;
    if steps != [] {
      StepKeepsInv(s0, steps[0]);
      RunKeepsInv(Next(s0, steps[0]), steps[1..], s, quiet);
    }
  }

  /** In every run NotifyEndOfStream sends EC_COMPLETE at most once between two resets, and every sample that was
      accepted is released exactly once, when it is cleared. */
  lemma CompleteOnce<S>(steps: seq<Step<S>>, s: System<S>)
    requires Run(Start<S>(), steps, s, false)
    ensures s.completes <= 1 && (s.r.delivered <==> s.completes == 1)
    ensures s.r.sample.None? ==> s.added == s.released
    ensures s.r.sample.Some? ==> s.added == s.released + multiset{s.r.sample.value}
  {
    RunKeepsInv(Start<S>(), steps, s, false);
  }

  // ---------- the state at each point of the work ----------

  /** The renderer streams when it is connected and running; a stopped or disconnected renderer has not been told of an
      end of stream. */
  predicate AtRest<S>(s: System<S>) {
    && (s.r.streaming <==> s.connected && s.r.state.State_Running?)
    && (s.r.state.State_Stopped? ==> !s.r.eos)
  }

  predicate AtStop<S>(s: System<S>, p: StopPoint) {
    match p
    case Inactive | SetStopped => AtRest(s) && !s.r.state.State_Stopped?
    case StopStreams => s.r.state.State_Stopped?
    case StopReset(_) => s.r.state.State_Stopped? && !s.r.streaming
    case StopAbort => s.r.state.State_Stopped? && !s.r.streaming && !s.r.eos
  }

  predicate AtPause<S>(s: System<S>, p: PausePoint, why: Reason) {
    && (!why.FromRunning? ==> !s.r.streaming && !s.r.eos)
    && match p
       case SetPaused => AtRest(s) && (why.FromRunning? <==> s.r.state.State_Running?) && !s.r.state.State_Paused?
       case PauseStreams => s.r.state.State_Paused?
       case PauseLook | PauseKill => s.r.state.State_Paused? && !s.r.streaming
       case PauseAbort | PauseClear => s.r.state.State_Paused? && !why.FromRunning? && s.r.timer == 0
  }

  predicate AtStart<S>(s: System<S>, p: RunPoint, stopped: bool) {
    && !s.r.streaming
    && match p
       case SetRunning => s.r.state.State_Paused? && (stopped ==> !s.r.eos && s.r.timer == 0)
       case RunAbort | RunClear => s.r.state.State_Running? && !s.r.eos && s.r.timer == 0
       case RunStart => s.r.state.State_Running?
  }

  predicate AtBreak<S>(s: System<S>, p: BreakPoint) {
    && AtRest(s) && s.r.state.State_Stopped?
    && match p
       case BreakReset(at) => at.Flags? ==> s.r.timer == 0
       case BreakClear | BreakAbort => s.r.timer == 0
  }

  predicate AtWork<S>(s: System<S>) {
    match s.work
    case Free => AtRest(s)
    case Stopping(p) => AtStop(s, p)
    case Pausing(p, why) => AtPause(s, p, why)
    case Starting(p, stopped) => AtStart(s, p, stopped)
    case Flushing(_) => AtRest(s) && s.flushing
    case Breaking(p) => AtBreak(s, p)
  }

  predicate Sound<S>(s: System<S>) {
    && AtWork(s)
    && (!s.work.Free? ==> s.connected)
    && (!s.connected ==> !s.r.eos && s.r.timer == 0)
    && (s.r.abort ==> s.r.sample.None?)
  }

  // ---------- the timer, and samples that are still pending ----------

  /** No timer callback leaves a timer behind between the two halves of the reset in BeginFlush, unless a display change
      has made the renderer refuse samples until it is stopped. */
  predicate Quiet<S>(s: System<S>, step: Step<S>) {
    step.TimerSends? && s.work == Flushing(Flags) && !s.r.abort ==> Sent(s.r, step.d).0.timer == 0
  }

  /** A timer from before is killed before the next sample is taken: the renderer is stopped, or refuses samples, or is
      being paused. */
  predicate LeftOver<S>(s: System<S>) {
    && !s.r.eos
    && (s.r.state.State_Stopped? || s.r.abort
        || (s.work.Pausing? && !s.work.pause.PauseAbort? && !s.work.pause.PauseClear?))
  }

  /** Otherwise a timer means that the stream has ended and that nothing is pending. */
  predicate TimerMeansEnd<S>(s: System<S>) {
    && (s.r.timer != 0 ==> (s.r.eos && s.r.sample.None?) || LeftOver(s))
    && (s.callback ==> s.r.timer == 0 && (s.r.eos ==> s.r.sample.None?))
    && (s.work == Flushing(Flags) ==> s.r.timer == 0 || s.r.abort)
    && !s.overtaken
  }

  /** A running renderer at the end of its stream, with nothing pending, has sent EC_COMPLETE or waits for the timer,
      unless the end of the stream is about to be taken back. */
  predicate EndIsWaitedFor<S>(s: System<S>) {
    s.r.streaming && !s.r.delivered && s.r.eos && s.r.sample.None? && !s.r.abort && !s.callback && s.r.timer == 0 ==>
      s.work == Stopping(SetStopped) || s.work == Stopping(StopStreams) || s.work.Flushing?
  }

  /** What a step does to these: only one that is not quiet breaks the meaning of the timer. */
  predicate Keeps<S>(s: System<S>, s': System<S>, quiet: bool) {
    && Sound(s')
    && (EndIsWaitedFor(s) ==> EndIsWaitedFor(s'))
    && (TimerMeansEnd(s) ==> (TimerMeansEnd(s') <==> quiet))
  }

  lemma StepKeeps<S>(s: System<S>, step: Step<S>)
    requires Sound(s) && Enabled(s, step)
    ensures Keeps(s, Next(s, step), Quiet(s, step))
  {
    hide Sound, Keeps, WorkNext, AfterSend, Discarded, AfterPrepare, AfterError, Sent;
    match step
    case Go(d) => WorkKeeps(s, d);
    case DisplayChange | TimerTakes(_) | TimerSends(_) => AsideKeeps(s, step);
    case EndOfStream(_) | Finish(_) => EndKeeps(s, step);
    case Prepare(_, _) | FailReceive(_) | ErrorPath => StreamKeeps(s, step);
    case _ => CallKeeps(s, step);
  }

  lemma WorkKeeps<S>(s: System<S>, d: Delay)
    requires Sound(s) && !s.work.Free? && (NeedsLock(s.work) ==> !s.callback)
    ensures Keeps(s, WorkNext(s, d), true)
  {
    hide Sound, Keeps, StopNext, PauseNext, StartNext, FlushNext, BreakNext;
    match s.work
    case Stopping(p) => StopKeeps(s, p);
    case Pausing(p, why) => PauseKeeps(s, p, why);
    case Starting(p, stopped) => StartKeeps(s, p, stopped, d);
    case Flushing(at) => FlushKeeps(s, at);
    case Breaking(p) => BreakKeeps(s, p);
  }

  lemma StopKeeps<S>(s: System<S>, p: StopPoint)
    requires Sound(s) && s.work == Stopping(p) && (NeedsLock(s.work) ==> !s.callback)
    ensures Keeps(s, StopNext(s, p), true)
  {
    hide Pending;
    match p {
      case Inactive => case SetStopped => case StopStreams => case StopAbort =>
      case StopReset(at) => match at { case Look => case Kill => case Flags => }
    }
  }

  lemma PauseKeeps<S>(s: System<S>, p: PausePoint, why: Reason)
    requires Sound(s) && s.work == Pausing(p, why) && (NeedsLock(s.work) ==> !s.callback)
    ensures Keeps(s, PauseNext(s, p, why), true)
  {
    hide Pending;
    match p {
      case SetPaused => case PauseStreams => case PauseLook => case PauseKill => case PauseAbort => case PauseClear =>
    }
  }

  lemma StartKeeps<S>(s: System<S>, p: RunPoint, stopped: bool, d: Delay)
    requires Sound(s) && s.work == Starting(p, stopped) && (NeedsLock(s.work) ==> !s.callback)
    ensures Keeps(s, StartNext(s, p, stopped, d), true)
  {
    hide Pending;
    match p {
      case SetRunning => case RunAbort => case RunClear => case RunStart =>
    }
  }

  lemma FlushKeeps<S>(s: System<S>, at: ResetPoint)
    requires Sound(s) && s.work == Flushing(at) && (NeedsLock(s.work) ==> !s.callback)
    ensures Keeps(s, FlushNext(s, at), true)
  {
    match at { case Look => case Kill => case Flags => }
  }

  lemma BreakKeeps<S>(s: System<S>, p: BreakPoint)
    requires Sound(s) && s.work == Breaking(p) && (NeedsLock(s.work) ==> !s.callback)
    ensures Keeps(s, BreakNext(s, p), true)
  {
    hide Pending;
    match p {
      case BreakReset(at) => match at { case Look => case Kill => case Flags => }
      case BreakClear => case BreakAbort =>
    }
  }

  lemma CallKeeps<S>(s: System<S>, step: Step<S>)
    requires Sound(s) && Enabled(s, step)
    requires step.Connect? || step.Disconnect? || step.Stop? || step.Pause? || step.RunFilter? || step.BeginFlush?
             || step.EndFlush?
    ensures Keeps(s, Next(s, step), true)
  {
    hide Pending, Sent, Ended, Started, Finished, AfterSend, WorkNext, AfterPrepare, AfterError, NeedsLock;
    match step {
      case Connect => case Disconnect => case Stop => case Pause => case RunFilter => case BeginFlush => case _ =>
    }
  }

  lemma StreamKeeps<S>(s: System<S>, step: Step<S>)
    requires Sound(s) && Enabled(s, step) && (step.Prepare? || step.FailReceive? || step.ErrorPath?)
    ensures Keeps(s, Next(s, step), true)
  {
    hide Pending, WorkNext, NeedsLock, AfterSend, Sent, Ended, Started, Finished;
    match step { case Prepare(_, _) => case FailReceive(_) => case _ => }
  }

  lemma EndKeeps<S>(s: System<S>, step: Step<S>)
    requires Sound(s) && Enabled(s, step) && (step.EndOfStream? || step.Finish?)
    ensures Keeps(s, Next(s, step), true)
  {
    hide Pending, WorkNext, NeedsLock, AfterPrepare, AfterError;
    match step { case EndOfStream(_) => case _ => }
  }

  /** What a display change and the timer do leaves the points of the work as they are. */
  lemma AsideKeeps<S>(s: System<S>, step: Step<S>)
    requires Sound(s) && Enabled(s, step) && (step.DisplayChange? || step.TimerTakes? || step.TimerSends?)
    ensures Keeps(s, Next(s, step), Quiet(s, step))
  {
    hide Pending, AtWork, WorkNext, NeedsLock, AfterPrepare, AfterError;
    StaysAtWork(s, Next(s, step));
    match step { case DisplayChange => case TimerTakes(_) => case _ => }
  }

  lemma StaysAtWork<S>(s: System<S>, s': System<S>)
    requires AtWork(s) && s'.work == s.work && s'.connected == s.connected && s'.flushing == s.flushing
    requires s'.r.state == s.r.state && s'.r.streaming == s.r.streaming && s'.r.eos == s.r.eos
    requires s.r.eos || s.r.timer != 0 || s'.r.timer == 0
    ensures AtWork(s')
  {
  }

  /** Nothing but such a callback breaks the meaning of the timer. */
  lemma TimerKeptIff<S>(s: System<S>, step: Step<S>)
    requires Sound(s) && TimerMeansEnd(s) && Enabled(s, step)
    ensures TimerMeansEnd(Next(s, step)) <==> Quiet(s, step)
  {
    hide Sound, TimerMeansEnd, EndIsWaitedFor, Enabled, Next, Quiet;
    StepKeeps(s, step);
  }

  // ---------- over all runs ----------

  lemma {:induction false} RunKeeps<S>(s0: System<S>, steps: seq<Step<S>>, s: System<S>, quiet: bool)
    requires Sound(s0) && EndIsWaitedFor(s0) && Run(s0, steps, s, quiet)
    ensures Sound(s) && EndIsWaitedFor(s)
    ensures quiet && TimerMeansEnd(s0) ==> TimerMeansEnd(s)
    decreases |steps|
  {
    hide Sound, EndIsWaitedFor, TimerMeansEnd, Enabled, Next, Quiet;
    if steps != [] {
      StepKeeps(s0, steps[0]);
      RunKeeps(Next(s0, steps[0]), steps[1..], s, quiet);
    }
  }

  /** Completion is not forgotten: in every run a running renderer that was told of the end of the stream, and has
      nothing pending, has sent EC_COMPLETE or has a timer or a callback that will, unless a stop or a flush is about to
      take the end back or a display change has made it refuse samples. */
  lemma EndIsNotForgotten<S>(steps: seq<Step<S>>, s: System<S>)
    requires Run(Start<S>(), steps, s, false)
    requires s.r.streaming && s.r.eos && s.r.sample.None? && !s.r.abort
    ensures s.completes == 1 || s.r.timer != 0 || s.callback || s.work.Stopping? || s.work.Flushing?
  {
    RunKeeps(Start<S>(), steps, s, false);
    RunKeepsInv(Start<S>(), steps, s, false);
  }

  /** When a sample is taken, in every run: nothing is pending, no end, flush or error has come, and the renderer is
      paused, when it does not look at the clock, or running and the clock takes the sample.  So a paused renderer takes
      its first sample. */
  lemma TakenIff<S>(steps: seq<Step<S>>, s: System<S>, p: S, scheduled: bool)
    requires Run(Start<S>(), steps, s, false) && Enabled(s, Prepare(p, scheduled))
    ensures var s' := Next(s, Prepare(p, scheduled));
            var takes := s.r.sample.None? && !s.r.eos && !s.r.abort && StreamingOk(s)
                         && (s.r.state.State_Paused? || scheduled);
            && (takes ==> s'.r.sample == Some(p) && s'.added == s.added + multiset{p})
            && (!takes ==> s'.r == s.r && s'.added == s.added)
  {
    RunKeeps(Start<S>(), steps, s, false);
  }

  /** As long as no callback leaves a timer behind inside a flush, completion never overtakes a pending sample, and a
      timer means that the stream has ended with nothing pending, or is killed before the next sample is taken. */
  lemma NeverOvertaken<S>(steps: seq<Step<S>>, s: System<S>)
    requires Run(Start<S>(), steps, s, true)
    ensures s.r.timer != 0 ==> (s.r.eos && s.r.sample.None?) || LeftOver(s)
    ensures !s.overtaken
  {
    RunKeeps(Start<S>(), steps, s, true);
  }

  /** NotifyEndOfStream asserts that no timer is set.  Every call through SendEndOfStream meets that. */
  lemma NoTimerWhenSending<S>(r: Renderer<S>, d: Delay)
    ensures Sent(r, d).1 ==> r.timer == 0 && !r.delivered
    ensures Ended(r, d).1 ==> r.timer == 0 && !r.delivered
    ensures Started(r, d).1 ==> r.timer == 0 && !r.delivered
    ensures Finished(r, d).1 ==> r.timer == 0 && !r.delivered
  {
  }

  /** On the error path of Receive it holds exactly unless the failure comes after the end of the stream with nothing
      pending.  That it fails then is so in every run, that it holds otherwise in all without a timer from before. */
  lemma ErrorAssertionIff<S>(steps: seq<Step<S>>, s: System<S>, quiet: bool)
    requires Run(Start<S>(), steps, s, quiet) && Enabled(s, ErrorPath) && Notifies(s)
    ensures s.r.eos && s.r.sample.None? ==> s.r.timer != 0
    ensures quiet ==> (s.r.timer == 0 <==> !(s.r.eos && s.r.sample.None?))
  {
    hide Run, Sound;
    RunKeeps(Start<S>(), steps, s, quiet) by { StartSound<S>(); }
  }

  lemma StartSound<S>()
    ensures Sound(Start<S>()) && EndIsWaitedFor(Start<S>()) && TimerMeansEnd(Start<S>())
  {
  }

  // ---------- runs ----------

  lemma RunNone<S>(s: System<S>, quiet: bool)
    ensures Run(s, [], s, quiet)
  {
  }

  lemma RunCons<S>(s0: System<S>, step: Step<S>, rest: seq<Step<S>>, s: System<S>, quiet: bool)
    requires Enabled(s0, step) && (quiet ==> Quiet(s0, step)) && Run(Next(s0, step), rest, s, quiet)
    ensures Run(s0, [step] + rest, s, quiet)
  {
    var steps := [step] + rest;
    assert steps[1..] == rest;
  }

  predicate Follows<S(==)>(s0: System<S>, step: Step<S>, s1: System<S>) {
    Enabled(s0, step) && Quiet(s0, step) && Next(s0, step) == s1
  }

  lemma RunFollows<S>(s0: System<S>, step: Step<S>, s1: System<S>, rest: seq<Step<S>>, s: System<S>, quiet: bool)
    returns (steps: seq<Step<S>>)
    requires Follows(s0, step, s1) && Run(s1, rest, s, quiet)
    ensures Run(s0, steps, s, quiet)
  {
    steps := [step] + rest;
    hide Enabled, Next, Quiet, Run;
    RunCons(s0, step, rest, s, quiet);
  }

  /** Between the halves of the reset in a flush, with a timer that may still fire. */
  predicate TimerLeft<S>(s: System<S>) {
    && s.work == Flushing(Flags) && s.connected && s.flushing && !s.callback
    && s.r.timer != 0 && s.r.timer in s.armed && s.r.sample.None? && !s.r.abort
    && !s.r.state.State_Stopped? && (s.r.streaming <==> s.r.state.State_Running?)
  }

  lemma LeftBehind<S>(s: System<S>, step: Step<S>)
    requires Sound(s) && TimerMeansEnd(s) && Enabled(s, step) && !Quiet(s, step)
    ensures TimerLeft(Next(s, step))
  {
    hide Pending, WorkNext, NeedsLock, AfterPrepare, AfterError;
  }

  /** After the flush, running or paused, with a timer that has nothing to do with the stream. */
  predicate TimerAfter<S(==)>(s: System<S>, id: nat, running: bool) {
    && s.work.Free? && s.connected && !s.flushing && !s.runTimeError && !s.callback && id != 0 && id in s.armed
    && s.r == Renderer(if running then State_Running else State_Paused, running, false, false, id, None, false)
  }

  lemma FlushEnds<S>(s0: System<S>) returns (s1: System<S>, s2: System<S>)
    requires TimerLeft(s0)
    ensures Follows(s0, Go(NoClock), s1) && Follows(s1, EndFlush, s2)
    ensures TimerAfter(s2, s0.r.timer, s0.r.streaming)
  {
    hide Pending, StopNext, PauseNext, StartNext, BreakNext, AfterSend, AfterPrepare, AfterError;
    s1 := Next(s0, Go(NoClock));
    s2 := Next(s1, EndFlush);
  }

  /** Run does not look at the timer when the filter was paused. */
  lemma RunsAgain<S>(s2: System<S>, id: nat) returns (s3: System<S>, s4: System<S>, s5: System<S>)
    requires TimerAfter(s2, id, false)
    ensures Follows(s2, RunFilter, s3) && Follows(s3, Go(NoClock), s4) && Follows(s4, Go(NoClock), s5)
    ensures TimerAfter(s5, id, true)
  {
    hide Pending, StopNext, PauseNext, FlushNext, BreakNext, AfterPrepare, AfterError;
    s3 := Next(s2, RunFilter);
    s4 := Next(s3, Go(NoClock));
    s5 := Next(s4, Go(NoClock));
  }

  /** The next stream is one sample and its end. */
  lemma NextStream<S>(s5: System<S>, id: nat, next: S) returns (s6: System<S>, s7: System<S>)
    requires TimerAfter(s5, id, true)
    ensures Follows(s5, Prepare(next, true), s6) && Follows(s6, EndOfStream(Near), s7) && TimerFirst(s7, id, next)
  {
    hide Pending, WorkNext, AfterError;
    s6 := Next(s5, Prepare(next, true));
    s7 := Next(s6, EndOfStream(Near));
  }

  /** The stream has ended with this sample pending, and the old timer is still there. */
  predicate TimerFirst<S(==)>(s: System<S>, id: nat, next: S) {
    && !s.callback && id != 0 && id in s.armed && s.work.Free?
    && s.r == Renderer(State_Running, true, true, false, id, Some(next), false)
  }

  lemma OldTimerFires<S>(s7: System<S>, id: nat, next: S) returns (s8: System<S>, s9: System<S>)
    requires TimerFirst(s7, id, next)
    ensures Follows(s7, TimerTakes(id), s8) && Follows(s8, TimerSends(Near), s9)
    ensures s9.overtaken && s9.r.sample == Some(next)
  {
    hide Pending, WorkNext, AfterError, AfterPrepare;
    s8 := Next(s7, TimerTakes(id));
    s9 := Next(s8, TimerSends(Near));
  }

  lemma OvertakesFrom<S>(s5: System<S>, id: nat, next: S) returns (more: seq<Step<S>>, s': System<S>)
    requires TimerAfter(s5, id, true)
    ensures Run(s5, more, s', true) && s'.overtaken && s'.r.sample == Some(next)
  {
    hide Follows, Run, TimerAfter, TimerFirst;
    var s6, s7 := NextStream(s5, id, next);
    var s8, s9 := OldTimerFires(s7, id, next);
    s' := s9;
    RunNone(s9, true);
    more := RunFollows(s8, TimerSends(Near), s9, [], s9, true);
    more := RunFollows(s7, TimerTakes(id), s8, more, s9, true);
    more := RunFollows(s6, EndOfStream(Near), s7, more, s9, true);
    more := RunFollows(s5, Prepare(next, true), s6, more, s9, true);
  }

  lemma OvertakesAfter<S>(s2: System<S>, id: nat, running: bool, next: S) returns (more: seq<Step<S>>, s': System<S>)
    requires TimerAfter(s2, id, running)
    ensures Run(s2, more, s', true) && s'.overtaken && s'.r.sample == Some(next)
  {
    hide Follows, Run, TimerAfter;
    if running {
      more, s' := OvertakesFrom(s2, id, next);
    } else {
      var s3, s4, s5 := RunsAgain(s2, id);
      more, s' := OvertakesFrom(s5, id, next);
      more := RunFollows(s4, Go(NoClock), s5, more, s', true);
      more := RunFollows(s3, Go(NoClock), s4, more, s', true);
      more := RunFollows(s2, RunFilter, s3, more, s', true);
    }
  }

  /** Once a callback leaves a timer behind inside a flush, the run can go on so that completion overtakes the next
      sample. */
  lemma RearmingOvertakes<S>(steps: seq<Step<S>>, s: System<S>, step: Step<S>, next: S)
    requires Run(Start<S>(), steps, s, true) && Enabled(s, step) && !Quiet(s, step)
    ensures exists more, s' :: Run(Next(s, step), more, s', true) && s'.overtaken && s'.r.sample == Some(next)
  {
    hide Run, Next, Enabled, Quiet, Sound, TimerMeansEnd, EndIsWaitedFor, TimerLeft, TimerAfter, Follows;
    StartSound<S>();
    RunKeeps(Start<S>(), steps, s, true);
    LeftBehind(s, step);
    var s0 := Next(s, step);
    var s1, s2 := FlushEnds(s0);
    var more, s' := OvertakesAfter(s2, s0.r.timer, s0.r.streaming, next);
    more := RunFollows(s1, EndFlush, s2, more, s', true);
    more := RunFollows(s0, Go(NoClock), s1, more, s', true);
  }

  /** Connected, at this point of the work. */
  function Ready(work: Work, state: FilterState): System<int> {
    Start<int>().(connected := true, work := work, r := Initial().(state := state))
  }

  predicate GoesTo(w1: Work, state1: FilterState, w2: Work, state2: FilterState) {
    Follows(Ready(w1, state1), Go(NoClock), Ready(w2, state2))
  }

  /** Running, with the end of the stream waiting for timer 1. */
  function EndWaits(): System<int> {
    Ready(Free, State_Running).(r := Renderer(State_Running, true, true, false, 1, None, false), armed := {1})
  }

  lemma PausesFirst()
    ensures Follows(Start<int>(), Connect, Ready(Free, State_Stopped))
    ensures Follows(Ready(Free, State_Stopped), RunFilter, Ready(Pausing(SetPaused, ForRun), State_Stopped))
    ensures GoesTo(Pausing(SetPaused, ForRun), State_Stopped, Pausing(PauseStreams, ForRun), State_Paused)
    ensures GoesTo(Pausing(PauseStreams, ForRun), State_Paused, Pausing(PauseLook, ForRun), State_Paused)
    ensures GoesTo(Pausing(PauseLook, ForRun), State_Paused, Pausing(PauseAbort, ForRun), State_Paused)
    ensures GoesTo(Pausing(PauseAbort, ForRun), State_Paused, Pausing(PauseClear, ForRun), State_Paused)
  {
  }

  lemma ThenRuns()
    ensures GoesTo(Pausing(PauseClear, ForRun), State_Paused, Starting(SetRunning, true), State_Paused)
    ensures GoesTo(Starting(SetRunning, true), State_Paused, Starting(RunAbort, true), State_Running)
    ensures GoesTo(Starting(RunAbort, true), State_Running, Starting(RunClear, true), State_Running)
    ensures GoesTo(Starting(RunClear, true), State_Running, Starting(RunStart, true), State_Running)
  {
    hide StopNext, FlushNext, BreakNext, AfterPrepare, AfterError, AfterSend;
  }

  lemma ThenEnds() returns (s1: System<int>)
    ensures Follows(Ready(Starting(RunStart, true), State_Running), Go(NoClock), s1)
    ensures Follows(s1, EndOfStream(Far(1)), EndWaits())
  {
    hide StopNext, PauseNext, FlushNext, BreakNext, AfterPrepare, AfterError;
    s1 := Ready(Free, State_Running).(r := Renderer(State_Running, true, false, false, 0, None, false));
  }

  lemma EndWaitsRuns(rest: seq<Step<int>>, s: System<int>) returns (steps: seq<Step<int>>)
    requires Run(EndWaits(), rest, s, true)
    ensures Run(Start<int>(), steps, s, true)
  {
    hide Follows, Run, Start, EndWaits, Ready;
    PausesFirst();
    ThenRuns();
    var s1 := ThenEnds();
    steps := RunFollows(s1, EndOfStream(Far(1)), EndWaits(), rest, s, true);
    steps := RunFollows(Ready(Starting(RunStart, true), State_Running), Go(NoClock), s1, steps, s, true);
    steps := Before(Starting(RunClear, true), State_Running, Starting(RunStart, true), State_Running, steps, s);
    steps := Before(Starting(RunAbort, true), State_Running, Starting(RunClear, true), State_Running, steps, s);
    steps := Before(Starting(SetRunning, true), State_Paused, Starting(RunAbort, true), State_Running, steps, s);
    steps := Before(Pausing(PauseClear, ForRun), State_Paused, Starting(SetRunning, true), State_Paused, steps, s);
    steps := Before(Pausing(PauseAbort, ForRun), State_Paused, Pausing(PauseClear, ForRun), State_Paused, steps, s);
    steps := Before(Pausing(PauseLook, ForRun), State_Paused, Pausing(PauseAbort, ForRun), State_Paused, steps, s);
    steps := Before(Pausing(PauseStreams, ForRun), State_Paused, Pausing(PauseLook, ForRun), State_Paused, steps, s);
    steps := Before(Pausing(SetPaused, ForRun), State_Stopped, Pausing(PauseStreams, ForRun), State_Paused, steps, s);
    var s0 := Ready(Free, State_Stopped);
    steps := RunFollows(s0, RunFilter, Ready(Pausing(SetPaused, ForRun), State_Stopped), steps, s, true);
    steps := RunFollows(Start<int>(), Connect, s0, steps, s, true);
  }

  lemma Before(w1: Work, state1: FilterState, w2: Work, state2: FilterState, rest: seq<Step<int>>, s: System<int>)
    returns (steps: seq<Step<int>>)
    requires GoesTo(w1, state1, w2, state2) && Run(Ready(w2, state2), rest, s, true)
    ensures Run(Ready(w1, state1), steps, s, true)
  {
    hide Follows, Run, Ready;
    steps := RunFollows(Ready(w1, state1), Go(NoClock), Ready(w2, state2), rest, s, true);
  }

  /** There are runs to such a callback: it has taken its timer when the reset looks for one, and starts another before
      the flags are cleared. */
  lemma CallbackInFlush() returns (s1: System<int>, s2: System<int>)
    ensures Follows(EndWaits(), BeginFlush, s1) && Follows(s1, TimerTakes(1), s2) && CallbackFirst(s2)
  {
    hide WorkNext, AfterSend, AfterPrepare, AfterError;
    s1 := Next(EndWaits(), BeginFlush);
    s2 := Next(s1, TimerTakes(1));
    assert s2.armed == {};
  }

  /** The callback has taken the timer before the flush looks for it. */
  predicate CallbackFirst(s: System<int>) {
    && s.work == Flushing(Look) && s.callback && s.armed == {}
    && s.r == Renderer(State_Running, true, true, false, 0, None, false)
  }

  lemma FlushFindsNone(s2: System<int>) returns (s3: System<int>)
    requires CallbackFirst(s2)
    ensures Follows(s2, Go(NoClock), s3)
    ensures Enabled(s3, TimerSends(Far(2))) && !Quiet(s3, TimerSends(Far(2)))
  {
    hide StopNext, PauseNext, StartNext, BreakNext, AfterSend, AfterPrepare, AfterError;
    s3 := Next(s2, Go(NoClock));
  }

  lemma RearmingHappens()
    ensures exists steps, s: System<int> ::
              Run(Start<int>(), steps, s, true) && Enabled(s, TimerSends(Far(2))) && !Quiet(s, TimerSends(Far(2)))
  {
    hide Follows, Run, Start, EndWaits, Quiet, Enabled, CallbackFirst;
    var s1, s2 := CallbackInFlush();
    var s3 := FlushFindsNone(s2);
    RunNone(s3, true);
    var steps := RunFollows(s2, Go(NoClock), s3, [], s3, true);
    steps := RunFollows(s1, TimerTakes(1), s2, steps, s3, true);
    steps := RunFollows(EndWaits(), BeginFlush, s1, steps, s3, true);
    steps := EndWaitsRuns(steps, s3);
  }

  lemma SampleRefused() returns (s1: System<int>)
    ensures Follows(EndWaits(), Prepare(7, true), s1)
    ensures Enabled(s1, ErrorPath) && Notifies(s1) && s1.r.timer != 0
  {
    s1 := Next(EndWaits(), Prepare(7, true));
  }

  /** There are runs to a failing assertion: a sample that comes after the end of the stream is refused while the timer
      is waiting. */
  lemma ErrorPathMeetsTimer()
    ensures exists steps, s: System<int> ::
              Run(Start<int>(), steps, s, true) && Enabled(s, ErrorPath) && Notifies(s) && s.r.timer != 0
  {
    hide Follows, Run, Start, EndWaits, Enabled, Notifies;
    var s1 := SampleRefused();
    RunNone(s1, true);
    var steps := RunFollows(EndWaits(), Prepare(7, true), s1, [], s1, true);
    steps := EndWaitsRuns(steps, s1);
  }
}
