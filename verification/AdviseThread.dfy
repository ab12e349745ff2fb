/**
 The advise thread against its clients (refclock.cpp 260-365), as a state machine.
 The thread sleeps on an auto-reset event with a time-out; clients add and withdraw
 advises, and adjust the clock, at any moment.
 */
module AdviseThread {
  import opened Words
  import opened AdviseList
  import opened RefClock

  /** Where the thread is. `rtNow` is the time it read last, when the true time was `readAt`. */
  datatype Phase =
    | Woken
    | HasRead(rtNow: int, readAt: int)
    | Ready(dwWait: U32, rtNow: int, readAt: int)
    | Waiting(dwWait: U32, rtNow: int, readAt: int, start: int)

  /** The clock shows `clock` when the true time is `elapsed`; `drift` sums the small
      forward adjustments since the thread last read it. */
  datatype State = State(
    es: seq<Entry>, nextCookie: nat, ev: bool, clock: int, elapsed: int, drift: nat, phase: Phase,
    log: seq<Firing>, at: seq<int>, added: map<nat, Entry>)

  datatype Step =
    | Add(time: int, period: int, notify: int, periodic: bool)
    | Unadvise(cookie: nat)
    | Pass(d: nat)
    | SetTimeDelta(delta: int)
    | Wait
    | Signalled
    | TimedOut
    | Read
    | Dispatch

  /** The thread first waits for ever, for the first advise. */
  function Initial(clock: int): State {
    State([], 0, false, clock, 0, 0, Ready(INFINITE, clock, 0), [], [], map[])
  }

  ghost predicate Enabled(s: State, step: Step) {
    match step
    case Add(time, period, _, periodic) => 0 < time < MAX_TIME && (periodic ==> period > 0)
    case Wait => s.phase.Ready?
    case Signalled => s.phase.Waiting? && s.ev
    case TimedOut => s.phase.Waiting? && s.phase.dwWait < INFINITE
        && s.elapsed >= s.phase.start + 10_000 * s.phase.dwWait
    case Read => s.phase.Woken?
    // the clock stays short of the end of time, and so do the periodic entries
    case Dispatch => s.phase.HasRead? && s.phase.rtNow + 10_000 < MAX_TIME && NoOverflow(s.es, s.phase.rtNow + 10_000)
    case _ => true
  }

  ghost predicate CanWake(s: State) {
    Enabled(s, Signalled) || Enabled(s, TimedOut)
  }

  ghost function Next(s: State, step: Step): State
    requires WellFormed(s.es, s.nextCookie) && Enabled(s, step)
  {
    match step
    case Add(time, period, notify, periodic) =>
      var e := Entry(s.nextCookie + 1, time, period, notify, periodic);
      s.(es := Insert(s.es, e), nextCookie := s.nextCookie + 1,
         ev := s.ev || Before(s.es, time) == 0, added := s.added[e.cookie := e])
    case Unadvise(cookie) => s.(es := Remove(s.es, cookie))
    case Pass(d) => s.(clock := s.clock + d, elapsed := s.elapsed + d)
    case SetTimeDelta(delta) =>
      var trigger := delta > 5000 && s.es != [];
      s.(clock := s.clock + delta, ev := s.ev || trigger,
         drift := if 0 < delta <= 5000 then s.drift + delta else s.drift)
    case Wait => s.(phase := Waiting(s.phase.dwWait, s.phase.rtNow, s.phase.readAt, s.elapsed))
    case Signalled => s.(phase := Woken, ev := false)
    case TimedOut => s.(phase := Woken)
    case Read => s.(phase := HasRead(s.clock, s.elapsed), drift := 0)
    case Dispatch => Dispatched(s, s.phase.rtNow, s.phase.readAt)
  }

  ghost function Dispatched(s: State, rtNow: int, readAt: int): State
    requires Sorted(s.es) && GoodTimes(s.es) && NoOverflow(s.es, rtNow + 10_000) && rtNow + 10_000 < MAX_TIME
  {
    LeavesLater(s.es, rtNow + 10_000);
    var (rest, sent) := AdviseAll(s.es, rtNow + 10_000);
    s.(es := rest, phase := Ready(InMilliseconds(NextTime(rest) - rtNow), rtNow, readAt),
       log := s.log + sent, at := s.at + seq(|sent|, _ => rtNow))
  }

  // ---------- no lost wake-up ----------

  /** If nobody has signalled the thread, the clock has run since its reading only with true time and a little drift. */
  ghost predicate Tracks(s: State, rtNow: int, readAt: int) {
    readAt <= s.elapsed && (s.ev || s.es == [] || s.clock <= rtNow + (s.elapsed - readAt) + s.drift)
  }

  /** Either the thread will be woken by the event, or its wait ends before the earliest advise. */
  ghost predicate Covered(s: State, dwWait: U32, rtNow: int) {
    dwWait >= 1 && (s.ev || s.es == [] || rtNow + 10_000 * dwWait <= NextTime(s.es))
  }

  ghost predicate Alert(s: State) {
    match s.phase
    case Woken => true
    case HasRead(rtNow, readAt) => Tracks(s, rtNow, readAt)
    case Ready(dwWait, rtNow, readAt) => Tracks(s, rtNow, readAt) && Covered(s, dwWait, rtNow)
    case Waiting(dwWait, rtNow, readAt, start) =>
      Tracks(s, rtNow, readAt) && Covered(s, dwWait, rtNow) && readAt <= start <= s.elapsed
  }

  // ---------- the ledger of signals ----------

  /** How many signals cookie c was sent. */
  function Sent(log: seq<Firing>, c: nat): nat {
    if log == [] then 0
    else Sent(log[..|log| - 1], c) + (if log[|log| - 1].cookie == c then 1 else 0)
  }

  /** An advise as it stands after n signals. */
  function After(e: Entry, n: nat): Entry { e.(time := e.time + n * e.period) }

  /** Each signal is the next one its request asked for, and each listed entry is where its request has got to. */
  ghost predicate Ledger(es: seq<Entry>, log: seq<Firing>, added: map<nat, Entry>) {
    && (forall c :: c in added ==> added[c].cookie == c)
    && (forall e :: e in es ==> Listed(e, log, added))
    && (forall i :: 0 <= i < |log| ==> Owed(log[i], log[..i], added))
  }

  ghost predicate Listed(e: Entry, log: seq<Firing>, added: map<nat, Entry>) {
    e.cookie in added && e == After(added[e.cookie], Sent(log, e.cookie)) && (!e.periodic ==> Sent(log, e.cookie) == 0)
  }

  /** f comes after the signals in `before`: it is number n for its client, at start + n * period; a one-shot has only
      n == 0. */
  ghost predicate Owed(f: Firing, before: seq<Firing>, added: map<nat, Entry>) {
    && f.cookie in added
    && f == Fire(After(added[f.cookie], Sent(before, f.cookie)))
    && (!f.periodic ==> Sent(before, f.cookie) == 0)
  }

  lemma SentNext(log: seq<Firing>, f: Firing, c: nat)
    ensures Sent(log + [f], c) == Sent(log, c) + (if f.cookie == c then 1 else 0)
  {
    assert (log + [f])[..|log|] == log;
  }

  lemma LedgerTurn(es: seq<Entry>, log: seq<Firing>, added: map<nat, Entry>)
    requires es != [] && Sorted(es) && DistinctCookies(es) && Ledger(es, log, added)
    ensures Ledger(FireHead(es), log + [Fire(es[0])], added)
  {
    var h, log' := es[0], log + [Fire(es[0])];
    assert h in es && Listed(h, log, added);
    forall e | e in FireHead(es)
      ensures Listed(e, log', added)
    {
      SentNext(log, Fire(h), e.cookie);
      HeadMembers(es, e);
      if e in es[1..] {
        var i :| 1 <= i < |es| && es[i] == e;
        assert es[0].cookie != es[i].cookie && Listed(e, log, added);
      } else {
        MulStep(Sent(log, h.cookie), h.period);
      }
    }
    forall i | 0 <= i < |log'|
      ensures Owed(log'[i], log'[..i], added)
    {
      if i < |log| {
        assert log'[..i] == log[..i] && Owed(log[i], log[..i], added);
      } else {
        assert log'[..i] == log;
      }
    }
  }

  lemma HeadMembers(es: seq<Entry>, e: Entry)
    requires es != [] && Sorted(es) && e in FireHead(es)
    ensures e in es[1..] || (es[0].periodic && e == Advance(es[0]))
  {
    if es[0].periodic {
      var moved := [Advance(es[0])] + es[1..];
      assert moved[1..] == es[1..];
      ShuntSorts(moved);
      assert e in moved;
    }
  }

  lemma {:induction false} LedgerAdvise(es: seq<Entry>, log: seq<Firing>, added: map<nat, Entry>, T: int,
      nextCookie: nat)
    requires WellFormed(es, nextCookie) && NoOverflow(es, T) && Ledger(es, log, added)
    ensures Ledger(AdviseAll(es, T).0, log + AdviseAll(es, T).1, added)
    decreases Work(es, T)
  {
    if es != [] && es[0].time <= T {
      HeadFires(es, T);
      HeadWellFormed(es, T, nextCookie);
      LedgerTurn(es, log, added);
      var next := FireHead(es);
      LedgerAdvise(next, log + [Fire(es[0])], added, T, nextCookie);
      Regroup(log, Fire(es[0]), AdviseAll(next, T).1);
    } else {
      assert log + [] == log;
    }
  }

  lemma Regroup(a: seq<Firing>, f: Firing, b: seq<Firing>)
    ensures (a + [f]) + b == a + ([f] + b)
  {
  }

  lemma {:induction false} NeverSent(log: seq<Firing>, c: nat)
    requires forall i :: 0 <= i < |log| ==> log[i].cookie != c
    ensures Sent(log, c) == 0
  {
    if log != [] {
      NeverSent(log[..|log| - 1], c);
    }
  }

  lemma LedgerAdd(es: seq<Entry>, log: seq<Firing>, added: map<nat, Entry>, e: Entry)
    requires Ledger(es, log, added) && e.cookie !in added
    ensures Ledger(Insert(es, e), log, added[e.cookie := e])
  {
    var added' := added[e.cookie := e];
    InsertMembers(es, Before(es, e.time), e);
    forall i | 0 <= i < |log|
      ensures Owed(log[i], log[..i], added') && log[i].cookie != e.cookie
    {
      assert Owed(log[i], log[..i], added);
    }
    NeverSent(log, e.cookie);
    MulStep(0, e.period);
    forall x | x in Insert(es, e)
      ensures Listed(x, log, added')
    {
      if x in es {
        assert Listed(x, log, added);
      }
    }
  }

  // ---------- all runs ----------

  lemma AlertAfterAdd(s: State, step: Step)
    requires WellFormed(s.es, s.nextCookie) && Alert(s) && step.Add? && Enabled(s, step)
    ensures Alert(Next(s, step))
  {
    var e := Entry(s.nextCookie + 1, step.time, step.period, step.notify, step.periodic);
    InsertWellFormed(s.es, e, s.nextCookie);
  }

  lemma AlertAfterDispatch(s: State, rtNow: int, readAt: int)
    requires WellFormed(s.es, s.nextCookie) && NoOverflow(s.es, rtNow + 10_000) && rtNow + 10_000 < MAX_TIME
             && Tracks(s, rtNow, readAt)
    ensures Alert(Dispatched(s, rtNow, readAt))
  {
    LeavesLater(s.es, rtNow + 10_000);
  }

  /** The list and the ledger, and the cookies given out. */
  ghost predicate Books(s: State) {
    && WellFormed(s.es, s.nextCookie) && Ledger(s.es, s.log, s.added)
    && (forall c :: c in s.added ==> c <= s.nextCookie)
  }

  lemma BooksAfterAdd(s: State, step: Step)
    requires Books(s) && step.Add? && Enabled(s, step)
    ensures Books(Next(s, step))
  {
    var e := Entry(s.nextCookie + 1, step.time, step.period, step.notify, step.periodic);
    InsertWellFormed(s.es, e, s.nextCookie);
    LedgerAdd(s.es, s.log, s.added, e);
  }

  lemma BooksAfterUnadvise(s: State, cookie: nat)
    requires Books(s)
    ensures Books(Next(s, Unadvise(cookie)))
  {
    RemoveExact(s.es, cookie, s.nextCookie);
  }

  lemma BooksAfterDispatch(s: State, rtNow: int, readAt: int)
    requires Books(s) && NoOverflow(s.es, rtNow + 10_000) && rtNow + 10_000 < MAX_TIME
    ensures Books(Dispatched(s, rtNow, readAt))
  {
    AdviseWellFormed(s.es, rtNow + 10_000, s.nextCookie);
    LedgerAdvise(s.es, s.log, s.added, rtNow + 10_000, s.nextCookie);
  }

  lemma StepKeepsBooks(s: State, step: Step)
    requires Books(s) && Enabled(s, step)
    ensures Books(Next(s, step))
  {
    match step
    case Add(_, _, _, _) => BooksAfterAdd(s, step);
    case Unadvise(cookie) => BooksAfterUnadvise(s, cookie);
    case Dispatch => BooksAfterDispatch(s, s.phase.rtNow, s.phase.readAt);
    case _ =>
  }

  /** What every step keeps. */
  ghost predicate Inv(s: State) {
    && Books(s)
    && Alert(s)
    && |s.at| == |s.log| && (forall i :: 0 <= i < |s.log| ==> s.log[i].time <= s.at[i] + 10_000)
  }

  lemma StepKeepsAlert(s: State, step: Step)
    requires Inv(s) && Enabled(s, step)
    ensures Alert(Next(s, step))
  {
    if step.Add? {
      AlertAfterAdd(s, step);
    } else if step.Dispatch? {
      AlertAfterDispatch(s, s.phase.rtNow, s.phase.readAt);
    } else if step.Unadvise? {
      RemoveNotEarlier(s.es, step.cookie);
      FindFinds(s.es, step.cookie);
    }
  }

  lemma StepKeepsTimes(s: State, step: Step)
    requires Inv(s) && Enabled(s, step)
    ensures var s' := Next(s, step);
            |s'.at| == |s'.log| && forall i :: 0 <= i < |s'.log| ==> s'.log[i].time <= s'.at[i] + 10_000
  {
    if step.Dispatch? {
      var T := s.phase.rtNow + 10_000;
      AdviseExact(s.es, T);
      var sent := AdviseAll(s.es, T).1;
      assert forall i :: 0 <= i < |sent| ==> sent[i] in sent;
    }
  }

  lemma StepKeepsInv(s: State, step: Step)
    requires Inv(s) && Enabled(s, step)
    ensures Inv(Next(s, step))
  {
    StepKeepsAlert(s, step);
    StepKeepsBooks(s, step);
    StepKeepsTimes(s, step);
  }

  /** s is reached from s0 by these steps, each of them possible. */
  ghost predicate Run(s0: State, steps: seq<Step>, s: State)
    decreases |steps|
  {
    if steps == [] then s == s0
    else WellFormed(s0.es, s0.nextCookie) && Enabled(s0, steps[0]) && Run(Next(s0, steps[0]), steps[1..], s)
  }

  lemma {:induction false} RunKeepsInv(s0: State, steps: seq<Step>, s: State)
    requires Inv(s0) && Run(s0, steps, s)
    ensures Inv(s)
    decreases |steps|
  {
    if steps != [] {
      StepKeepsInv(s0, steps[0]);
      RunKeepsInv(Next(s0, steps[0]), steps[1..], s);
    }
  }

  /** No lost wake-up. In every run, a waiting thread has been signalled, or nothing is listed, or its
      wait is at least a millisecond and ends no later than the earliest advise, counted from its reading of the
      clock. */
  lemma NoLostWakeup(clock: int, steps: seq<Step>, s: State)
    requires Run(Initial(clock), steps, s) && s.phase.Waiting?
    ensures s.phase.dwWait >= 1
    ensures s.ev || s.es == [] || s.phase.rtNow + 10_000 * s.phase.dwWait <= NextTime(s.es)
  {
    RunKeepsInv(Initial(clock), steps, s);
  }

  /** Hence, unless it waits for ever, the thread can run again as soon as the clock shows the earliest advise
      time, but for the delay between reading the clock and going to sleep, and for drift. */
  lemma WakesInTime(clock: int, steps: seq<Step>, s: State)
    requires Run(Initial(clock), steps, s) && s.phase.Waiting? && s.phase.dwWait < INFINITE && s.es != []
    requires s.clock >= NextTime(s.es) + (s.phase.start - s.phase.readAt) + s.drift
    ensures CanWake(s)
  {
    RunKeepsInv(Initial(clock), steps, s);
  }

  /** A thread that waits for ever with advises listed is stuck exactly until somebody signals it,
      and then every listed advise was at least UINT_MAX ms away when it went to sleep. */
  lemma SleepsForEver(clock: int, steps: seq<Step>, s: State)
    requires Run(Initial(clock), steps, s) && s.phase.Waiting? && s.phase.dwWait == INFINITE
    ensures CanWake(s) <==> s.ev
    ensures s.ev || s.es == [] || NextTime(s.es) >= s.phase.rtNow + 10_000 * 0xFFFF_FFFF
  {
    RunKeepsInv(Initial(clock), steps, s);
  }

  lemma RunOne(s0: State, step: Step, s1: State, steps: seq<Step>, s: State)
    requires WellFormed(s0.es, s0.nextCookie) && Enabled(s0, step) && s1 == Next(s0, step) && Run(s1, steps, s)
    ensures Run(s0, [step] + steps, s)
  {
    var all := [step] + steps;
    assert all[1..] == steps;
  }

  const FAR: int := 10_000 * 0xFFFF_FFFF

  /** The thread has been woken for its first advise, which is UINT_MAX ms ahead. */
  function FarWoken(): State {
    var e := Entry(1, FAR, 0, 0, false);
    Initial(0).(es := [e], nextCookie := 1, phase := Woken, added := map[1 := e])
  }

  function FarAsleep(): State {
    FarWoken().(phase := Waiting(INFINITE, 0, 0, 0), clock := FAR + 1, elapsed := FAR + 1)
  }

  lemma FarBefore(rest: seq<Step>, s: State)
    requires Run(FarWoken(), rest, s)
    ensures Run(Initial(0), [Wait] + ([Add(FAR, 0, 0, false)] + ([Signalled] + rest)), s)
  {
    var s1 := Initial(0).(phase := Waiting(INFINITE, 0, 0, 0));
    var s2 := FarWoken().(phase := s1.phase, ev := true);
    RunOne(s2, Signalled, FarWoken(), rest, s);
    RunOne(s1, Add(FAR, 0, 0, false), s2, [Signalled] + rest, s);
    RunOne(Initial(0), Wait, s1, [Add(FAR, 0, 0, false)] + ([Signalled] + rest), s);
  }

  lemma FarAfter()
    ensures Run(FarWoken(), [Read] + ([Dispatch] + ([Wait] + [Pass(FAR + 1)])), FarAsleep())
  {
    var s4 := FarWoken().(phase := HasRead(0, 0));
    var s5 := FarWoken().(phase := Ready(INFINITE, 0, 0));
    var s6 := FarWoken().(phase := Waiting(INFINITE, 0, 0, 0));
    assert Next(s4, Dispatch) == s5;
    RunOne(s6, Pass(FAR + 1), FarAsleep(), [], FarAsleep());
    RunOne(s5, Wait, s6, [Pass(FAR + 1)], FarAsleep());
    RunOne(s4, Dispatch, s5, [Wait] + [Pass(FAR + 1)], FarAsleep());
    RunOne(FarWoken(), Read, s4, [Dispatch] + ([Wait] + [Pass(FAR + 1)]), FarAsleep());
  }

  /** A wake-up that is lost: an advise UINT_MAX ms ahead, and the thread that dispatched for it sleeps past it. */
  lemma FarAdviseIsMissed()
    ensures exists steps, s ::
              Run(Initial(0), steps, s) && s.es != [] && s.clock > NextTime(s.es) && s.phase.Waiting? && !CanWake(s)
  {
    FarAfter();
    FarBefore([Read] + ([Dispatch] + ([Wait] + [Pass(FAR + 1)])), FarAsleep());
  }

  /** In every run, no signal is more than a millisecond early by the clock the thread read, and the signals to a client
      are exactly the ones it asked for: number n is for time start + n * period, none is skipped or
      repeated, and a one-shot advise gets at most one. */
  lemma SignalsAsRequested(clock: int, steps: seq<Step>, s: State)
    requires Run(Initial(clock), steps, s)
    ensures forall i :: 0 <= i < |s.log| ==>
            i < |s.at| && s.log[i].time <= s.at[i] + 10_000 && Owed(s.log[i], s.log[..i], s.added)
    ensures forall i, j :: 0 <= i < j < |s.log| && s.log[i].cookie == s.log[j].cookie ==> s.log[j].periodic
  {
    RunKeepsInv(Initial(clock), steps, s);
    forall i, j | 0 <= i < j < |s.log| && s.log[i].cookie == s.log[j].cookie
      ensures s.log[j].periodic
    {
      assert Owed(s.log[j], s.log[..j], s.added);
      SentBefore(s.log[..j], i);
    }
  }

  lemma {:induction false} SentBefore(log: seq<Firing>, i: nat)
    requires i < |log|
    ensures Sent(log, log[i].cookie) > 0
  {
    if i < |log| - 1 {
      SentBefore(log[..|log| - 1], i);
    }
  }
}
