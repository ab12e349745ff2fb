/**
 CBaseReferenceClock (refclock.cpp): the clock's own time, the argument checks of the advise
 calls, and one turn of the advise thread.  Times count units of 100 ns, 10_000 to the millisecond.
 */
module RefClock {
  import opened Words
  import opened HResults
  import opened AdviseList
  import opened Schedule

  const INFINITE: U32 := 0xFFFF_FFFF        // also UINT_MAX

  // ---------- the clock ----------

  /** What GetPrivateTime adds for a system timer that went from prev to now: a DWORD difference read as a LONG. */
  function Elapsed(prev: U32, now: U32): int {
    10_000 * ToI32(ToU32(now - prev))
  }

  /** The timer wraps every 2^32 ms; a gap of d ms is measured exactly if and only if d is below 2^31. */
  lemma ElapsedExactIff(t: nat, d: nat)
    ensures Elapsed(ToU32(t), ToU32(t + d)) == 10_000 * d <==> d < 0x8000_0000
  {
    assert ToU32(ToU32(t + d) - ToU32(t)) == ToU32(d) by { ModDifference(t, d); }
  }

  lemma ModDifference(t: nat, d: nat)
    ensures ((t + d) % 0x1_0000_0000 - t % 0x1_0000_0000) % 0x1_0000_0000 == d % 0x1_0000_0000
  {
  }

  /** Private time after the timer was read at each of `times` (true times, in ms). */
  function PrivateTime(start: nat, times: seq<nat>): int {
    if times == [] then 10_000 * ToU32(start)
    else
      var rest := times[..|times| - 1];
      PrivateTime(start, rest) + Elapsed(ToU32(LastRead(start, rest)), ToU32(times[|times| - 1]))
  }

  function LastRead(start: nat, times: seq<nat>): nat {
    if times == [] then start else times[|times| - 1]
  }

  /** Over any number of timer wraps the clock keeps pace with true time, if it is read often enough. */
  lemma {:induction false} PrivateTimeKeepsPace(start: nat, times: seq<nat>)
    requires forall i :: 0 <= i < |times| ==> 0 <= times[i] - LastRead(start, times[..i]) < 0x8000_0000
    ensures PrivateTime(start, times) == 10_000 * (ToU32(start) + LastRead(start, times) - start)
  {
    if times != [] {
      var n := |times| - 1;
      var rest := times[..n];
      assert forall i :: 0 <= i < n ==> rest[..i] == times[..i];
      PrivateTimeKeepsPace(start, rest);
      ElapsedExactIff(LastRead(start, rest), times[n] - LastRead(start, rest));
    }
  }

  /** The times GetTime hands out, for the private times it reads. */
  function Handed(last: int, privates: seq<int>): (r: seq<int>)
    ensures |r| == |privates|
    decreases |privates|
  {
    if privates == [] then []
    else
      var t := if privates[0] > last then privates[0] else last;
      [t] + Handed(t, privates[1..])
  }

  /** The i-th time handed out is the greatest of `last` and the private times so far. */
  ghost predicate LatestSoFar(t: int, last: int, privates: seq<int>, i: nat)
    requires i < |privates|
  {
    && t >= last && (forall k :: 0 <= k <= i ==> t >= privates[k])
    && (t == last || exists k :: 0 <= k <= i && t == privates[k])
  }

  /** Whatever the private clock does, client time never goes back: it is the latest private time seen so far. */
  lemma {:induction false} HandedMonotone(last: int, privates: seq<int>)
    ensures forall i :: 0 <= i < |privates| ==> LatestSoFar(Handed(last, privates)[i], last, privates, i)
    ensures forall i, j :: 0 <= i <= j < |privates| ==> Handed(last, privates)[i] <= Handed(last, privates)[j]
    decreases |privates|
  {
    if privates != [] {
      var r, ps := Handed(last, privates), privates[1..];
      var q := Handed(r[0], ps);
      HandedMonotone(r[0], ps);
      assert r == [r[0]] + q;
      assert forall i :: 0 <= i < |q| ==> LatestSoFar(q[i], r[0], ps, i);
      forall i | 0 <= i < |r|
        ensures LatestSoFar(r[i], last, privates, i) && r[0] <= r[i]
      {
        if i > 0 {
          assert LatestSoFar(q[i - 1], r[0], ps, i - 1);
          assert forall k :: 1 <= k <= i ==> privates[k] == ps[k - 1];
          if r[i] != r[0] {
            var k :| 0 <= k <= i - 1 && r[i] == ps[k];
            assert r[i] == privates[k + 1];
          }
        } else {
          assert r[0] == last || r[0] == privates[0];
        }
      }
    }
  }

  // ---------- one turn of the advise thread ----------

  /** The wait in ms for a positive distance in time: never more than INFINITE. */
  function InMilliseconds(wait: nat): (w: U32)
    ensures 10_000 * w <= wait
    ensures w < INFINITE ==> wait < 10_000 * (w + 1)
  {
    var llWait := wait / 10_000;
    if llWait > 0xFFFF_FFFF then 0xFFFF_FFFF else llWait
  }

  /** The thread waits for ever exactly when the next event is UINT_MAX ms or more away. */
  lemma WaitsForEverIff(wait: nat)
    ensures InMilliseconds(wait) == INFINITE <==> wait >= 10_000 * 0xFFFF_FFFF
  {
  }

  class CBaseReferenceClock {
    const m_pSchedule: CAMSchedule
    var m_rtPrivateTime: int
    var m_rtLastGotTime: int
    var m_rtNextAdvise: int
    var m_dwPrevSystemTime: U32

    /** `dwSystemTime` is what timeGetTime returns. */
    constructor (dwSystemTime: U32)
      ensures m_pSchedule.Valid() && m_pSchedule.entries == [] && !m_pSchedule.m_ev && fresh(m_pSchedule)
              && fresh(m_pSchedule.repr)
      ensures m_rtLastGotTime == 0 && m_dwPrevSystemTime == dwSystemTime
      ensures m_rtPrivateTime == PrivateTime(dwSystemTime, [])
    {
      m_pSchedule := new CAMSchedule();
      m_rtLastGotTime, m_rtNextAdvise := 0, 0;
      m_dwPrevSystemTime := dwSystemTime;
      m_rtPrivateTime := 10_000 * dwSystemTime;
    }

    method GetPrivateTime(dwTime: U32) returns (r: int)
      modifies this`m_rtPrivateTime, this`m_dwPrevSystemTime
      ensures r == m_rtPrivateTime == old(m_rtPrivateTime) + Elapsed(old(m_dwPrevSystemTime), dwTime)
      ensures m_dwPrevSystemTime == dwTime
    {
      m_rtPrivateTime := m_rtPrivateTime + 10_000 * ToI32(ToU32(dwTime - m_dwPrevSystemTime));
      m_dwPrevSystemTime := dwTime;
      r := m_rtPrivateTime;
    }

    method GetTime(dwTime: U32) returns (pTime: int, hr: HRESULT)
      modifies this`m_rtPrivateTime, this`m_dwPrevSystemTime, this`m_rtLastGotTime
      ensures [pTime] == Handed(old(m_rtLastGotTime), [m_rtPrivateTime]) && m_rtLastGotTime == pTime
      ensures m_rtPrivateTime == old(m_rtPrivateTime) + Elapsed(old(m_dwPrevSystemTime), dwTime)
              && m_dwPrevSystemTime == dwTime
      ensures hr == if pTime > old(m_rtLastGotTime) then S_OK else S_FALSE
    {
      var rtNow := GetPrivateTime(dwTime);
      if rtNow > m_rtLastGotTime {
        m_rtLastGotTime := rtNow;
        hr := S_OK;
      } else {
        hr := S_FALSE;
      }
      pTime := m_rtLastGotTime;
    }

    /** A step forward of more than half a millisecond wakes the thread, if it has anything to wait for. */
    method SetTimeDelta(timeDelta: int)
      requires m_pSchedule.Valid()
      modifies this`m_rtPrivateTime, m_pSchedule`m_ev
      ensures m_pSchedule.Valid() && m_rtPrivateTime == old(m_rtPrivateTime) + timeDelta
      ensures m_pSchedule.m_ev == (old(m_pSchedule.m_ev) || (timeDelta > 5000 && m_pSchedule.entries != []))
    {
      m_rtPrivateTime := m_rtPrivateTime + timeDelta;
      if timeDelta > 5000 && m_pSchedule.m_dwAdviseCount > 0 {
        m_pSchedule.m_ev := true;
      }
    }

    /** A one-shot request is scheduled exactly when its time is positive and not the sentry's. */
    method AdviseTime(baseTime: I64, streamTime: I64, hEvent: int) returns (hr: HRESULT, cookie: nat)
      requires m_pSchedule.Valid()
      modifies m_pSchedule, m_pSchedule.repr
      ensures m_pSchedule.Valid() && fresh(m_pSchedule.repr - old(m_pSchedule.repr))
      ensures m_pSchedule.signals == old(m_pSchedule.signals)
      ensures var t := ToI64(baseTime + streamTime); var es := old(m_pSchedule.entries);
              && hr == (if 0 < t < MAX_TIME then S_OK else E_INVALIDARG)
              && m_pSchedule.entries == (if hr.S_OK? then Insert(es, Entry(cookie, t, 0, hEvent, false)) else es)
              && cookie == (if hr.S_OK? then old(m_pSchedule.m_dwNextCookie) + 1 else 0)
              && m_pSchedule.m_ev == (old(m_pSchedule.m_ev) || (hr.S_OK? && Before(es, t) == 0))
    {
      cookie := 0;
      var lRefTime := ToI64(baseTime + streamTime);
      if lRefTime <= 0 || lRefTime == MAX_TIME {
        hr := E_INVALIDARG;
      } else {
        cookie := m_pSchedule.AddAdvisePacket(lRefTime, 0, hEvent, false);
        hr := if cookie != 0 then S_OK else E_OUTOFMEMORY;
      }
    }

    /** A periodic request is scheduled exactly when start and period are positive and the start is not the sentry's. */
    method AdvisePeriodic(startTime: I64, periodTime: I64, hSemaphore: int) returns (hr: HRESULT, cookie: nat)
      requires m_pSchedule.Valid()
      modifies m_pSchedule, m_pSchedule.repr
      ensures m_pSchedule.Valid() && fresh(m_pSchedule.repr - old(m_pSchedule.repr))
      ensures m_pSchedule.signals == old(m_pSchedule.signals)
      ensures var es := old(m_pSchedule.entries);
              && hr == (if 0 < startTime < MAX_TIME && 0 < periodTime then S_OK else E_INVALIDARG)
              && m_pSchedule.entries
                 == (if hr.S_OK? then Insert(es, Entry(cookie, startTime, periodTime, hSemaphore, true)) else es)
              && cookie == (if hr.S_OK? then old(m_pSchedule.m_dwNextCookie) + 1 else 0)
              && m_pSchedule.m_ev == (old(m_pSchedule.m_ev) || (hr.S_OK? && Before(es, startTime) == 0))
    {
      cookie := 0;
      if startTime > 0 && periodTime > 0 && startTime != MAX_TIME {
        cookie := m_pSchedule.AddAdvisePacket(startTime, periodTime, hSemaphore, true);
        hr := if cookie != 0 then S_OK else E_OUTOFMEMORY;
      } else {
        hr := E_INVALIDARG;
      }
    }

    /** Between two waits: read the clock, dispatch what is due within a millisecond, work out the next wait. */
    method AdviseThreadTurn(dwTime: U32) returns (rtNow: int, dwWait: U32)
      requires m_pSchedule.Valid()
      requires NoOverflow(m_pSchedule.entries, m_rtPrivateTime + Elapsed(m_dwPrevSystemTime, dwTime) + 10_000)
      requires m_rtPrivateTime + Elapsed(m_dwPrevSystemTime, dwTime) + 10_000 < MAX_TIME
      modifies this`m_rtPrivateTime, this`m_dwPrevSystemTime, this`m_rtNextAdvise, m_pSchedule, m_pSchedule.repr
      ensures m_pSchedule.Valid() && m_pSchedule.repr == old(m_pSchedule.repr)
      ensures rtNow == m_rtPrivateTime == old(m_rtPrivateTime) + Elapsed(old(m_dwPrevSystemTime), dwTime)
      ensures m_pSchedule.entries == AdviseAll(old(m_pSchedule.entries), rtNow + 10_000).0
      ensures m_pSchedule.signals == old(m_pSchedule.signals) + AdviseAll(old(m_pSchedule.entries), rtNow + 10_000).1
      ensures rtNow < NextTime(m_pSchedule.entries) == m_rtNextAdvise
      ensures dwWait == InMilliseconds(m_rtNextAdvise - rtNow)
      ensures dwWait >= 1
    {
      hide AdviseAll, NoOverflow, InMilliseconds;
      rtNow := GetPrivateTime(dwTime);
      var rtNextAdvise := m_pSchedule.Advise(rtNow + 10_000);
      dwWait := Milliseconds(rtNextAdvise - rtNow);
      m_rtNextAdvise := rtNextAdvise;
    }

    static method Milliseconds(wait: int) returns (dwWait: U32)
      requires wait > 10_000
      ensures dwWait == InMilliseconds(wait) && dwWait >= 1
    {
      var llWait := wait / 10_000;
      // the comparison is made in 64 bits, before the narrowing
      dwWait := if llWait > 0xFFFF_FFFF then 0xFFFF_FFFF else llWait;
    }
  }
}
