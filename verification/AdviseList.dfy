/**
 What the advise scheduler (schedule.cpp) computes, on the list of its entries.
 The heap structure that carries the list is in Schedule.dfy.
 */
module AdviseList {
  import opened Words

  const MAX_TIME: int := 0x7FFF_FFFF_FFFF_FFFF

  /** One advise packet. */
  datatype Entry = Entry(cookie: nat, time: int, period: int, notify: int, periodic: bool)

  /** One signal sent to a client: for `cookie`, due at `time`. */
  datatype Firing = Firing(cookie: nat, time: int, notify: int, periodic: bool)

  ghost predicate Sorted(es: seq<Entry>) {
    forall i, j :: 0 <= i < j < |es| ==> es[i].time <= es[j].time
  }

  ghost predicate DistinctCookies(es: seq<Entry>) {
    forall i, j :: 0 <= i < j < |es| ==> es[i].cookie != es[j].cookie
  }

  /** Times stay below the sentry's, and periods are positive. */
  ghost predicate GoodTimes(es: seq<Entry>) {
    forall e :: e in es ==> e.time < MAX_TIME && (e.periodic ==> e.period > 0)
  }

  ghost predicate WellFormed(es: seq<Entry>, nextCookie: nat) {
    && Sorted(es)
    && DistinctCookies(es)
    && GoodTimes(es)
    && (forall e :: e in es ==> 0 < e.cookie <= nextCookie)
  }

  function NextTime(es: seq<Entry>): int {
    if es == [] then MAX_TIME else es[0].time
  }

  // ---------- insertion ----------

  /** How many entries are before time t: where AddAdvisePacket stops. */
  function Before(es: seq<Entry>, t: int): (k: nat)
    ensures k <= |es|
  {
    if es == [] || es[0].time >= t then 0 else 1 + Before(es[1..], t)
  }

  /** How many entries are at or before time t: where ShuntHead stops. */
  function UpTo(es: seq<Entry>, t: int): (k: nat)
    ensures k <= |es|
  {
    if es == [] || es[0].time > t then 0 else 1 + UpTo(es[1..], t)
  }

  function InsertAt(es: seq<Entry>, k: nat, e: Entry): seq<Entry>
    requires k <= |es|
  {
    es[..k] + [e] + es[k..]
  }

  function Insert(es: seq<Entry>, e: Entry): seq<Entry> {
    InsertAt(es, Before(es, e.time), e)
  }

  /** The head moved to its place behind all entries at or before its time. */
  function Shunt(es: seq<Entry>): seq<Entry>
    requires es != []
  {
    InsertAt(es[1..], UpTo(es[1..], es[0].time), es[0])
  }

  lemma {:induction false} BeforeSplits(es: seq<Entry>, t: int)
    requires Sorted(es)
    ensures forall i :: 0 <= i < Before(es, t) ==> es[i].time < t
    ensures forall i :: Before(es, t) <= i < |es| ==> es[i].time >= t
  {
    if es != [] && es[0].time < t {
      BeforeSplits(es[1..], t);
    }
  }

  lemma {:induction false} UpToSplits(es: seq<Entry>, t: int)
    requires Sorted(es)
    ensures forall i :: 0 <= i < UpTo(es, t) ==> es[i].time <= t
    ensures forall i :: UpTo(es, t) <= i < |es| ==> es[i].time > t
  {
    if es != [] && es[0].time <= t {
      UpToSplits(es[1..], t);
    }
  }

  lemma InsertIndex(es: seq<Entry>, k: nat, e: Entry)
    requires k <= |es|
    ensures var r := InsertAt(es, k, e);
            && |r| == |es| + 1
            && forall i :: 0 <= i < |r| ==> r[i] == if i < k then es[i] else if i == k then e else es[i - 1]
  {
  }

  lemma InsertMembers(es: seq<Entry>, k: nat, e: Entry)
    requires k <= |es|
    ensures multiset(InsertAt(es, k, e)) == multiset(es) + multiset{e}
    ensures forall x :: x in InsertAt(es, k, e) <==> x in es || x == e
  {
    assert es == es[..k] + es[k..];
    assert forall x :: x in InsertAt(es, k, e) <==> x in multiset(InsertAt(es, k, e));
    assert forall x :: x in es <==> x in multiset(es);
  }

  lemma InsertSorted(es: seq<Entry>, k: nat, e: Entry)
    requires Sorted(es) && k <= |es|
    requires forall i :: 0 <= i < k ==> es[i].time <= e.time
    requires forall i :: k <= i < |es| ==> es[i].time >= e.time
    ensures Sorted(InsertAt(es, k, e))
  {
    InsertIndex(es, k, e);
  }

  lemma InsertDistinct(es: seq<Entry>, k: nat, e: Entry)
    requires DistinctCookies(es) && k <= |es|
    requires forall i :: 0 <= i < |es| ==> es[i].cookie != e.cookie
    ensures DistinctCookies(InsertAt(es, k, e))
  {
    InsertIndex(es, k, e);
  }

  /** A packet with a fresh cookie is added and nothing else changes; the event is needed only if it leads. */
  lemma InsertWellFormed(es: seq<Entry>, e: Entry, nextCookie: nat)
    requires WellFormed(es, nextCookie) && e.cookie == nextCookie + 1
    requires e.time < MAX_TIME && (e.periodic ==> e.period > 0)
    ensures WellFormed(Insert(es, e), e.cookie)
    ensures multiset(Insert(es, e)) == multiset(es) + multiset{e}
    ensures NextTime(Insert(es, e)) != NextTime(es) ==> Before(es, e.time) == 0
  {
    var k := Before(es, e.time);
    BeforeSplits(es, e.time);
    InsertMembers(es, k, e);
    InsertSorted(es, k, e);
    InsertDistinct(es, k, e);
  }

  /** ShuntHead restores the order as a permutation when only the head is out of place. */
  lemma ShuntSorts(es: seq<Entry>)
    requires es != [] && Sorted(es[1..])
    ensures Sorted(Shunt(es)) && multiset(Shunt(es)) == multiset(es)
    ensures forall x :: x in Shunt(es) <==> x in es
    ensures DistinctCookies(es) ==> DistinctCookies(Shunt(es))
  {
    var k := UpTo(es[1..], es[0].time);
    UpToSplits(es[1..], es[0].time);
    InsertMembers(es[1..], k, es[0]);
    InsertSorted(es[1..], k, es[0]);
    if DistinctCookies(es) {
      InsertDistinct(es[1..], k, es[0]);
    }
    assert es == [es[0]] + es[1..];
  }

  // ---------- removal ----------

  /** The position of a cookie, or the length of the list. */
  function Find(es: seq<Entry>, cookie: nat): (k: nat)
    ensures k <= |es|
  {
    if es == [] || es[0].cookie == cookie then 0 else 1 + Find(es[1..], cookie)
  }

  function Remove(es: seq<Entry>, cookie: nat): seq<Entry> {
    var k := Find(es, cookie);
    if k == |es| then es else es[..k] + es[k + 1..]
  }

  lemma {:induction false} FindFinds(es: seq<Entry>, cookie: nat)
    ensures forall i :: 0 <= i < Find(es, cookie) ==> es[i].cookie != cookie
    ensures Find(es, cookie) < |es| ==> es[Find(es, cookie)].cookie == cookie
  {
    if es != [] && es[0].cookie != cookie {
      FindFinds(es[1..], cookie);
    }
  }

  lemma RemoveMembers(es: seq<Entry>, k: nat)
    requires k < |es| && DistinctCookies(es)
    ensures forall e :: e in es[..k] + es[k + 1..] <==> e in es && e.cookie != es[k].cookie
  {
    var r := es[..k] + es[k + 1..];
    forall e | e in es && e.cookie != es[k].cookie
      ensures e in r
    {
      var i :| 0 <= i < |es| && es[i] == e;
      assert e == r[if i < k then i else i - 1];
    }
    forall e | e in r
      ensures e in es && e.cookie != es[k].cookie
    {
      var i :| 0 <= i < |r| && r[i] == e;
      assert e == es[if i < k then i else i + 1];
    }
  }

  lemma RemoveSorted(es: seq<Entry>, k: nat)
    requires k < |es| && DistinctCookies(es) && Sorted(es)
    ensures DistinctCookies(es[..k] + es[k + 1..]) && Sorted(es[..k] + es[k + 1..])
  {
    var r := es[..k] + es[k + 1..];
    assert forall i :: 0 <= i < |r| ==> r[i] == es[if i < k then i else i + 1];
  }

  /** Unadvise removes exactly the named entry. */
  lemma RemoveExact(es: seq<Entry>, cookie: nat, nextCookie: nat)
    requires WellFormed(es, nextCookie)
    ensures WellFormed(Remove(es, cookie), nextCookie)
    ensures forall e :: e in Remove(es, cookie) <==> e in es && e.cookie != cookie
  {
    FindFinds(es, cookie);
    var k := Find(es, cookie);
    if k < |es| {
      RemoveMembers(es, k);
      RemoveSorted(es, k);
    }
  }

  /** Nothing comes due earlier for it. */
  lemma RemoveNotEarlier(es: seq<Entry>, cookie: nat)
    requires Sorted(es) && GoodTimes(es)
    ensures NextTime(Remove(es, cookie)) >= NextTime(es)
  {
    var r := Remove(es, cookie);
    assert r != [] ==> r[0] in es;
  }

  // ---------- Advise ----------

  /** How often an entry fires when the time is T. */
  function FiringsDue(e: Entry, T: int): nat
    requires e.periodic ==> e.period > 0
  {
    if e.time > T then 0 else if e.periodic then (T - e.time) / e.period + 1 else 1
  }

  /** Firings still to come: what the loop of Advise counts down. */
  function Work(es: seq<Entry>, T: int): nat
    requires GoodTimes(es)
  {
    if es == [] then 0 else FiringsDue(es[0], T) + Work(es[1..], T)
  }

  /** No periodic entry that is due is pushed to the sentry's time. */
  ghost predicate NoOverflow(es: seq<Entry>, T: int) {
    forall e :: e in es ==> StaysBelow(e, T)
  }

  predicate StaysBelow(e: Entry, T: int) {
    e.periodic && e.period > 0 && e.time <= T ==> e.time + FiringsDue(e, T) * e.period < MAX_TIME
  }

  function Advance(e: Entry): Entry { e.(time := e.time + e.period) }

  function Fire(e: Entry): Firing { Firing(e.cookie, e.time, e.notify, e.periodic) }

  /** One turn of the loop: the head fires, and is removed or repositioned. */
  function FireHead(es: seq<Entry>): seq<Entry>
    requires es != []
  {
    if es[0].periodic then Shunt([Advance(es[0])] + es[1..]) else es[1..]
  }

  lemma {:induction false} WorkOfConcat(a: seq<Entry>, b: seq<Entry>, T: int)
    requires GoodTimes(a) && GoodTimes(b) && GoodTimes(a + b)
    ensures Work(a + b, T) == Work(a, T) + Work(b, T)
  {
    if a == [] {
      assert a + b == b;
    } else {
      assert (a + b)[1..] == a[1..] + b;
      WorkOfConcat(a[1..], b, T);
    }
  }

  lemma WorkOfInsert(es: seq<Entry>, k: nat, e: Entry, T: int)
    requires k <= |es| && GoodTimes(es) && GoodTimes([e])
    ensures GoodTimes(InsertAt(es, k, e)) && Work(InsertAt(es, k, e), T) == FiringsDue(e, T) + Work(es, T)
  {
    InsertMembers(es, k, e);
    assert es == es[..k] + es[k..];
    WorkOfConcat(es[..k], es[k..], T);
    WorkOfConcat([e], es[k..], T);
    WorkOfConcat(es[..k], [e] + es[k..], T);
    assert InsertAt(es, k, e) == es[..k] + ([e] + es[k..]);
  }

  /** Firing a periodic entry leaves it one firing fewer. */
  lemma FiringsAfterAdvance(e: Entry, T: int)
    requires e.periodic && e.period > 0 && e.time <= T
    ensures FiringsDue(Advance(e), T) == FiringsDue(e, T) - 1
  {
    var n, p := T - e.time, e.period;
    if n >= p {
      DivStep(n, p);
    } else {
      assert n / p == 0;
    }
  }

  lemma AdvanceStaysBelow(e: Entry, T: int)
    requires e.periodic && e.period > 0 && e.time <= T && StaysBelow(e, T)
    ensures StaysBelow(Advance(e), T) && Advance(e).time < MAX_TIME
  {
    FiringsAfterAdvance(e, T);
    var n := FiringsDue(Advance(e), T);
    MulStep(n, e.period);
    MulMonotone(0, n, e.period);
  }

  lemma PeriodicHeadFires(es: seq<Entry>, T: int)
    requires es != [] && Sorted(es) && GoodTimes(es) && NoOverflow(es, T) && es[0].time <= T && es[0].periodic
    ensures var r := FireHead(es);
            && Sorted(r) && GoodTimes(r) && NoOverflow(r, T)
            && Work(r, T) == Work(es, T) - 1
            && multiset(r) == multiset(es[1..]) + multiset{Advance(es[0])}
  {
    var e, tail := es[0], es[1..];
    var moved := [Advance(e)] + tail;
    assert moved[1..] == tail && e in es;
    hide StaysBelow, FiringsDue, NoOverflow;
    MovedStaysBelow(es, T);
    var k := UpTo(tail, moved[0].time);
    UpToSplits(tail, moved[0].time);
    InsertMembers(tail, k, moved[0]);
    InsertSorted(tail, k, moved[0]);
    WorkOfInsert(tail, k, moved[0], T);
    FiringsAfterAdvance(e, T);
  }

  lemma MovedStaysBelow(es: seq<Entry>, T: int)
    requires es != [] && GoodTimes(es) && NoOverflow(es, T) && es[0].time <= T && es[0].periodic
    ensures GoodTimes([Advance(es[0])]) && NoOverflow(Shunt([Advance(es[0])] + es[1..]), T)
  {
    var e, tail := es[0], es[1..];
    var moved := [Advance(e)] + tail;
    assert moved[1..] == tail && e in es;
    hide StaysBelow;
    AdvanceStaysBelow(e, T);
    InsertMembers(tail, UpTo(tail, moved[0].time), moved[0]);
  }

  lemma HeadFires(es: seq<Entry>, T: int)
    requires es != [] && Sorted(es) && GoodTimes(es) && NoOverflow(es, T) && es[0].time <= T
    ensures var r := FireHead(es);
            Sorted(r) && GoodTimes(r) && NoOverflow(r, T) && Work(r, T) == Work(es, T) - 1
  {
    if es[0].periodic {
      PeriodicHeadFires(es, T);
    }
  }

  /** The entries and the signals after Advise(T): the head fires as long as it is due. */
  function AdviseAll(es: seq<Entry>, T: int): (seq<Entry>, seq<Firing>)
    requires Sorted(es) && GoodTimes(es) && NoOverflow(es, T)
    decreases Work(es, T)
  {
    if es == [] || es[0].time > T then (es, [])
    else
      HeadFires(es, T);
      var (rest, log) := AdviseAll(FireHead(es), T);
      (rest, [Fire(es[0])] + log)
  }

  // ---------- what Advise promises, stated without its loop ----------

  /** The signals one entry is owed at time T, in closed form. */
  function Firings(e: Entry, T: int): (fs: seq<Firing>)
    requires e.periodic ==> e.period > 0
    ensures |fs| == FiringsDue(e, T)
  {
    seq(FiringsDue(e, T), k => Firing(e.cookie, e.time + k * e.period, e.notify, e.periodic))
  }

  /** Signals sent and entries kept, in no order. */
  datatype Outcome = Outcome(fired: multiset<Firing>, kept: multiset<Entry>) {
    function Plus(o: Outcome): Outcome { Outcome(fired + o.fired, kept + o.kept) }
  }

  /** A one-shot that is due fires and goes; a periodic entry moves to its first time after T. */
  function ExpectOne(e: Entry, T: int): Outcome
    requires e.periodic ==> e.period > 0
  {
    Outcome(multiset(Firings(e, T)),
            if e.time > T then multiset{e}
            else if e.periodic then multiset{e.(time := e.time + FiringsDue(e, T) * e.period)}
            else multiset{})
  }

  function Expect(es: seq<Entry>, T: int): Outcome
    requires GoodTimes(es)
  {
    if es == [] then Outcome(multiset{}, multiset{})
    else ExpectOne(es[0], T).Plus(Expect(es[1..], T))
  }

  lemma PlusLaws(a: Outcome, b: Outcome, c: Outcome)
    ensures a.Plus(b).Plus(c) == a.Plus(b.Plus(c))
    ensures a.Plus(b) == b.Plus(a)
    ensures Outcome(multiset{}, multiset{}).Plus(a) == a == a.Plus(Outcome(multiset{}, multiset{}))
  {
  }

  lemma {:induction false} ExpectConcat(a: seq<Entry>, b: seq<Entry>, T: int)
    requires GoodTimes(a) && GoodTimes(b) && GoodTimes(a + b)
    ensures Expect(a + b, T) == Expect(a, T).Plus(Expect(b, T))
  {
    if a == [] {
      assert a + b == b;
      PlusLaws(Expect(b, T), Expect(b, T), Expect(b, T));
    } else {
      assert (a + b)[1..] == a[1..] + b;
      ExpectConcat(a[1..], b, T);
      PlusLaws(ExpectOne(a[0], T), Expect(a[1..], T), Expect(b, T));
    }
  }

  lemma ExpectInsert(es: seq<Entry>, k: nat, e: Entry, T: int)
    requires k <= |es| && GoodTimes(es) && GoodTimes([e]) && GoodTimes(InsertAt(es, k, e))
    ensures Expect(InsertAt(es, k, e), T) == ExpectOne(e, T).Plus(Expect(es, T))
  {
    var a, b := es[..k], es[k..];
    assert es == a + b && InsertAt(es, k, e) == a + ([e] + b);
    assert ([e] + b)[1..] == b;
    ExpectConcat(a, b, T);
    ExpectConcat(a, [e] + b, T);
    var x, y, z := Expect(a, T), ExpectOne(e, T), Expect(b, T);
    assert Expect([e] + b, T) == y.Plus(z);
    PlusLaws(x, y, z);
    PlusLaws(y, x, z);
  }

  lemma FiringsHead(e: Entry, T: int)
    requires e.periodic && e.period > 0 && e.time <= T
    ensures Firings(e, T) == [Fire(e)] + Firings(Advance(e), T)
  {
    FiringsAfterAdvance(e, T);
    var a, b := Firings(e, T), [Fire(e)] + Firings(Advance(e), T);
    forall k | 0 <= k < |a|
      ensures a[k] == b[k]
    {
      MulStep(k - 1, e.period);
      assert k > 0 ==> b[k] == Firings(Advance(e), T)[k - 1];
    }
  }

  lemma ExpectAdvance(e: Entry, T: int)
    requires e.periodic && e.period > 0 && e.time <= T
    ensures var o := ExpectOne(Advance(e), T);
            ExpectOne(e, T) == Outcome(multiset{Fire(e)} + o.fired, o.kept)
  {
    FiringsHead(e, T);
    FiringsAfterAdvance(e, T);
    MulStep(FiringsDue(e, T) - 1, e.period);
  }

  lemma ExpectOnce(e: Entry, T: int)
    requires !e.periodic && e.time <= T
    ensures ExpectOne(e, T) == Outcome(multiset{Fire(e)}, multiset{})
  {
    MulStep(0, e.period);
    assert Firings(e, T)[0] == Fire(e);
    assert Firings(e, T) == [Fire(e)];
  }

  lemma PlusFired(f: multiset<Firing>, o: Outcome, r: Outcome)
    ensures Outcome(f + o.fired, o.kept).Plus(r) == Outcome(f + o.Plus(r).fired, o.Plus(r).kept)
    ensures Outcome(f, multiset{}).Plus(r) == Outcome(f + r.fired, r.kept)
  {
  }

  /** One turn of the loop takes one signal off what is owed. */
  lemma ExpectHead(es: seq<Entry>, T: int)
    requires es != [] && Sorted(es) && GoodTimes(es) && NoOverflow(es, T) && es[0].time <= T
    requires GoodTimes(FireHead(es))
    ensures var o := Expect(FireHead(es), T);
            Expect(es, T) == Outcome(multiset{Fire(es[0])} + o.fired, o.kept)
  {
    var e, tail := es[0], es[1..];
    if e.periodic {
      ExpectMoved(e, tail, T);
      ExpectAdvance(e, T);
      PlusFired(multiset{Fire(e)}, ExpectOne(Advance(e), T), Expect(tail, T));
    } else {
      ExpectOnce(e, T);
      PlusFired(multiset{Fire(e)}, Expect(tail, T), Expect(tail, T));
    }
  }

  lemma ExpectMoved(e: Entry, tail: seq<Entry>, T: int)
    requires e.periodic && e.period > 0 && GoodTimes(tail) && GoodTimes([Advance(e)])
             && GoodTimes(Shunt([Advance(e)] + tail))
    ensures Expect(Shunt([Advance(e)] + tail), T) == ExpectOne(Advance(e), T).Plus(Expect(tail, T))
  {
    assert ([Advance(e)] + tail)[1..] == tail;
    ExpectInsert(tail, UpTo(tail, Advance(e).time), Advance(e), T);
  }

  ghost predicate InOrder(log: seq<Firing>) {
    forall i, j :: 0 <= i < j < |log| ==> log[i].time <= log[j].time
  }

  lemma {:induction false} AdviseOutcome(es: seq<Entry>, T: int)
    requires Sorted(es) && GoodTimes(es) && NoOverflow(es, T)
    ensures var (rest, log) := AdviseAll(es, T);
            Outcome(multiset(log), multiset(rest)) == Expect(es, T)
    decreases Work(es, T)
  {
    if es != [] && es[0].time <= T {
      HeadFires(es, T);
      ExpectHead(es, T);
      AdviseOutcome(FireHead(es), T);
    } else {
      NothingDue(es, T);
    }
  }

  lemma {:induction false} AdviseOrder(es: seq<Entry>, T: int)
    requires Sorted(es) && GoodTimes(es) && NoOverflow(es, T)
    ensures var (rest, log) := AdviseAll(es, T);
            InOrder(log) && forall f :: f in log ==> NextTime(es) <= f.time <= T
    decreases Work(es, T)
  {
    if es != [] && es[0].time <= T {
      HeadFires(es, T);
      NextNotEarlier(es, T);
      AdviseOrder(FireHead(es), T);
      Prepend(Fire(es[0]), AdviseAll(FireHead(es), T).1);
    }
  }

  lemma {:induction false} AdviseRest(es: seq<Entry>, T: int)
    requires Sorted(es) && GoodTimes(es) && NoOverflow(es, T)
    ensures var (rest, log) := AdviseAll(es, T);
            Sorted(rest) && GoodTimes(rest) && forall e :: e in rest ==> T < NextTime(rest) <= e.time
    decreases Work(es, T)
  {
    if es != [] && es[0].time <= T {
      HeadFires(es, T);
      AdviseRest(FireHead(es), T);
    }
  }

  /** Advise sends exactly the signals owed and keeps exactly the entries that remain,
      in time order; what it returns is the earliest time left, and it is later than T. */
  lemma AdviseExact(es: seq<Entry>, T: int)
    requires Sorted(es) && GoodTimes(es) && NoOverflow(es, T)
    ensures var (rest, log) := AdviseAll(es, T);
            && Outcome(multiset(log), multiset(rest)) == Expect(es, T)
            && InOrder(log)
            && (forall f :: f in log ==> f.time <= T)
            && Sorted(rest) && GoodTimes(rest)
            && (forall e :: e in rest ==> T < NextTime(rest) <= e.time)
  {
    AdviseOutcome(es, T);
    AdviseOrder(es, T);
    AdviseRest(es, T);
  }

  lemma LeavesLater(es: seq<Entry>, T: int)
    requires Sorted(es) && GoodTimes(es) && NoOverflow(es, T) && T < MAX_TIME
    ensures NextTime(AdviseAll(es, T).0) > T
    ensures es == [] ==> AdviseAll(es, T).0 == []
  {
    AdviseRest(es, T);
    var rest := AdviseAll(es, T).0;
    assert rest != [] ==> rest[0] in rest;
  }

  lemma Prepend(f: Firing, log: seq<Firing>)
    requires InOrder(log) && forall g :: g in log ==> f.time <= g.time
    ensures InOrder([f] + log) && multiset([f] + log) == multiset{f} + multiset(log)
    ensures forall g :: g in [f] + log <==> g == f || g in log
  {
  }

  lemma NextNotEarlier(es: seq<Entry>, T: int)
    requires es != [] && Sorted(es) && GoodTimes(es) && es[0].time <= T
    ensures NextTime(FireHead(es)) >= es[0].time
  {
    if es[0].periodic {
      assert es[0] in es;
      var moved := [Advance(es[0])] + es[1..];
      assert moved[1..] == es[1..];
      ShuntSorts(moved);
      assert FireHead(es)[0] in moved;
    }
  }

  lemma {:induction false} NothingDue(es: seq<Entry>, T: int)
    requires GoodTimes(es) && forall e :: e in es ==> e.time > T
    ensures Expect(es, T) == Outcome(multiset{}, multiset(es))
  {
    if es != [] {
      NothingDue(es[1..], T);
      assert es == [es[0]] + es[1..];
    }
  }

  /** Cookies stay distinct and known. */
  lemma {:induction false} AdviseWellFormed(es: seq<Entry>, T: int, nextCookie: nat)
    requires WellFormed(es, nextCookie) && NoOverflow(es, T)
    ensures WellFormed(AdviseAll(es, T).0, nextCookie)
    decreases Work(es, T)
  {
    if es != [] && es[0].time <= T {
      HeadFires(es, T);
      HeadWellFormed(es, T, nextCookie);
      AdviseWellFormed(FireHead(es), T, nextCookie);
    }
  }

  lemma HeadWellFormed(es: seq<Entry>, T: int, nextCookie: nat)
    requires es != [] && WellFormed(es, nextCookie) && NoOverflow(es, T) && es[0].time <= T
    ensures WellFormed(FireHead(es), nextCookie)
  {
    HeadFires(es, T);
    if es[0].periodic {
      var moved := [Advance(es[0])] + es[1..];
      assert moved[1..] == es[1..];
      SameCookies(es, moved, nextCookie);
      ShuntSorts(moved);
    }
  }

  lemma SameCookies(es: seq<Entry>, moved: seq<Entry>, nextCookie: nat)
    requires WellFormed(es, nextCookie) && |moved| == |es|
    requires forall i :: 0 <= i < |es| ==> moved[i].cookie == es[i].cookie
    ensures DistinctCookies(moved) && forall e :: e in moved ==> 0 < e.cookie <= nextCookie
  {
    forall e | e in moved
      ensures 0 < e.cookie <= nextCookie
    {
      var i :| 0 <= i < |moved| && moved[i] == e;
      assert es[i] in es;
    }
  }

  /** The loop of Advise has sent `sent`; the turns still to come complete it to `all`. */
  ghost predicate Progress(all: (seq<Entry>, seq<Firing>), es: seq<Entry>, T: int, nextCookie: nat, sent: seq<Firing>) {
    && WellFormed(es, nextCookie) && NoOverflow(es, T)
    && all == (AdviseAll(es, T).0, sent + AdviseAll(es, T).1)
  }

  lemma ProgressStart(es: seq<Entry>, T: int, nextCookie: nat)
    requires WellFormed(es, nextCookie) && NoOverflow(es, T)
    ensures Progress(AdviseAll(es, T), es, T, nextCookie, [])
  {
    assert [] + AdviseAll(es, T).1 == AdviseAll(es, T).1;
  }

  lemma ProgressStep(all: (seq<Entry>, seq<Firing>), es: seq<Entry>, T: int, nextCookie: nat, sent: seq<Firing>)
    requires Progress(all, es, T, nextCookie, sent) && es != [] && es[0].time <= T
    ensures Progress(all, FireHead(es), T, nextCookie, sent + [Fire(es[0])])
    ensures es[0].periodic ==> Advance(es[0]).time < MAX_TIME
    ensures Work(FireHead(es), T) < Work(es, T)
  {
    HeadFires(es, T);
    HeadWellFormed(es, T, nextCookie);
    assert es[0] in es;
    if es[0].periodic {
      AdvanceStaysBelow(es[0], T);
    }
    var log := AdviseAll(FireHead(es), T).1;
    assert sent + ([Fire(es[0])] + log) == (sent + [Fire(es[0])]) + log;
  }

  lemma ProgressEnd(all: (seq<Entry>, seq<Firing>), es: seq<Entry>, T: int, nextCookie: nat, sent: seq<Firing>)
    requires Progress(all, es, T, nextCookie, sent) && (es == [] || es[0].time > T)
    ensures all == (es, sent) && WellFormed(es, nextCookie)
  {
    assert sent + [] == sent;
  }
}
