/**
 CAMSchedule (schedule.h, schedule.cpp): advise packets linked one to the next
 between two sentinels, and a cache of at most five packets for reuse.
 Each method is proved to do to the heap what AdviseList does to the list of entries.
 */
module Schedule {
  import opened AdviseList

  const CACHE_MAX := 5

  /** A link of the list; cookie, event time, period, handle and periodic flag are kept together in m_value. */
  class CAdvisePacket {
    var m_next: CAdvisePacket?
    var m_value: Entry

    constructor (next: CAdvisePacket?, time: int)
      ensures m_next == next && m_value.time == time
    {
      m_next, m_value := next, Entry(0, time, 0, 0, false);
    }

    method InsertAfter(p: CAdvisePacket)
      modifies this`m_next, p`m_next
      ensures p != this ==> p.m_next == old(m_next)
      ensures m_next == p
    {
      p.m_next := m_next;
      m_next := p;
    }

    /** Only the tail sentinel has no successor. */
    predicate IsZ()
      reads this
    {
      m_next == null
    }

    method RemoveNext() returns (next: CAdvisePacket)
      requires m_next != null
      modifies this`m_next
      ensures next == old(m_next) && m_next == old(m_next.m_next)
    {
      next := m_next;
      m_next := next.m_next;
    }

    method Next() returns (result: CAdvisePacket?)
      requires m_next != null
      ensures result == if m_next.m_next == null then null else m_next
    {
      result := m_next;
      if result.IsZ() {
        result := null;
      }
    }
  }

  /** Following m_next from `first` goes through the packets of c and then to `last`. */
  ghost predicate Leads(first: CAdvisePacket?, c: seq<CAdvisePacket>, last: CAdvisePacket?)
    reads c`m_next
  {
    && first == (if c == [] then last else c[0])
    && forall i {:trigger c[i].m_next} :: 0 <= i < |c| ==> c[i].m_next == if i + 1 < |c| then c[i + 1] else last
  }

  /** Such a list has no cycle: its k-th packet is nowhere else in it. */
  lemma Acyclic(first: CAdvisePacket?, c: seq<CAdvisePacket>, last: CAdvisePacket?, k: nat)
    requires Leads(first, c, last) && (last != null ==> last.m_next == null) && k < |c|
    ensures forall i :: 0 <= i < |c| && i != k ==> c[i] != c[k]
  {
    forall i | 0 <= i < |c| && i != k
      ensures c[i] != c[k]
    {
      if i < k { SamePlace(first, c, last, i, k); } else { SamePlace(first, c, last, k, i); }
    }
  }

  lemma {:induction false} SamePlace(first: CAdvisePacket?, c: seq<CAdvisePacket>, last: CAdvisePacket?, i: nat, j: nat)
    requires Leads(first, c, last) && (last != null ==> last.m_next == null) && i < j < |c|
    ensures c[i] != c[j]
    decreases |c| - j
  {
    assert c[i].m_next == c[i + 1];
    if j + 1 < |c| {
      assert c[j].m_next == c[j + 1];
      SamePlace(first, c, last, i + 1, j + 1);
    } else {
      assert c[j].m_next == last;
      assert last != null ==> c[i + 1].m_next != null;
    }
  }

  /** The packets hold these entries; how they are linked does not matter. */
  ghost predicate Hold(c: seq<CAdvisePacket>, es: seq<Entry>)
    reads c`m_value
  {
    |c| == |es| && forall i :: 0 <= i < |c| ==> c[i].m_value == es[i]
  }

  class CAMSchedule {
    const head: CAdvisePacket
    const z: CAdvisePacket  // the tail; its time is later than any other
    var m_dwNextCookie: nat
    var m_dwAdviseCount: nat
    var m_pAdviseCache: CAdvisePacket?
    var m_dwCacheCount: nat
    var m_ev: bool          // the event that makes the clock re-evaluate its wait
    ghost var signals: seq<Firing>        // every SetEvent and ReleaseSemaphore so far
    ghost var nodes: seq<CAdvisePacket>   // the packets between head and z
    ghost var cache: seq<CAdvisePacket>
    ghost var entries: seq<Entry>         // what the packets hold
    ghost var repr: set<CAdvisePacket>    // every packet the schedule owns, sentinels included

    /** head reaches z through the packets, the cache is a separate list, the counts are right. */
    ghost predicate Shape()
      reads this, repr
    {
      && Apart()
      && Leads(head.m_next, nodes, z) && z.m_next == null && z.m_value.time == MAX_TIME
      && Leads(m_pAdviseCache, cache, null)
      && Hold(nodes, entries)
      && m_dwAdviseCount == |nodes|
      && m_dwCacheCount == |cache| <= CACHE_MAX
    }

    /** The sentinels, the packets in use and the cached ones are different objects. */
    ghost predicate Apart()
      reads this
    {
      && head != z && head !in nodes && z !in nodes && head !in cache && z !in cache
      && (forall p :: p in nodes ==> p !in cache && p in repr)
      && (forall p :: p in cache ==> p in repr)
      && head in repr && z in repr
    }

    ghost predicate Valid()
      reads this, repr
    {
      Shape() && WellFormed(entries, m_dwNextCookie)
    }

    ghost predicate Unused(p: CAdvisePacket)
      reads this
    {
      p != head && p != z && p !in nodes && p !in cache
    }

    constructor ()
      ensures Valid() && entries == [] && signals == [] && !m_ev && fresh(repr)
    {
      z := new CAdvisePacket(null, MAX_TIME);
      head := new CAdvisePacket(null, 0);
      m_dwNextCookie, m_dwAdviseCount, m_pAdviseCache, m_dwCacheCount, m_ev := 0, 0, null, 0, false;
      signals, nodes, cache, entries := [], [], [], [];
      new;
      head.m_next := z;
      repr := {head, z};
    }

    method GetNextAdviseTime() returns (t: int)
      requires Valid()
      ensures t == NextTime(entries)
    {
      t := head.m_next.m_value.time;
    }

    method AddAdvisePacket(time1: int, time2: int, h: int, periodic: bool) returns (cookie: nat)
      requires Valid() && time1 < MAX_TIME && (periodic ==> time2 > 0)
      modifies this, repr
      ensures Valid() && fresh(repr - old(repr))
      ensures cookie == m_dwNextCookie == old(m_dwNextCookie) + 1
      ensures entries == Insert(old(entries), Entry(cookie, time1, time2, h, periodic))
      ensures m_ev == (old(m_ev) || Before(old(entries), time1) == 0)
      ensures signals == old(signals)
    {
      cookie := Enter(time1, time2, h, periodic);
      InsertWellFormed(old(entries), Entry(cookie, time1, time2, h, periodic), cookie - 1);
    }

    method Enter(time1: int, time2: int, h: int, periodic: bool) returns (cookie: nat)
      requires Shape() && time1 < MAX_TIME
      modifies this, repr
      ensures Shape() && fresh(repr - old(repr))
      ensures cookie == m_dwNextCookie == old(m_dwNextCookie) + 1
      ensures entries == Insert(old(entries), Entry(cookie, time1, time2, h, periodic))
      ensures m_ev == (old(m_ev) || Before(old(entries), time1) == 0)
      ensures signals == old(signals)
    {
      ghost var place := Before(entries, time1);
      var p := NewPacket();
      p.m_value := Entry(0, time1, time2, h, periodic);
      assert Shape();
      cookie := InsertPacket(p);
      assert m_ev == (old(m_ev) || place == 0);
    }

    /** A packet from the cache if there is one, else from the heap. */
    method NewPacket() returns (p: CAdvisePacket)
      requires Shape()
      modifies this`m_pAdviseCache, this`m_dwCacheCount, this`cache, this`repr
      ensures Shape() && Unused(p) && p in repr
      ensures if old(cache) != [] then p == old(cache)[0] && cache == old(cache)[1..] && repr == old(repr)
              else fresh(p) && cache == [] && repr == old(repr) + {p}
    {
      if m_pAdviseCache != null {
        Acyclic(m_pAdviseCache, cache, null, 0);
        p := m_pAdviseCache;
        m_pAdviseCache := p.m_next;
        m_dwCacheCount := m_dwCacheCount - 1;
        cache := cache[1..];
      } else {
        p := new CAdvisePacket(null, 0);
        repr := repr + {p};
      }
    }

    method SetEvent()
      requires Shape()
      modifies this`m_ev
      ensures Shape() && m_ev
    {
      m_ev := true;
    }

    method NumberPacket(pPacket: CAdvisePacket) returns (cookie: nat)
      requires Shape() && Unused(pPacket) && pPacket in repr
      modifies this`m_dwNextCookie, pPacket`m_value
      ensures Shape() && Unused(pPacket)
      ensures cookie == m_dwNextCookie == old(m_dwNextCookie) + 1
      ensures pPacket.m_value == old(pPacket.m_value).(cookie := cookie)
    {
      m_dwNextCookie := m_dwNextCookie + 1;
      pPacket.m_value := pPacket.m_value.(cookie := m_dwNextCookie);
      cookie := m_dwNextCookie;
    }

    method InsertPacket(pPacket: CAdvisePacket) returns (cookie: nat)
      requires Shape() && Unused(pPacket) && pPacket in repr
      requires pPacket.m_value.time < MAX_TIME
      modifies this`m_dwNextCookie, this`m_dwAdviseCount, this`nodes, this`entries, this`m_ev, head`m_next,
          nodes`m_next, pPacket
      ensures Shape()
      ensures cookie == m_dwNextCookie == old(m_dwNextCookie) + 1
      ensures entries == Insert(old(entries), old(pPacket.m_value).(cookie := cookie))
      ensures m_ev == (old(m_ev) || Before(old(entries), old(pPacket.m_value.time)) == 0)
    {
      ghost var place := Before(entries, pPacket.m_value.time);
      cookie := NumberPacket(pPacket);
      var p_prev := FindPlace(pPacket.m_value.time);
      LinkIn(p_prev, pPacket, place);
      // a new first event: the clock's wait is out of date
      if p_prev == head {
        SetEvent();
      }
    }

    /** The search loop: the last packet before time t, or head. */
    method FindPlace(t: int) returns (p_prev: CAdvisePacket)
      requires Shape() && t < MAX_TIME
      ensures At(Before(entries, t), p_prev)
    {
      p_prev := head;
      ghost var k := 0;
      // z stops the search, its time being the greatest
      while p_prev.m_next.m_value.time < t
        invariant k <= |nodes| && At(k, p_prev)
        invariant Before(entries, t) == k + Before(entries[k..], t)
        decreases |nodes| - k
      {
        p_prev := p_prev.m_next;
        k := k + 1;
        assert entries[k - 1..][1..] == entries[k..];
      }
    }

    /** p is the packet before position k: head, or the one that holds entry k - 1. */
    ghost predicate At(k: nat, p: CAdvisePacket)
      reads this, nodes, p`m_next
    {
      && k <= |nodes|
      && p == (if k == 0 then head else nodes[k - 1])
      && p.m_next == (if k < |nodes| then nodes[k] else z)
    }

    /** Put a packet at position k. */
    method LinkIn(p_prev: CAdvisePacket, pPacket: CAdvisePacket, ghost k: nat)
      requires Shape() && Unused(pPacket) && pPacket in repr && At(k, p_prev)
      modifies this`m_dwAdviseCount, this`nodes, this`entries, p_prev`m_next, pPacket`m_next
      ensures Shape()
      ensures entries == InsertAt(old(entries), k, pPacket.m_value)
      ensures p_prev == head <==> k == 0
    {
      if k > 0 {
        Acyclic(head.m_next, nodes, z, k - 1);
      }
      assert p_prev !in cache && p_prev != z;
      Relink(p_prev, pPacket, head, nodes, z, k);
      assert Leads(m_pAdviseCache, cache, null);
      SplicedMembers(nodes, k, pPacket);
      SplicedHold(nodes, entries, k, pPacket);
      m_dwAdviseCount, nodes, entries := m_dwAdviseCount + 1, Spliced(nodes, k, pPacket),
          InsertAt(entries, k, pPacket.m_value);
    }

    /** Cancel an advise: S_OK (true) if the cookie was on the list, S_FALSE otherwise. */
    method Unadvise(dwAdviseCookie: nat) returns (hr: bool)
      requires Valid()
      modifies this, repr
      ensures Valid() && repr == old(repr)
      ensures entries == Remove(old(entries), dwAdviseCookie)
      ensures hr == exists e :: e in old(entries) && e.cookie == dwAdviseCookie
      ensures m_ev == old(m_ev) && signals == old(signals) && m_dwNextCookie == old(m_dwNextCookie)
    {
      ghost var es := entries;
      FindFinds(es, dwAdviseCookie);
      hr := Withdraw(dwAdviseCookie);
      RemoveExact(es, dwAdviseCookie, m_dwNextCookie);
    }

    method Withdraw(dwAdviseCookie: nat) returns (hr: bool)
      requires Shape()
      modifies this`m_dwAdviseCount, this`nodes, this`entries, this`m_pAdviseCache, this`m_dwCacheCount, this`cache,
          head`m_next, nodes`m_next
      ensures Shape() && repr == old(repr)
      ensures entries == Remove(old(entries), dwAdviseCookie)
      ensures hr == (Find(old(entries), dwAdviseCookie) < |old(entries)|)
    {
      var p_prev, found := FindCookie(dwAdviseCookie);
      if found {
        var p := Unlink(p_prev, Find(entries, dwAdviseCookie));
        Delete(p);
      }
      hr := found;
    }

    /** The search loop: the packet before the one with this cookie. */
    method FindCookie(dwAdviseCookie: nat) returns (p_prev: CAdvisePacket, found: bool)
      requires Shape()
      ensures At(Find(entries, dwAdviseCookie), p_prev) && found == (Find(entries, dwAdviseCookie) < |nodes|)
    {
      p_prev := head;
      var p_n := p_prev.Next();
      ghost var k := 0;
      found := false;
      while p_n != null
        invariant k <= |nodes| && At(k, p_prev) && p_n == if k < |nodes| then nodes[k] else null
        invariant Find(entries, dwAdviseCookie) == k + Find(entries[k..], dwAdviseCookie)
        decreases |nodes| - k
      {
        if p_n.m_value.cookie == dwAdviseCookie {
          found := true;
          return;
        }
        p_prev := p_n;
        k := k + 1;
        assert entries[k - 1..][1..] == entries[k..];
        p_n := p_prev.Next();
      }
    }

    /** Take the packet at position k off the list. */
    method Unlink(p_prev: CAdvisePacket, ghost k: nat) returns (p: CAdvisePacket)
      requires Shape() && At(k, p_prev) && k < |nodes|
      modifies this`m_dwAdviseCount, this`nodes, this`entries, p_prev`m_next
      ensures Shape() && Unused(p) && p == old(nodes)[k]
      ensures nodes == old(nodes)[..k] + old(nodes)[k + 1..]
      ensures entries == old(entries)[..k] + old(entries)[k + 1..]
    {
      Acyclic(head.m_next, nodes, z, k);
      if k > 0 {
        Acyclic(head.m_next, nodes, z, k - 1);
      }
      assert p_prev !in cache;
      p := CutOut(p_prev, head, nodes, z, k);
      assert Leads(m_pAdviseCache, cache, null);
      CutMembers(nodes, k);
      CutHold(nodes, entries, k);
      m_dwAdviseCount, nodes, entries := m_dwAdviseCount - 1, Cut(nodes, k), entries[..k] + entries[k + 1..];
    }

    /** Keep the packet for reuse, unless the cache is full. */
    method Delete(pPacket: CAdvisePacket)
      requires Shape() && Unused(pPacket) && pPacket in repr
      modifies this`m_pAdviseCache, this`m_dwCacheCount, this`cache, pPacket`m_next
      ensures Shape() && cache == if |old(cache)| < CACHE_MAX then [pPacket] + old(cache) else old(cache)
    {
      if m_dwCacheCount < CACHE_MAX {
        pPacket.m_next := m_pAdviseCache;
        assert Leads(m_pAdviseCache, cache, null);
        assert Leads(head.m_next, nodes, z);
        m_pAdviseCache, m_dwCacheCount, cache := pPacket, m_dwCacheCount + 1, [pPacket] + cache;
      }
    }

    /** The first packet moves to its place in time. */
    method ShuntHead()
      requires Shape() && nodes != [] && entries[0].time < MAX_TIME
      modifies this`nodes, this`entries, head`m_next, nodes`m_next
      ensures Shape() && entries == Shunt(old(entries))
    {
      var pPacket := head.m_next;
      var p_prev, p_n := FindNewPlace(pPacket);
      // otherwise the packet is in place as it is
      Acyclic(head.m_next, nodes, z, 0);
      if p_prev != pPacket {
        MoveBehind(pPacket, p_prev, p_n, UpTo(entries[1..], entries[0].time));
      }
    }

    /** The head is relinked behind the k packets after it. */
    method MoveBehind(pPacket: CAdvisePacket, p_prev: CAdvisePacket, p_n: CAdvisePacket, ghost k: nat)
      requires Shape() && 0 < k < |nodes| && pPacket == nodes[0] && At(k + 1, p_prev) && p_n == p_prev.m_next
      modifies this`nodes, this`entries, head`m_next, pPacket`m_next, p_prev`m_next
      ensures Shape() && entries == InsertAt(old(entries)[1..], k, old(entries)[0])
    {
      Acyclic(head.m_next, nodes, z, 0);
      Acyclic(head.m_next, nodes, z, k);
      assert p_prev !in cache && pPacket !in cache;
      Reposition(head, pPacket, p_prev, p_n, nodes, z, k);
      assert Leads(m_pAdviseCache, cache, null);
      SplicedMembers(nodes[1..], k, pPacket);
      SplicedHold(nodes[1..], entries[1..], k, pPacket);
      nodes, entries := Spliced(nodes[1..], k, pPacket), InsertAt(entries[1..], k, entries[0]);
    }

    /** The last packet, from the head on, that is not after the head's time. */
    method FindNewPlace(pPacket: CAdvisePacket) returns (p_prev: CAdvisePacket, p_n: CAdvisePacket)
      requires Shape() && nodes != [] && entries[0].time < MAX_TIME && pPacket == nodes[0]
      ensures At(UpTo(entries[1..], entries[0].time) + 1, p_prev) && p_n == p_prev.m_next
    {
      ghost var es, t := entries[1..], entries[0].time;
      // z stops the search, its time being the greatest
      p_prev := pPacket;
      p_n := pPacket.m_next;
      ghost var k := 0;
      while p_n.m_value.time <= pPacket.m_value.time
        invariant k + 1 <= |nodes| && At(k + 1, p_prev) && p_n == p_prev.m_next
        invariant UpTo(es, t) == k + UpTo(es[k..], t)
        decreases |nodes| - k
      {
        p_prev := p_n;
        k := k + 1;
        assert es[k - 1..][1..] == es[k..];
        p_n := p_prev.m_next;
      }
    }

    /** Send every signal that is due, and say when the next is. */
    method Advise(rtTime: int) returns (rtNextTime: int)
      requires Valid() && NoOverflow(entries, rtTime)
      modifies this, repr
      ensures Valid() && repr == old(repr)
      ensures entries == AdviseAll(old(entries), rtTime).0
      ensures signals == old(signals) + AdviseAll(old(entries), rtTime).1
      ensures rtNextTime == NextTime(entries) && (rtTime < MAX_TIME ==> rtTime < rtNextTime)
      ensures m_ev == old(m_ev) && m_dwNextCookie == old(m_dwNextCookie)
    {
      hide AdviseAll, NoOverflow;
      ghost var all, sent: seq<Firing> := AdviseAll(entries, rtTime), [];
      ProgressStart(entries, rtTime, m_dwNextCookie);
      rtNextTime := head.m_next.m_value.time;
      while rtTime >= rtNextTime && !head.m_next.IsZ()
        invariant Shape() && rtNextTime == NextTime(entries)
        invariant Progress(all, entries, rtTime, m_dwNextCookie, sent)
        invariant repr == old(repr)
        invariant signals == old(signals) + sent
        invariant m_ev == old(m_ev) && m_dwNextCookie == old(m_dwNextCookie)
        decreases Work(entries, rtTime)
      {
        ProgressStep(all, entries, rtTime, m_dwNextCookie, sent);
        assert signals + [Fire(entries[0])] == old(signals) + (sent + [Fire(entries[0])]);
        sent := sent + [Fire(entries[0])];
        rtNextTime := FireFirst();
      }
      ProgressEnd(all, entries, rtTime, m_dwNextCookie, sent);
    }

    /** One turn of that loop: dispatch the event at the head, and read the time of the next. */
    method FireFirst() returns (rtNextTime: int)
      requires Shape() && nodes != []
      requires entries[0].periodic ==> Advance(entries[0]).time < MAX_TIME
      modifies this, repr
      ensures Shape() && repr == old(repr)
      ensures entries == FireHead(old(entries)) && rtNextTime == NextTime(entries)
      ensures signals == old(signals) + [Fire(old(entries)[0])]
      ensures m_ev == old(m_ev) && m_dwNextCookie == old(m_dwNextCookie)
    {
      var pAdvise := head.m_next;
      signals := signals + [Fire(entries[0])];
      if pAdvise.m_value.periodic {
        Acyclic(head.m_next, nodes, z, 0);
        pAdvise.m_value := pAdvise.m_value.(time := pAdvise.m_value.time + pAdvise.m_value.period);
        entries := [Advance(entries[0])] + entries[1..];
        ShuntHead();
      } else {
        var p := Unlink(head, 0);
        Delete(p);
      }
      rtNextTime := head.m_next.m_value.time;
    }
  }

  /** The two assignments of InsertAfter splice p into the list. */
  method Relink(p_prev: CAdvisePacket, p: CAdvisePacket, ghost head: CAdvisePacket, ghost c: seq<CAdvisePacket>,
      ghost z: CAdvisePacket, ghost k: nat)
    requires Leads(head.m_next, c, z) && k <= |c| && p_prev == (if k == 0 then head else c[k - 1])
    requires head !in c && p != head && p !in c
    requires forall i :: 0 <= i < |c| && i != k - 1 ==> c[i] != p_prev
    modifies p_prev`m_next, p`m_next
    ensures Leads(head.m_next, Spliced(c, k, p), z)
  {
    p_prev.InsertAfter(p);
  }

  /** The packet behind p_prev, at position k, leaves the list. */
  method CutOut(p_prev: CAdvisePacket, ghost head: CAdvisePacket, ghost c: seq<CAdvisePacket>, ghost z: CAdvisePacket,
                ghost k: nat) returns (p: CAdvisePacket)
    requires Leads(head.m_next, c, z) && k < |c| && p_prev == (if k == 0 then head else c[k - 1]) && head !in c
    requires forall i :: 0 <= i < |c| && i != k - 1 ==> c[i] != p_prev
    modifies p_prev`m_next
    ensures p == c[k] && Leads(head.m_next, Cut(c, k), z)
  {
    p := p_prev.RemoveNext();
  }

  ghost function Cut(c: seq<CAdvisePacket>, k: nat): (c': seq<CAdvisePacket>)
    requires k < |c|
    ensures |c'| == |c| - 1 && forall i :: 0 <= i < |c'| ==> c'[i] == if i < k then c[i] else c[i + 1]
  {
    c[..k] + c[k + 1..]
  }

  lemma CutMembers(ns: seq<CAdvisePacket>, k: nat)
    requires k < |ns| && forall i :: 0 <= i < |ns| && i != k ==> ns[i] != ns[k]
    ensures ns[k] !in Cut(ns, k) && forall q :: q in Cut(ns, k) ==> q in ns
  {
  }

  lemma CutHold(ns: seq<CAdvisePacket>, es: seq<Entry>, k: nat)
    requires k < |ns| && Hold(ns, es)
    ensures Hold(Cut(ns, k), es[..k] + es[k + 1..])
  {
  }

  /** The three assignments of ShuntHead move the first packet behind k others. */
  method Reposition(head: CAdvisePacket, pPacket: CAdvisePacket, p_prev: CAdvisePacket, p_n: CAdvisePacket,
                    ghost c: seq<CAdvisePacket>, ghost z: CAdvisePacket, ghost k: nat)
    requires Leads(head.m_next, c, z) && 0 < k < |c| && pPacket == c[0] && p_prev == c[k] && p_n == p_prev.m_next
    requires head !in c
    requires forall i :: 0 <= i < |c| ==> (i != 0 ==> c[i] != pPacket) && (i != k ==> c[i] != p_prev)
    modifies head`m_next, pPacket`m_next, p_prev`m_next
    ensures Leads(head.m_next, Spliced(c[1..], k, pPacket), z)
  {
    head.m_next := pPacket.m_next;
    p_prev.m_next := pPacket;
    pPacket.m_next := p_n;
  }

  ghost function Spliced(c: seq<CAdvisePacket>, k: nat, p: CAdvisePacket): (c': seq<CAdvisePacket>)
    requires k <= |c|
    ensures |c'| == |c| + 1
    ensures forall i :: 0 <= i < |c'| ==> c'[i] == if i < k then c[i] else if i == k then p else c[i - 1]
  {
    c[..k] + [p] + c[k..]
  }

  lemma SplicedMembers(ns: seq<CAdvisePacket>, k: nat, p: CAdvisePacket)
    requires k <= |ns|
    ensures forall q :: q in Spliced(ns, k, p) <==> q in ns || q == p
  {
    assert ns == ns[..k] + ns[k..];
  }

  lemma SplicedHold(ns: seq<CAdvisePacket>, es: seq<Entry>, k: nat, p: CAdvisePacket)
    requires k <= |ns| && Hold(ns, es)
    ensures Hold(Spliced(ns, k, p), InsertAt(es, k, p.m_value))
  {
    InsertIndex(es, k, p.m_value);
  }
}
