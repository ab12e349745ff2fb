/**
 COutputQueue (outputq.cpp): the methods that run under the queue's lock, for a queue with a thread, and
 the direct path without one.  m_List is a list class whose source is not modelled; it is a sequence here.
 */
module OutputQueue {
  import opened Words
  import opened HResults
  import opened OutputQueueState

  // ---------- the direct path, on sequences ----------

  /** What the pin downstream answers to one call of ReceiveMultiple. */
  datatype Answer = Answer(hr: HRESULT, nDone: int)

  /** xs cut into groups of `size`, and what is left over. */
  function Chunks<S>(xs: seq<S>, size: nat): (r: (seq<seq<S>>, seq<S>))
    requires size > 0
    ensures |r.1| < size
    decreases |xs|
  {
    if |xs| < size then ([], xs)
    else var (groups, rest) := Chunks(xs[size..], size); ([xs[..size]] + groups, rest)
  }

  function Concat<S>(groups: seq<seq<S>>): seq<S> {
    if groups == [] then [] else groups[0] + Concat(groups[1..])
  }

  /** Nothing is lost or reordered. */
  lemma {:induction false} ChunksPartition<S>(xs: seq<S>, size: nat)
    requires size > 0
    ensures Concat(Chunks(xs, size).0) + Chunks(xs, size).1 == xs
    decreases |xs|
  {
    if |xs| >= size {
      ChunksPartition(xs[size..], size);
      var (groups, rest) := Chunks(xs[size..], size);
      assert Chunks(xs, size) == ([xs[..size]] + groups, rest);
      hide Chunks;
      ConcatFirst(xs[..size], groups);
      hide Concat;
      Associates(xs[..size], Concat(groups), rest);
    }
  }

  lemma ConcatFirst<S>(g: seq<S>, groups: seq<seq<S>>)
    ensures Concat([g] + groups) == g + Concat(groups)
  {
    assert ([g] + groups)[1..] == groups;
  }

  lemma Associates<S>(a: seq<S>, b: seq<S>, c: seq<S>)
    ensures a + b + c == a + (b + c)
  {
  }

  /** Every group is full. */
  lemma {:induction false} ChunksFull<S>(xs: seq<S>, size: nat)
    requires size > 0
    ensures forall i :: 0 <= i < |Chunks(xs, size).0| ==> |Chunks(xs, size).0[i]| == size
    decreases |xs|
  {
    if |xs| >= size {
      ChunksFull(xs[size..], size);
    }
  }

  /** One more sample either completes a group or joins the rest. */
  lemma {:induction false} ChunksNext<S>(xs: seq<S>, x: S, size: nat)
    requires size > 0
    ensures var (groups, rest) := Chunks(xs, size);
            Chunks(xs + [x], size) == if |rest| + 1 == size then (groups + [rest + [x]], []) else (groups, rest + [x])
    decreases |xs|
  {
    if |xs| >= size {
      ChunksNext(xs[size..], x, size);
      assert (xs + [x])[size..] == xs[size..] + [x] && (xs + [x])[..size] == xs[..size];
      var (groups, rest) := Chunks(xs[size..], size);
      assert [xs[..size]] + (groups + [rest + [x]]) == [xs[..size]] + groups + [rest + [x]];
    } else if |xs| + 1 == size {
      assert (xs + [x])[..size] == xs + [x] && (xs + [x])[size..] == [];
      var none := Chunks<S>([], size);
      assert none == ([], []) && [xs + [x]] + none.0 == [] + [xs + [x]];
    }
  }

  lemma ChunksNone<S>(batch: seq<S>, size: nat)
    requires |batch| < size
    ensures Chunks(batch, size) == ([], batch)
  {
  }

  lemma {:induction false} ChunksRest<S>(xs: seq<S>, size: nat)
    requires size > 0
    ensures |Chunks(xs, size).1| == |xs| % size
    decreases |xs|
  {
    if |xs| >= size {
      ChunksRest(xs[size..], size);
      DivStep(|xs|, size);
    }
  }

  /** The sticky return code after n batches: the first answer that is not S_OK stays, and no call follows it. */
  function Sticky(answers: nat -> Answer, n: nat): HRESULT {
    if n == 0 then S_OK
    else if Sticky(answers, n - 1) == S_OK then answers(n - 1).hr
    else Sticky(answers, n - 1)
  }

  /** The calls made for these batches, and the samples they failed to take. */
  function Calls<S>(groups: seq<seq<S>>, answers: nat -> Answer): seq<seq<S>> {
    if groups == [] then []
    else
      var n := |groups| - 1;
      Calls(groups[..n], answers) + (if Sticky(answers, n) == S_OK then [groups[n]] else [])
  }

  function Lost<S>(groups: seq<seq<S>>, answers: nat -> Answer): int {
    if groups == [] then 0
    else
      var n := |groups| - 1;
      Lost(groups[..n], answers) + |groups[n]| - (if Sticky(answers, n) == S_OK then answers(n).nDone else 0)
  }

  lemma NoneMade<S>(answers: nat -> Answer)
    ensures Sticky(answers, 0) == S_OK && Concat<S>([]) == [] && Calls<S>([], answers) == []
            && Lost<S>([], answers) == 0
  {
  }

  /** m of n batches are passed on: all up to the first that is not answered with S_OK. */
  ghost predicate PassedOn(answers: nat -> Answer, n: nat, m: nat) {
    && m <= n
    && (forall k: nat :: k + 1 < m ==> answers(k).hr == S_OK)
    && (m < n ==> m > 0 && answers(m - 1).hr != S_OK)
  }

  ghost function Passed(answers: nat -> Answer, n: nat): (m: nat)
    ensures PassedOn(answers, n, m)
  {
    if n == 0 then 0
    else
      var m := Passed(answers, n - 1);
      if m == n - 1 && (m == 0 || answers(m - 1).hr == S_OK) then n else m
  }

  /** What downstream says it took in these calls. */
  ghost function TotalDone(answers: nat -> Answer, m: nat): int {
    if m == 0 then 0 else TotalDone(answers, m - 1) + answers(m - 1).nDone
  }

  /** Downstream takes every batch whole. */
  ghost predicate TakesAll<S>(groups: seq<seq<S>>, answers: nat -> Answer) {
    forall k :: 0 <= k < |groups| ==> answers(k) == Answer(S_OK, |groups[k]|)
  }

  /** What the loop accumulates: the batches up to the first failure have been passed on, its answer is the return
      code, and everything that was completed but not taken is lost. */
  lemma {:induction false} Accumulated<S>(groups: seq<seq<S>>, answers: nat -> Answer, m: nat)
    requires PassedOn(answers, |groups|, m)
    ensures Calls(groups, answers) == groups[..m]
    ensures Sticky(answers, |groups|) == if m == 0 then S_OK else answers(m - 1).hr
    ensures Lost(groups, answers) == |Concat(groups)| - TotalDone(answers, m)
  {
    if groups != [] {
      var n := |groups| - 1;
      var front := groups[..n];
      Accumulated(front, answers, if m == n + 1 then n else m);
      ConcatNext(front, groups[n]);
      hide Concat;
      assert groups == front + [groups[n]];
    }
  }

  lemma {:induction false} NothingLost<S>(groups: seq<seq<S>>, answers: nat -> Answer)
    requires TakesAll(groups, answers)
    ensures PassedOn(answers, |groups|, |groups|) && TotalDone(answers, |groups|) == |Concat(groups)|
  {
    if groups != [] {
      var n := |groups| - 1;
      assert forall k :: 0 <= k < n ==> groups[..n][k] == groups[k];
      NothingLost(groups[..n], answers);
      ConcatNext(groups[..n], groups[n]);
      assert groups == groups[..n] + [groups[n]];
    }
  }

  lemma PassedIs(answers: nat -> Answer, n: nat, m: nat, m': nat)
    requires PassedOn(answers, n, m) && PassedOn(answers, n, m')
    ensures m == m'
  {
  }

  lemma DirectOutcome<S>(groups: seq<seq<S>>, answers: nat -> Answer)
    ensures var m := Passed(answers, |groups|);
            && Calls(groups, answers) == groups[..m]
            && Sticky(answers, |groups|) == (if m == 0 then S_OK else answers(m - 1).hr)
            && Lost(groups, answers) == |Concat(groups)| - TotalDone(answers, m)
            && (TakesAll(groups, answers) ==> Lost(groups, answers) == 0 && Sticky(answers, |groups|) == S_OK)
  {
    var m := Passed(answers, |groups|);
    hide Passed, Calls, Sticky, Lost, TotalDone, Concat;
    Accumulated(groups, answers, m);
    if TakesAll(groups, answers) {
      NothingLost(groups, answers);
      PassedIs(answers, |groups|, m, |groups|);
    }
  }

  /** As long as downstream is content, all batches are delivered, in order. */
  lemma {:induction false} AllCalled<S>(groups: seq<seq<S>>, answers: nat -> Answer)
    requires Sticky(answers, |groups|) == S_OK
    ensures Calls(groups, answers) == groups
  {
    if groups != [] {
      AllCalled(groups[..|groups| - 1], answers);
      assert groups == groups[..|groups| - 1] + [groups[|groups| - 1]];
    }
  }

  /** The batches a direct call completes, and what stays batched; without samples only a forced call completes one. */
  function Groups<S>(batch: seq<S>, ss: seq<S>, sendAnyway: bool, size: nat): (seq<seq<S>>, seq<S>)
    requires size > 0
  {
    if ss != [] then Chunks(batch + ss, size)
    else if sendAnyway && batch != [] then ([batch], [])
    else ([], batch)
  }

  // ---------- what direct calls leave behind ----------

  /** A direct call that completes without an error: of ReceiveMultiple with samples, or one that forces the batch. */
  datatype DirectCall<S> = Receives(samples: seq<S>) | Forces

  /** The batch after these calls, which ReceiveDirect leaves as Groups says. */
  function Batched<S>(calls: seq<DirectCall<S>>, size: nat): seq<S>
    requires size > 0
  {
    if calls == [] then []
    else
      var batch := Batched(calls[..|calls| - 1], size);
      match calls[|calls| - 1]
      case Receives(ss) => Groups(batch, ss, false, size).1
      case Forces => Groups(batch, [], true, size).1
  }

  function SinceForced<S>(calls: seq<DirectCall<S>>): seq<S> {
    if calls == [] then []
    else
      match calls[|calls| - 1]
      case Receives(ss) => SinceForced(calls[..|calls| - 1]) + ss
      case Forces => []
  }

  /** Calls together batch what they would batch as one. */
  lemma {:induction false} ChunksTogether<S>(xs: seq<S>, ys: seq<S>, size: nat)
    requires size > 0
    ensures Chunks(Chunks(xs, size).1 + ys, size).1 == Chunks(xs + ys, size).1
    decreases |xs|
  {
    if |xs| >= size {
      ChunksTogether(xs[size..], ys, size);
      assert (xs + ys)[size..] == xs[size..] + ys;
    }
  }

  lemma {:induction false} BatchedTogether<S>(calls: seq<DirectCall<S>>, size: nat)
    requires size > 0
    ensures Batched(calls, size) == Chunks(SinceForced(calls), size).1
  {
    if calls != [] {
      var front := calls[..|calls| - 1];
      BatchedTogether(front, size);
      match calls[|calls| - 1]
      case Receives(ss) =>
        ChunksTogether(SinceForced(front), ss, size);
        assert SinceForced(front) + [] == SinceForced(front);
      case Forces =>
    }
  }

  /** The source asserts this when a direct call begins. */
  predicate EntryAssertion<S(==)>(batch: seq<S>, exact: bool) {
    batch == [] || exact
  }

  /** After any history of direct calls the assertion holds exactly if batching is exact or the samples since the last
      forced batch fill whole batches. */
  lemma LeftoversIff<S>(calls: seq<DirectCall<S>>, size: nat, exact: bool)
    requires size > 0
    ensures EntryAssertion(Batched(calls, size), exact) <==> exact || |SinceForced(calls)| % size == 0
  {
    BatchedTogether(calls, size);
    ChunksRest(SinceForced(calls), size);
  }

  /** So with inexact batches bigger than one a single sample is enough to break it. */
  lemma OneSampleIsLeft(size: nat)
    requires size > 1
    ensures !EntryAssertion(Batched([Receives([7])], size), false)
  {
    var calls := [Receives([7])];
    assert calls[..0] == [] && SinceForced(calls[..0]) == [];
    LeftoversIff(calls, size, false);
  }

  // ---------- when a direct call returns ----------

  /** A direct call; m_bSendAnyway may change while it runs: flag(2 * k) is what the head of turn k reads, and
      flag(2 * k + 1) what its body does. */
  datatype Call = Call(nSamples: nat, size: nat, exact: bool, flag: nat -> bool) {
    predicate Head(k: nat) { flag(2 * k) }
    predicate Body(k: nat) { flag(2 * k + 1) }
  }

  /** The counters of its loop. */
  datatype Turn = Turn(iDone: nat, nBatched: nat)

  predicate GoesOn(c: Call, k: nat, t: Turn) {
    t.iDone < c.nSamples || (t.nBatched != 0 && c.Head(k))
  }

  /** One turn: a sample joins the batch, and a batch that is full, or forced by a call without samples, is sent. */
  function Turned(c: Call, k: nat, t: Turn): Turn {
    var t1 := if t.iDone < c.nSamples then Turn(t.iDone + 1, t.nBatched + 1) else t;
    if t1.nBatched == c.size || (c.nSamples == 0 && (c.Body(k) || !c.exact)) then t1.(nBatched := 0) else t1
  }

  function Turns(c: Call, k: nat, nBatched: nat): Turn {
    if k == 0 then Turn(0, nBatched) else Turned(c, k - 1, Turns(c, k - 1, nBatched))
  }

  /** Some number of turns leads out of the loop. */
  ghost predicate Returns(c: Call, nBatched: nat) {
    exists k: nat :: !GoesOn(c, k, Turns(c, k, nBatched))
  }

  /** Turn k ends a call without samples: it is not entered, or sends the batch. */
  predicate LetsGo(c: Call, k: nat) {
    !c.Head(k) || c.Body(k) || !c.exact
  }

  /** The head of turn k lets a call go whose samples are all batched. */
  predicate Cleared(c: Call, k: nat) {
    k >= c.nSamples && !c.Head(k)
  }

  ghost predicate CanReturn(c: Call, nBatched: nat)
    requires c.size > 0
  {
    if c.nSamples == 0 then nBatched == 0 || exists k: nat :: LetsGo(c, k)
    else (nBatched + c.nSamples) % c.size == 0 || exists k: nat :: Cleared(c, k)
  }

  /** A call returns exactly if its samples fill the last batch or m_bSendAnyway is clear when they are used up; and one
      without samples, unless m_bSendAnyway is set whenever the loop is entered and clear whenever its body looks. */
  lemma ReturnsIff(c: Call, nBatched: nat)
    requires nBatched < c.size
    ensures Returns(c, nBatched) <==> CanReturn(c, nBatched)
  {
    if c.nSamples == 0 {
      ReturnsWithoutSamples(c, nBatched);
    } else {
      ReturnsWithSamples(c, nBatched);
    }
  }

  lemma ReturnsWithSamples(c: Call, nBatched: nat)
    requires nBatched < c.size && c.nSamples > 0
    ensures Returns(c, nBatched) <==> CanReturn(c, nBatched)
  {
    var n := c.nSamples;
    AllTaken(c, n, nBatched);
    if CanReturn(c, nBatched) {
      var k :| k >= n && ((nBatched + n) % c.size == 0 || !c.Head(k));
      NothingHappens(c, k, nBatched);
      assert !GoesOn(c, k, Turns(c, k, nBatched));
    } else {
      forall k: nat
        ensures GoesOn(c, k, Turns(c, k, nBatched))
      {
        if k < n {
          AllTaken(c, k, nBatched);
        } else {
          NothingHappens(c, k, nBatched);
          assert !Cleared(c, k);
        }
      }
    }
  }

  lemma ReturnsWithoutSamples(c: Call, nBatched: nat)
    requires nBatched < c.size && c.nSamples == 0
    ensures Returns(c, nBatched) <==> CanReturn(c, nBatched)
  {
    if nBatched == 0 {
      assert !GoesOn(c, 0, Turns(c, 0, nBatched));
    } else if k: nat :| LetsGo(c, k) {
      SentOrNot(c, k, nBatched);
      SentOrNot(c, k + 1, nBatched);
      assert !GoesOn(c, k, Turns(c, k, nBatched)) || !GoesOn(c, k + 1, Turns(c, k + 1, nBatched));
    } else {
      forall k: nat
        ensures GoesOn(c, k, Turns(c, k, nBatched))
      {
        NotSent(c, k, nBatched);
        assert !LetsGo(c, k);
      }
    }
  }

  /** While there are samples every turn takes one. */
  lemma {:induction false} AllTaken(c: Call, k: nat, nBatched: nat)
    requires nBatched < c.size && 0 <= k <= c.nSamples
    ensures Turns(c, k, nBatched) == Turn(k, (nBatched + k) % c.size)
  {
    if k == 0 {
      SmallMod(nBatched, c.size);
    } else {
      AllTaken(c, k - 1, nBatched);
      ModNext(nBatched + k - 1, c.size);
    }
  }

  lemma SmallMod(n: nat, size: nat)
    requires n < size
    ensures n % size == n
  {
  }

  lemma ModNext(n: nat, size: nat)
    requires size > 0
    ensures (n + 1) % size == if n % size + 1 == size then 0 else n % size + 1
  {
    var q, m := n / size, n % size;
    if m + 1 == size {
      MulStep(q, size);
      DivUnique(n + 1, size, q + 1, 0);
    } else {
      DivUnique(n + 1, size, q, m + 1);
    }
  }

  lemma {:induction false} NothingHappens(c: Call, k: nat, nBatched: nat)
    requires nBatched < c.size && 0 < c.nSamples <= k
    ensures Turns(c, k, nBatched) == Turn(c.nSamples, (nBatched + c.nSamples) % c.size)
  {
    if k == c.nSamples {
      AllTaken(c, k, nBatched);
    } else {
      NothingHappens(c, k - 1, nBatched);
    }
  }

  lemma {:induction false} SentOrNot(c: Call, k: nat, nBatched: nat)
    requires nBatched < c.size && c.nSamples == 0
    ensures Turns(c, k, nBatched) == Turn(0, nBatched) || Turns(c, k, nBatched) == Turn(0, 0)
  {
    if k > 0 {
      SentOrNot(c, k - 1, nBatched);
    }
  }

  lemma {:induction false} NotSent(c: Call, k: nat, nBatched: nat)
    requires nBatched < c.size && c.nSamples == 0 && forall j: nat :: !LetsGo(c, j)
    ensures Turns(c, k, nBatched) == Turn(0, nBatched)
  {
    if k > 0 {
      NotSent(c, k - 1, nBatched);
      assert !LetsGo(c, k - 1);
    }
  }

  /** A turn with samples or after them. */
  lemma NextTurn(c: Call, k: nat, nBatched: nat)
    requires c.nSamples > 0
    ensures Turns(c, 0, nBatched) == Turn(0, nBatched)
    ensures var t := Turns(c, k, nBatched);
            && (t.iDone < c.nSamples ==>
                  Turns(c, k + 1, nBatched)
                  == Turn(t.iDone + 1, if t.nBatched + 1 == c.size then 0 else t.nBatched + 1))
            && (t.iDone >= c.nSamples && t.nBatched < c.size ==> Turns(c, k + 1, nBatched) == t)
  {
  }

  /** One sample for batches of two, while another thread stays in SendAnyway. */
  lemma CallNeverReturns(exact: bool)
    ensures !Returns(Call(1, 2, exact, _ => true), 0)
  {
    ReturnsIff(Call(1, 2, exact, _ => true), 0);
  }

  /** A call without samples sends the batch: before m_bSendAnyway is found clear at the head of a turn, its body finds
      it set, or need not look. */
  ghost predicate Forced(c: Call) {
    exists k: nat :: EntersAll(c, k) && (c.Body(k) || !c.exact)
  }

  ghost predicate EntersAll(c: Call, k: nat) {
    forall j: nat :: j <= k ==> c.Head(j)
  }

  ghost predicate EntersBelow(c: Call, k: nat) {
    forall j: nat :: j < k ==> c.Head(j)
  }

  /** No turn before has sent the batch. */
  ghost predicate HoldsBelow(c: Call, k: nat) {
    forall j: nat :: j < k ==> !c.Body(j) && c.exact
  }

  /** At the head of turn k of a call without samples: the batch has been sent, or not yet. */
  ghost predicate Forcing(c: Call, k: nat, sent: bool) {
    EntersBelow(c, k) && if sent then Forced(c) else HoldsBelow(c, k)
  }

  lemma NothingForced<S>(c: Call, batch: seq<S>)
    ensures Forcing(c, 0, false)
  {
  }

  lemma ForcedOrHeld(c: Call, k: nat)
    requires Forcing(c, k, false) && c.Head(k)
    ensures if c.Body(k) || !c.exact then Forcing(c, k + 1, true) else Forcing(c, k + 1, false) && !LetsGo(c, k)
  {
    if c.Body(k) || !c.exact {
      assert EntersAll(c, k);
    }
  }

  lemma NotHeld(c: Call, k: nat, j: nat)
    requires HoldsBelow(c, k) && !c.Head(k)
    ensures !(EntersAll(c, j) && (c.Body(j) || !c.exact))
  {
    assert j < k ==> !c.Body(j) && c.exact;
    assert j >= k && EntersAll(c, j) ==> c.Head(k);
  }

  lemma ForcedIff(c: Call, k: nat, sent: bool)
    requires Forcing(c, k, sent)
    ensures sent ==> Forced(c)
    ensures !sent && !c.Head(k) ==> !Forced(c)
  {
    if !sent && !c.Head(k) {
      forall j: nat
        ensures !(EntersAll(c, j) && (c.Body(j) || !c.exact))
      {
        NotHeld(c, k, j);
      }
    }
  }

  /** A turn that ends a call without samples, if one does. */
  ghost function LastForced(c: Call): (k: nat)
    ensures (exists j: nat :: LetsGo(c, j)) ==> LetsGo(c, k)
  {
    if k: nat :| LetsGo(c, k) then k else 0
  }

  /** So it does while no other thread clears the flag. */
  lemma AloneForces(c: Call)
    requires forall k: nat :: c.Head(k) && c.Body(k)
    ensures Forced(c) && LetsGo(c, 0)
  {
    assert EntersAll(c, 0);
  }

  /** The old batch and the first n samples of a call. */
  ghost function Taken<S>(batch: seq<S>, ss: seq<S>, n: nat): seq<S>
    requires n <= |ss|
  {
    batch + ss[..n]
  }

  lemma TakenNext<S>(batch: seq<S>, ss: seq<S>, n: nat)
    requires n < |ss|
    ensures Taken(batch, ss, n + 1) == Taken(batch, ss, n) + [ss[n]]
    ensures Taken(batch, ss, 0) == batch && Taken(batch, ss, |ss|) == batch + ss
  {
  }

  lemma {:induction false} ConcatNext<S>(groups: seq<seq<S>>, g: seq<S>)
    ensures Concat(groups + [g]) == Concat(groups) + g
  {
    if groups == [] {
      assert [g][1..] == [];
    } else {
      ConcatNext(groups[1..], g);
      assert (groups + [g])[1..] == groups[1..] + [g];
    }
  }

  function Max0(x: int): int { if x < 0 then 0 else x }

  /** The loop has taken i samples, completed these batches, and has this rest. */
  ghost predicate AtSample<S>(batch: seq<S>, ss: seq<S>, i: nat, size: nat, groups: seq<seq<S>>, rest: seq<S>)
    requires size > 0
  {
    i <= |ss| && Chunks(Taken(batch, ss, i), size) == (groups, rest)
  }

  lemma AtFirst<S>(batch: seq<S>, ss: seq<S>, size: nat)
    requires |batch| < size && ss != []
    ensures AtSample(batch, ss, 0, size, [], batch)
  {
    TakenNext(batch, ss, 0);
    ChunksNone(batch, size);
  }

  lemma AtNext<S>(batch: seq<S>, ss: seq<S>, i: nat, size: nat, groups: seq<seq<S>>, rest: seq<S>)
    requires 0 < size && i < |ss| && AtSample(batch, ss, i, size, groups, rest)
    ensures var next := rest + [ss[i]];
            AtSample(batch, ss, i + 1, size, if |next| == size then groups + [next] else groups,
                     if |next| == size then [] else next)
  {
    hide Chunks, Taken;
    TakenNext(batch, ss, i);
    ChunksNext(Taken(batch, ss, i), ss[i], size);
  }

  lemma AtLast<S>(batch: seq<S>, ss: seq<S>, c: Call, groups: seq<seq<S>>, rest: seq<S>)
    requires |batch| < c.size && ss != [] && c.nSamples == |ss|
    ensures AtSample(batch, ss, |ss|, c.size, groups, rest) ==>
              Chunks(batch + ss, c.size) == (groups, rest) && |rest| == LeftBy(c, |batch|)
  {
    hide Chunks, Taken;
    TakenNext(batch, ss, 0);
    ChunksRest(batch + ss, c.size);
  }

  /** What a call leaves batched. */
  ghost function LeftBy(c: Call, nBatched: nat): nat
    requires c.size > 0
  {
    (nBatched + c.nSamples) % c.size
  }

  /** The turn in which a call with samples leaves its loop at the latest. */
  ghost function LastTurn(c: Call, nBatched: nat): (k: nat)
    requires c.size > 0 && c.nSamples > 0 && CanReturn(c, nBatched)
    ensures k >= c.nSamples && (LeftBy(c, nBatched) == 0 || !c.Head(k))
  {
    if (nBatched + c.nSamples) % c.size == 0 then c.nSamples else var k: nat :| Cleared(c, k); k
  }

  /** The loop is at the head of this turn. */
  ghost predicate AtTurn<S>(batch: seq<S>, ss: seq<S>, c: Call, turn: nat, i: nat, groups: seq<seq<S>>, rest: seq<S>)
    requires c.size > 0
  {
    && c.nSamples == |ss| && ss != [] && |batch| < c.size
    && AtSample(batch, ss, i, c.size, groups, rest)
    && Turns(c, turn, |batch|) == Turn(i, |rest|)
    && (if i < |ss| then turn == i else turn >= i && |rest| == LeftBy(c, |batch|))
  }

  lemma AtFirstTurn<S>(batch: seq<S>, ss: seq<S>, c: Call)
    requires |batch| < c.size && ss != [] && c.nSamples == |ss|
    ensures AtTurn(batch, ss, c, 0, 0, [], batch)
  {
    AtFirst(batch, ss, c.size);
    NextTurn(c, 0, |batch|);
  }

  lemma AtNextTurn<S>(batch: seq<S>, ss: seq<S>, c: Call, turn: nat, i: nat, groups: seq<seq<S>>, rest: seq<S>)
    requires 0 < c.size && AtTurn(batch, ss, c, turn, i, groups, rest) && i < |ss|
    ensures var next := rest + [ss[i]];
            AtTurn(batch, ss, c, turn + 1, i + 1, if |next| == c.size then groups + [next] else groups,
                   if |next| == c.size then [] else next)
  {
    var next := rest + [ss[i]];
    var groups', rest' := if |next| == c.size then groups + [next] else groups, if |next| == c.size then [] else next;
    NextTurn(c, turn, |batch|);
    AtNext(batch, ss, i, c.size, groups, rest);
    hide AtSample, Turns, Turned, LeftBy;
    AtLast(batch, ss, c, groups', rest');
  }

  /** Without a sample to take a turn does nothing; and there are only so many of them. */
  lemma AtIdleTurn<S>(batch: seq<S>, ss: seq<S>, c: Call, turn: nat, groups: seq<seq<S>>, rest: seq<S>)
    requires 0 < c.size && AtTurn(batch, ss, c, turn, |ss|, groups, rest) && CanReturn(c, |batch|)
    requires rest != [] && c.Head(turn) && turn <= LastTurn(c, |batch|)
    ensures AtTurn(batch, ss, c, turn + 1, |ss|, groups, rest) && turn < LastTurn(c, |batch|)
  {
    NextTurn(c, turn, |batch|);
  }

  lemma AtLastTurn<S>(batch: seq<S>, ss: seq<S>, c: Call, turn: nat, groups: seq<seq<S>>, rest: seq<S>)
    requires 0 < c.size && AtTurn(batch, ss, c, turn, |ss|, groups, rest)
    ensures Chunks(batch + ss, c.size) == (groups, rest)
  {
    AtLast(batch, ss, c, groups, rest);
  }

  // ---------- samples with and without a list node ----------

  lemma NothingAdded<S>(list: seq<Packet<S>>, out: seq<S>)
    ensures list + [] == list && out + [] == out
  {
  }

  /** An end of stream that gets no list node is lost. */
  function UnqueuedEos<S>(q: Queue<S>): Queue<S> {
    if q.hr != S_OK then q else Notified(q.(flushed := false))
  }

  function SegmentPackets<S>(segment: Segment, markNode: bool, node: bool): (packets: seq<Packet<S>>)
    ensures WellPaired(packets) <==> markNode == node
  {
    (if markNode then [NewSegmentMark] else []) + (if node then [Parameters(segment)] else [])
  }

  /** Of the first n samples those that get a node, or those that do not. */
  function Chosen<S>(ss: seq<S>, nodes: seq<bool>, n: nat, which: bool): seq<S>
    requires n <= |nodes| == |ss|
  {
    if n == 0 then [] else Chosen(ss, nodes, n - 1, which) + (if nodes[n - 1] == which then [ss[n - 1]] else [])
  }

  lemma NoneChosen<S>(list: seq<Packet<S>>, out: seq<S>, ss: seq<S>, nodes: seq<bool>)
    requires |nodes| == |ss|
    ensures list == list + Packed(Chosen(ss, nodes, 0, true)) && out == out + Chosen(ss, nodes, 0, false)
  {
  }

  lemma ChosenNext<S>(list: seq<Packet<S>>, out: seq<S>, ss: seq<S>, nodes: seq<bool>, n: nat)
    requires n < |nodes| == |ss|
    ensures list + Packed(Chosen(ss, nodes, n, true)) + (if nodes[n] then [Sample(ss[n])] else [])
            == list + Packed(Chosen(ss, nodes, n + 1, true))
    ensures out + Chosen(ss, nodes, n, false) + (if nodes[n] then [] else [ss[n]])
            == out + Chosen(ss, nodes, n + 1, false)
  {
    PackedNext(Chosen(ss, nodes, n, true), ss[n]);
    assert Chosen(ss, nodes, n, true) + [] == Chosen(ss, nodes, n, true);
  }

  predicate AllNodes(nodes: seq<bool>) {
    forall i :: 0 <= i < |nodes| ==> nodes[i]
  }

  /** With a node for each sample none is given up. */
  lemma {:induction false} AllChosen<S>(ss: seq<S>, nodes: seq<bool>, n: nat)
    requires n <= |nodes| == |ss| && AllNodes(nodes)
    ensures Chosen(ss, nodes, n, true) == ss[..n] && Chosen(ss, nodes, n, false) == []
  {
    if n > 0 {
      AllChosen(ss, nodes, n - 1);
    }
  }

  lemma PackedNext<S>(front: seq<S>, x: S)
    ensures Packed(front + [x]) == Packed(front) + [Sample(x)]
  {
  }

  // ---------- releases ----------

  function Samples<S>(list: seq<Packet<S>>): seq<S> {
    if list == [] then [] else (if list[0].Sample? then [list[0].sample] else []) + Samples(list[1..])
  }

  class COutputQueue<S(0)> {
    const m_lBatchSize: nat
    const m_bBatchExact: bool
    const m_bFlushingOpt: bool
    const m_ppSamples: array<S>
    var m_nBatched: nat
    var m_List: seq<Packet<S>>
    var m_hSem: nat
    var m_lWaiting: nat
    var m_hr: HRESULT
    var m_bFlushing: bool
    var m_bFlushed: bool
    var m_bTerminate: bool
    var m_evFlushComplete: bool
    ghost var released: seq<S>           // every Release of a sample, in order
    ghost var delivered: seq<seq<S>>     // every ReceiveMultiple downstream, on the direct path

    ghost function State(): Queue<S>
      requires m_nBatched <= m_ppSamples.Length
      reads this, m_ppSamples
    {
      Queue(m_List, m_ppSamples[..m_nBatched], m_lWaiting, m_hSem, m_hr, m_bFlushing, m_bFlushed, m_bTerminate,
          m_evFlushComplete)
    }

    ghost predicate Valid()
      reads this, m_ppSamples
    {
      0 < m_lBatchSize == m_ppSamples.Length && m_nBatched < m_lBatchSize && WellPaired(m_List)
    }

    constructor (lBatchSize: nat, bBatchExact: bool, bFlushingOpt: bool)
      requires lBatchSize > 0
      ensures Valid() && State() == OutputQueueState.Initial() && released == [] && delivered == []
      ensures m_lBatchSize == lBatchSize && m_bBatchExact == (bBatchExact && lBatchSize > 1)
              && m_bFlushingOpt == bFlushingOpt
    {
      m_lBatchSize, m_bBatchExact, m_bFlushingOpt := lBatchSize, bBatchExact && lBatchSize > 1, bFlushingOpt;
      m_ppSamples := new S[lBatchSize];
      m_nBatched, m_List, m_hSem, m_lWaiting, m_hr := 0, [], 0, 0, S_OK;
      m_bFlushing, m_bFlushed, m_bTerminate, m_evFlushComplete := false, true, false, false;
      released, delivered := [], [];
    }

    method NotifyThread()
      requires m_nBatched <= m_ppSamples.Length
      modifies this`m_hSem, this`m_lWaiting
      ensures State() == Notified(old(State()))
    {
      if m_lWaiting != 0 {
        m_hSem := m_hSem + m_lWaiting;
        m_lWaiting := 0;
      }
    }

    /** Empty the list and the batch, giving up their references. */
    method FreeSamples()
      requires Valid()
      modifies this`m_List, this`m_nBatched, this`released
      ensures Valid() && State() == Freed(old(State()))
      ensures released == old(released) + (Samples(old(m_List)) + old(State()).batch)
    {
      ghost var batch := m_ppSamples[..m_nBatched];
      while m_List != []
        invariant Valid() && m_ppSamples[..m_nBatched] == batch
        invariant released + Samples(m_List) == old(released) + Samples(old(m_List))
        decreases |m_List|
      {
        var pSample := m_List[0];
        match pSample {
          case Sample(x) =>
            m_List := m_List[1..];
            released := released + [x];
          case NewSegmentMark =>
            assert m_List[1..][1..] == m_List[2..];
            m_List := m_List[2..];  // the packet and its parameters
          case _ =>
            m_List := m_List[1..];
        }
      }
      ReleaseBatch();
      Associates(old(released), Samples(old(m_List)), batch);
    }

    /** Release the batched samples. */
    method ReleaseBatch()
      requires m_nBatched <= m_ppSamples.Length
      modifies this`m_nBatched, this`released
      ensures m_nBatched == 0 && released == old(released) + old(m_ppSamples[..m_nBatched])
    {
      var i := 0;
      while i < m_nBatched
        invariant i <= m_nBatched == old(m_nBatched) && released == old(released) + m_ppSamples[..i]
      {
        released := released + [m_ppSamples[i]];
        i := i + 1;
      }
      m_nBatched := 0;
    }

    /** The lock section of the thread: it leaves with a batch, with a control packet, or about to park. */
    method FetchBatch() returns (f: Fetched<S>)
      requires Valid()
      modifies this`m_List, this`m_nBatched, this`m_lWaiting, this`m_evFlushComplete, this`released, m_ppSamples
      ensures Valid() && (State(), f) == Fetch(old(State()), m_lBatchSize, m_bBatchExact)
      ensures released
              == old(released) + if m_bTerminate || m_bFlushing then Samples(old(m_List)) + old(State()).batch else []
    {
      if m_bTerminate {
        FreeSamples();
        return Terminated;
      }
      if m_bFlushing {
        FreeSamples();
        m_evFlushComplete := true;
      }
      f := PullBatch();
      if f.Parks? {
        m_lWaiting := m_lWaiting + 1;
      }
    }

    /** The loop over the list. */
    method PullBatch() returns (f: Fetched<S>)
      requires Valid()
      modifies this`m_List, this`m_nBatched, m_ppSamples
      ensures Valid() && (m_List, m_ppSamples[..m_nBatched], f)
              == Pull(old(m_List), old(m_ppSamples[..m_nBatched]), m_lBatchSize, m_bBatchExact)
    {
      ghost var goal := Pull(m_List, m_ppSamples[..m_nBatched], m_lBatchSize, m_bBatchExact);
      while true
        invariant Valid() && Pull(m_List, m_ppSamples[..m_nBatched], m_lBatchSize, m_bBatchExact) == goal
        decreases |m_List|
      {
        if m_List == [] {
          // an empty list: park, unless there is a batch that need not be full
          if m_bBatchExact || m_nBatched == 0 {
            return Parks;
          }
          f := Sends(m_ppSamples[..m_nBatched], NoControl);
          m_nBatched := 0;
          return;
        }
        var pSample := m_List[0];
        match pSample {
          case Sample(x) =>
            ghost var before := m_ppSamples[..m_nBatched];
            m_List := m_List[1..];
            m_ppSamples[m_nBatched] := x;
            assert m_ppSamples[..m_nBatched + 1] == before + [x];
            if m_nBatched + 1 == m_lBatchSize {
              f := Sends(m_ppSamples[..m_nBatched + 1], NoControl);
              m_nBatched := 0;
              return;
            }
            m_nBatched := m_nBatched + 1;
          case SendPacket =>
            m_List := m_List[1..];
            if m_nBatched != 0 {
              f := Sends(m_ppSamples[..m_nBatched], Send);
              m_nBatched := 0;
              return;
            }
          case EosPacket =>
            m_List := m_List[1..];
            f := Sends(m_ppSamples[..m_nBatched], Eos);
            m_nBatched := 0;
            return;
          case ResetPacket =>
            m_List := m_List[1..];
            f := Sends(m_ppSamples[..m_nBatched], Reset);
            m_nBatched := 0;
            return;
          case NewSegmentMark =>
            // its parameters were queued right behind it
            var ppacket := m_List[1];
            m_List := m_List[2..];
            f := Sends(m_ppSamples[..m_nBatched], NewSegment(ppacket.segment));
            m_nBatched := 0;
            return;
        }
      }
    }

    /** Without a list node a sample is given up, and a control packet is lost. */
    method QueueSample(packet: Packet<S>, node: bool)
      modifies this`m_List, this`released
      ensures m_List == old(m_List) + if node then [packet] else []
      ensures released == old(released) + if !node && packet.Sample? then [packet.sample] else []
    {
      if node {
        m_List := m_List + [packet];
      } else if packet.Sample? {
        released := released + [packet.sample];
      }
    }

    method Discard(ppSamples: seq<S>)
      modifies this`released
      ensures released == old(released) + ppSamples
    {
      var i := 0;
      while i < |ppSamples|
        invariant i <= |ppSamples| && released == old(released) + ppSamples[..i]
      {
        released := released + [ppSamples[i]];
        i := i + 1;
      }
      assert ppSamples[..i] == ppSamples;
    }

    method QueueSamples(ppSamples: seq<S>, nodes: seq<bool>)
      requires WellPaired(m_List) && |nodes| == |ppSamples|
      modifies this`m_List, this`released
      ensures m_List == old(m_List) + Packed(Chosen(ppSamples, nodes, |nodes|, true)) && WellPaired(m_List)
      ensures released == old(released) + Chosen(ppSamples, nodes, |nodes|, false)
      ensures AllNodes(nodes) ==> m_List == old(m_List) + Packed(ppSamples) && released == old(released)
    {
      hide Packed, Chosen;
      NoneChosen(m_List, released, ppSamples, nodes);
      var i := 0;
      while i < |ppSamples|
        invariant i <= |ppSamples| && m_List == old(m_List) + Packed(Chosen(ppSamples, nodes, i, true))
        invariant released == old(released) + Chosen(ppSamples, nodes, i, false)
      {
        QueueSample(Sample(ppSamples[i]), nodes[i]);
        ChosenNext(old(m_List), old(released), ppSamples, nodes, i);
        i := i + 1;
      }
      if AllNodes(nodes) {
        AllChosen(ppSamples, nodes, i);
        assert ppSamples[..i] == ppSamples;
        NothingAdded(old(m_List), old(released));
      }
      PairedPacked(Chosen(ppSamples, nodes, i, true));
      PairedConcat(old(m_List), Packed(Chosen(ppSamples, nodes, i, true)));
    }

    /** With a thread: the samples are queued, unless there has been an error.  `nodes` says which get a list node; the
        others are released, and count as processed. */
    method ReceiveQueued(ppSamples: seq<S>, nodes: seq<bool>) returns (hr: HRESULT, nSamplesProcessed: int)
      requires Valid() && |nodes| == |ppSamples|
      modifies this`m_List, this`m_bFlushed, this`m_hSem, this`m_lWaiting, this`released
      ensures Valid() && State() == Received(old(State()), Chosen(ppSamples, nodes, |nodes|, true), m_lBatchSize,
              m_bBatchExact)
      ensures hr == m_hr && nSamplesProcessed == if hr == S_OK then |ppSamples| else 0
      ensures hr == S_OK && (!m_bBatchExact || m_nBatched + |m_List| >= m_lBatchSize) ==> m_lWaiting == 0
      ensures hr == S_OK ==> !m_bFlushed
      ensures released == old(released) + if hr == S_OK then Chosen(ppSamples, nodes, |nodes|, false) else ppSamples
      ensures hr == S_OK && AllNodes(nodes) ==> m_List == old(m_List) + Packed(ppSamples) && released == old(released)
    {
      if m_hr != S_OK {
        Discard(ppSamples);
        return m_hr, 0;
      }
      hide Chosen, Packed, AllNodes;
      m_bFlushed := false;
      QueueSamples(ppSamples, nodes);
      nSamplesProcessed := |ppSamples|;
      if !m_bBatchExact || m_nBatched + |m_List| >= m_lBatchSize {
        NotifyThread();
      }
      hr := S_OK;
    }

    method EOSQueued(node: bool)
      requires Valid()
      modifies this`m_List, this`m_bFlushed, this`m_hSem, this`m_lWaiting, this`released
      ensures Valid() && released == old(released)
      ensures State() == if node then EosQueued(old(State())) else UnqueuedEos(old(State()))
      ensures m_List == old(m_List) + if old(m_hr) == S_OK && node then [EosPacket] else []
      ensures old(m_hr) == S_OK ==> m_lWaiting == 0 && !m_bFlushed
    {
      if m_hr == S_OK {
        m_bFlushed := false;
        PairedConcat(m_List, [EosPacket]);
        NothingAdded(m_List, released);
        QueueSample(EosPacket, node);
        NotifyThread();
      }
    }

    /** The lock section of NewSegment; the two packets go on the list together, unless one of them gets no node.  Then
        what the thread takes for the parameters is another packet, or the parameters for a sample. */
    method NewSegmentQueued(tStart: int, tStop: int, dRate: real, markNode: bool, node: bool)
      requires Valid()
      modifies this`m_List, this`m_hSem, this`m_lWaiting, this`released
      ensures Valid() <==> markNode == node
      ensures m_nBatched == old(m_nBatched) && released == old(released)
      ensures var packets := SegmentPackets(Segment(tStart, tStop, dRate), markNode, node);
              State() == Queued(old(State()), packets)
    {
      ghost var packets := SegmentPackets<S>(Segment(tStart, tStop, dRate), markNode, node);
      PairedConcat(m_List, packets);
      NothingAdded(m_List, released);
      QueueSample(NewSegmentMark, markNode);
      QueueSample(Parameters(Segment(tStart, tStop, dRate)), node);
      assert m_List == old(m_List) + packets;
      NotifyThread();
    }

    method SendAnywayQueued(node: bool)
      requires Valid()
      modifies this`m_List, this`m_hSem, this`m_lWaiting, this`released
      ensures Valid() && released == old(released)
      ensures State() == Queued(old(State()), if node then [SendPacket] else [])
    {
      PairedConcat(m_List, [SendPacket]);
      NothingAdded(m_List, released);
      QueueSample(SendPacket, node);
      NotifyThread();
    }

    method ResetQueued(node: bool)
      requires Valid()
      modifies this`m_List, this`m_hSem, this`m_lWaiting, this`released
      ensures Valid() && released == old(released)
      ensures State() == Queued(old(State()), if node then [ResetPacket] else [])
    {
      PairedConcat(m_List, [ResetPacket]);
      NothingAdded(m_List, released);
      QueueSample(ResetPacket, node);
      NotifyThread();
    }

    /** The lock section of BeginFlush with a thread; the call goes on downstream unless the optimization applies. */
    method BeginFlushQueued() returns (downstream: bool)
      requires Valid()
      modifies this`m_bFlushing, this`m_hr, this`m_evFlushComplete, this`m_hSem, this`m_lWaiting
      ensures Valid() && State() == BeginFlushed(old(State()), m_bFlushingOpt)
      ensures downstream == !(m_bFlushed && m_bFlushingOpt)
      ensures m_bFlushing && m_hr == if old(m_hr) == S_OK then S_FALSE else old(m_hr)
      ensures downstream ==> !m_evFlushComplete && m_lWaiting == 0
    {
      m_bFlushing := true;
      if m_hr == S_OK {
        m_hr := S_FALSE;
      }
      if m_bFlushed && m_bFlushingOpt {
        return false;
      }
      m_evFlushComplete := false;
      NotifyThread();
      return true;
    }

    method IsIdle() returns (idle: bool)
      requires Valid()
      ensures idle <==> State().waiting != 0 && State().batch == []
    {
      if m_lWaiting == 0 || m_nBatched != 0 {
        idle := false;
      } else {
        idle := true;
      }
    }

    ghost function DirectCall(nSamples: nat, flag: nat -> bool): Call {
      Call(nSamples, m_lBatchSize, m_bBatchExact, flag)
    }

    /** Without a thread: samples are batched and every full batch goes downstream at once.  `answers` are the pin's,
        and `flag` what is read of m_bSendAnyway, which the source sets outside the lock; the call is one that
        returns. */
    method ReceiveDirect(ppSamples: seq<S>, flag: nat -> bool, answers: nat -> Answer)
      returns (hr: HRESULT, nSamplesProcessed: int)
      requires Valid() && (m_hr == S_OK ==> CanReturn(DirectCall(|ppSamples|, flag), m_nBatched))
      modifies this`m_nBatched, this`m_bFlushed, this`m_hr, this`released, this`delivered, m_ppSamples
      ensures Valid() && hr == m_hr
      ensures old(m_hr) != S_OK ==> hr == old(m_hr) && nSamplesProcessed == 0 && State() == old(State())
                                    && released == old(released) + ppSamples && delivered == old(delivered)
      ensures old(m_hr) == S_OK ==>
                var (groups, rest) := Groups(old(State()).batch, ppSamples, Forced(DirectCall(0, flag)), m_lBatchSize);
                var m := Passed(answers, |groups|);
                && m_ppSamples[..m_nBatched] == rest && !m_bFlushed
                && released == old(released) + Concat(groups)
                && delivered == old(delivered) + groups[..m]
                && hr == (if m == 0 then S_OK else answers(m - 1).hr)
                && nSamplesProcessed == Max0(|ppSamples| - |Concat(groups)| + TotalDone(answers, m))
                && (TakesAll(groups, answers) ==> nSamplesProcessed == |ppSamples| && hr == S_OK)
    {
      if m_hr != S_OK {
        Discard(ppSamples);
        return m_hr, 0;
      }
      hide Calls, Lost, Sticky, Forced, Groups, TotalDone, Concat, PassedOn, Passed, TakesAll, CanReturn;
      hide Call.Head, Call.Body;
      m_bFlushed := false;
      ghost var groups;
      nSamplesProcessed, groups := CompleteBatches(ppSamples, flag, answers);
      DirectOutcome(groups, answers);
      hr := m_hr;
    }

    /** The loop, with and without samples. */
    method CompleteBatches(ppSamples: seq<S>, flag: nat -> bool, answers: nat -> Answer)
      returns (nSamplesProcessed: int, ghost groups: seq<seq<S>>)
      requires Valid() && m_hr == S_OK && CanReturn(DirectCall(|ppSamples|, flag), m_nBatched)
      modifies this`m_nBatched, this`m_hr, this`released, this`delivered, m_ppSamples
      ensures Valid()
      ensures (groups, m_ppSamples[..m_nBatched])
              == Groups(old(m_ppSamples[..m_nBatched]), ppSamples, Forced(DirectCall(0, flag)), m_lBatchSize)
      ensures Made(groups, answers, old(released), old(delivered), Lost(groups, answers))
      ensures nSamplesProcessed == Max0(|ppSamples| - Lost(groups, answers))
    {
      hide Made, Lost, Forced, Chunks, CanReturn;
      groups := Groups(m_ppSamples[..m_nBatched], ppSamples, Forced(DirectCall(0, flag)), m_lBatchSize).0;
      if ppSamples == [] {
        nSamplesProcessed := ForceBatch(flag, answers);
      } else {
        nSamplesProcessed := BatchSamples(ppSamples, flag, answers);
      }
    }

    /** What has happened since the call began, when these batches have been completed. */
    ghost predicate Made(groups: seq<seq<S>>, answers: nat -> Answer, released0: seq<S>, delivered0: seq<seq<S>>,
        iLost: int)
      reads this
    {
      && m_hr == Sticky(answers, |groups|)
      && released == released0 + Concat(groups)
      && delivered == delivered0 + Calls(groups, answers)
      && iLost == Lost(groups, answers)
    }

    lemma NothingMade(answers: nat -> Answer)
      requires m_hr == S_OK
      ensures Made([], answers, released, delivered, 0) && Lost<S>([], answers) == 0
    {
      NoneMade<S>(answers);
      assert released + [] == released && delivered + [] == delivered;
    }

    /** The loop over the samples. */
    method BatchSamples(ppSamples: seq<S>, flag: nat -> bool, answers: nat -> Answer) returns (nSamplesProcessed: int)
      requires Valid() && ppSamples != [] && m_hr == S_OK && CanReturn(DirectCall(|ppSamples|, flag), m_nBatched)
      modifies this`m_nBatched, this`m_hr, this`released, this`delivered, m_ppSamples
      ensures Valid()
      ensures var (groups, rest) := Chunks(old(m_ppSamples[..m_nBatched]) + ppSamples, m_lBatchSize);
              && m_ppSamples[..m_nBatched] == rest
              && Made(groups, answers, old(released), old(delivered), Lost(groups, answers))
              && nSamplesProcessed == Max0(|ppSamples| - Lost(groups, answers))
    {
      ghost var batch, groups: seq<seq<S>> := m_ppSamples[..m_nBatched], [];
      var c := Call(|ppSamples|, m_lBatchSize, m_bBatchExact, flag);
      ghost var last := LastTurn(c, |batch|);
      var iDone, iLost, nBatches, turn := 0, 0, 0, 0;
      AtFirstTurn(batch, ppSamples, c);
      NothingMade(answers);
      hide AtTurn, Chunks, Concat, Calls, Lost, Sticky, Made, CanReturn, Call.Head, Call.Body;
      ghost var rest := batch;
      while iDone < |ppSamples| || (m_nBatched != 0 && c.Head(turn))
        invariant Valid() && m_ppSamples[..m_nBatched] == rest && iDone <= |ppSamples| && nBatches == |groups|
        invariant AtTurn(batch, ppSamples, c, turn, iDone, groups, rest)
        invariant turn <= last && (iDone < |ppSamples| ==> turn == iDone)
        invariant Made(groups, answers, old(released), old(delivered), iLost) && iLost == Lost(groups, answers)
        decreases last - turn
      {
        // without a sample to take, the turn does nothing
        if iDone < |ppSamples| {
          AtNextTurn(batch, ppSamples, c, turn, iDone, groups, rest);
          nBatches, iLost, groups, rest :=
            BatchSample(ppSamples[iDone], answers, nBatches, iLost, groups, rest, old(released), old(delivered));
          iDone := iDone + 1;
        } else {
          AtIdleTurn(batch, ppSamples, c, turn, groups, rest);
        }
        turn := turn + 1;
      }
      AtLastTurn(batch, ppSamples, c, turn, groups, rest);
      nSamplesProcessed := iDone - iLost;
      if nSamplesProcessed < 0 {
        nSamplesProcessed := 0;
      }
    }

    /** One turn: the sample joins the batch, which is sent when it is full. */
    method BatchSample(pSample: S, answers: nat -> Answer, nBatches: nat, iLost: int, ghost groups: seq<seq<S>>,
                       ghost rest: seq<S>, ghost released0: seq<S>, ghost delivered0: seq<seq<S>>)
      returns (nBatches': nat, iLost': int, ghost groups': seq<seq<S>>, ghost rest': seq<S>)
      requires Valid() && m_ppSamples[..m_nBatched] == rest && nBatches == |groups|
      requires Made(groups, answers, released0, delivered0, iLost)
      modifies this`m_nBatched, this`m_hr, this`released, this`delivered, m_ppSamples
      ensures Valid() && m_ppSamples[..m_nBatched] == rest' && nBatches' == |groups'|
      ensures Made(groups', answers, released0, delivered0, iLost') && iLost' == Lost(groups', answers)
      ensures var batch := rest + [pSample];
              && groups' == (if |batch| == m_lBatchSize then groups + [batch] else groups)
              && rest' == if |batch| == m_lBatchSize then [] else batch
    {
      hide Concat, Calls, Lost, Sticky;
      nBatches', iLost', groups', rest' := nBatches, iLost, groups, rest + [pSample];
      m_ppSamples[m_nBatched] := pSample;
      m_nBatched := m_nBatched + 1;
      assert m_ppSamples[..m_nBatched] == rest';
      if m_nBatched == m_lBatchSize {
        groups', nBatches', rest' := groups + [rest'], nBatches + 1, [];
        iLost' := SendBatch(answers, nBatches, iLost, groups, released0, delivered0);
      }
    }

    /** The same loop without samples: it goes on until the batch is sent or m_bSendAnyway is found clear. */
    method ForceBatch(flag: nat -> bool, answers: nat -> Answer) returns (nSamplesProcessed: int)
      requires Valid() && m_hr == S_OK && CanReturn(DirectCall(0, flag), m_nBatched)
      modifies this`m_nBatched, this`m_hr, this`released, this`delivered
      ensures Valid()
      ensures var forced := Forced(DirectCall(0, flag));
              var (groups, rest) := Groups(old(m_ppSamples[..m_nBatched]), [], forced, m_lBatchSize);
              && m_ppSamples[..m_nBatched] == rest
              && Made(groups, answers, old(released), old(delivered), Lost(groups, answers))
              && nSamplesProcessed == Max0(0 - Lost(groups, answers))
    {
      ghost var batch, groups: seq<seq<S>> := m_ppSamples[..m_nBatched], [];
      var c := Call(0, m_lBatchSize, m_bBatchExact, flag);
      ghost var last := LastForced(c);
      var iLost, turn := 0, 0;
      NothingMade(answers);
      NothingForced(c, batch);
      hide Call.Head, Call.Body, Concat, Calls, Lost, Sticky, Made, Forced, Forcing, CanReturn, LetsGo;
      while m_nBatched != 0 && c.Head(turn)
        invariant Valid() && (m_nBatched == 0 || (m_nBatched == |batch| && turn <= last))
        invariant groups == (if m_nBatched == |batch| then [] else [batch])
        invariant Forcing(c, turn, groups != [])
        invariant Made(groups, answers, old(released), old(delivered), iLost) && iLost == Lost(groups, answers)
        decreases m_nBatched, if turn <= last then last - turn else 0
      {
        ForcedOrHeld(c, turn);
        if c.Body(turn) || !m_bBatchExact {
          iLost := SendBatch(answers, 0, iLost, [], old(released), old(delivered));
          assert [] + [batch] == [batch];
          groups := [batch];
        }
        turn := turn + 1;
      }
      ForcedIff(c, turn, groups != []);
      nSamplesProcessed := 0 - iLost;
      if nSamplesProcessed < 0 {
        nSamplesProcessed := 0;
      }
    }

    /** End of stream without a thread: a batch is sent ahead of it only under exact batching, and only if m_bSendAnyway
        is still set when it is looked at.  Otherwise the end of stream overtakes the batched samples. */
    method EOSDirect(flag: nat -> bool, answers: nat -> Answer) returns (sent: bool)
      requires Valid() && (m_bBatchExact && m_hr == S_OK ==> CanReturn(DirectCall(0, flag), m_nBatched))
      modifies this`m_nBatched, this`m_bFlushed, this`m_hr, this`released, this`delivered, m_ppSamples
      ensures Valid() && sent == (m_hr == S_OK)
      ensures old(m_hr) != S_OK ==> m_hr == old(m_hr) && State().batch == old(State()).batch
      ensures sent ==> !m_bFlushed
      ensures sent ==> (m_nBatched == 0 <==> old(m_nBatched) == 0 || (m_bBatchExact && Forced(DirectCall(0, flag))))
      ensures sent && old(m_nBatched) > 0 && m_nBatched == 0 ==> delivered == old(delivered) + [old(State()).batch]
    {
      if m_bBatchExact {
        ghost var groups := Groups(m_ppSamples[..m_nBatched], [], Forced(DirectCall(0, flag)), m_lBatchSize).0;
        var _, _ := ReceiveDirect([], flag, answers);
        if old(m_hr) == S_OK && m_hr == S_OK {
          AllCalled(groups, answers);
        }
      }
      if m_hr == S_OK {
        m_bFlushed := false;
        sent := true;
      } else {
        sent := false;
      }
    }

    /** The batch goes downstream unless there has been an error; it is released in any case. */
    method SendBatch(answers: nat -> Answer, nBatches: nat, iLost: int,
                     ghost groups: seq<seq<S>>, ghost released0: seq<S>, ghost delivered0: seq<seq<S>>)
      returns (iLost': int)
      requires 0 < m_nBatched <= m_ppSamples.Length && nBatches == |groups|
      requires Made(groups, answers, released0, delivered0, iLost)
      modifies this`m_nBatched, this`m_hr, this`released, this`delivered
      ensures m_nBatched == 0
      ensures Made(groups + [old(m_ppSamples[..m_nBatched])], answers, released0, delivered0, iLost')
      ensures iLost' == Lost(groups + [old(m_ppSamples[..m_nBatched])], answers)
    {
      ghost var batch := m_ppSamples[..m_nBatched];
      ghost var all := groups + [batch];
      assert all[..|groups|] == groups;
      ConcatNext(groups, batch);
      var nDone := 0;
      if m_hr == S_OK {
        delivered := delivered + [batch];
        m_hr := answers(nBatches).hr;
        nDone := answers(nBatches).nDone;
      }
      iLost' := iLost + m_nBatched - nDone;
      ReleaseBatch();
      Associates(released0, Concat(groups), batch);
    }
  }
}
