/**
 CPullPin::Process (pullpin.cpp 335-566, pullpin.h 114-122): a byte range is cut into requests that are kept
 two deep at the reader, collected, clipped and delivered.  Positions count 10_000_000 units to the byte.
 */
module PullPin {
  import opened Words
  import opened BitMath
  import opened HResults

  // ---------- alignment ----------

  /** ll & ~(lAlign - 1), the mask being a LONG that is widened. */
  function AlignDown(ll: I64, lAlign: I32): I64 {
    ToI64(And(ToU64(ll), ToU64(ToI32(0 - lAlign))))
  }

  function AlignUp(ll: I64, lAlign: I32): I64 {
    AlignDown(ToI64(ll + (lAlign - 1)), lAlign)
  }

  /** For a power of two the mask rounds down to a multiple. */
  lemma AlignDownRounds(ll: I64, lAlign: I32)
    requires ll >= 0 && IsPow2(lAlign)
    ensures AlignDown(ll, lAlign) == ll - ll % lAlign
  {
    var k := Log2(lAlign);
    assert lAlign >= 1 && lAlign == Pow2(k);
    hide And, Pow2, ToI64, IsPow2;
    MaskIs(ll, lAlign);
    HighPart(ll, lAlign, k);
  }

  lemma HighPart(ll: I64, lAlign: I32, k: nat)
    requires ll >= 0 && lAlign >= 1 && lAlign == Pow2(k)
    ensures ToI64(And(ll, 0x1_0000_0000_0000_0000 - lAlign)) == ll - ll % lAlign
  {
    hide *;
    RoundedDown(ll, lAlign);
    Pow2Values();
    if k > 64 {
      Pow2Monotone(64, k);
    }
    AndHighMask(ll, 64, k);
    SmallIsSame(ll - ll % lAlign);
  }

  lemma MaskIs(ll: I64, lAlign: I32)
    requires ll >= 0 && lAlign >= 1
    ensures ToU64(ToI32(0 - lAlign)) == 0x1_0000_0000_0000_0000 - lAlign && ToU64(ll) == ll
  {
  }

  lemma SmallIsSame(x: I64)
    ensures ToI64(x) == x
  {
  }

  ghost predicate Multiple(x: int, a: int) {
    exists k: int {:trigger k * a} :: x == k * a
  }

  lemma RoundedDown(n: nat, a: nat)
    requires a > 0
    ensures 0 <= n - n % a <= n < n - n % a + a && Multiple(n - n % a, a)
  {
    var q := n / a;
    MulMonotone(0, q, a);
    assert n - n % a == q * a;
  }

  lemma AlignDownBounds(ll: I64, lAlign: I32)
    requires 0 <= ll && IsPow2(lAlign)
    ensures AlignDown(ll, lAlign) <= ll < AlignDown(ll, lAlign) + lAlign && Multiple(AlignDown(ll, lAlign), lAlign)
  {
    assert lAlign >= 1;
    hide *;
    AlignDownRounds(ll, lAlign);
    RoundedDown(ll, lAlign);
  }

  lemma AlignDownPositive(ll: I64, lAlign: I32)
    requires 0 <= ll && IsPow2(lAlign)
    ensures AlignDown(ll, lAlign) >= 0
  {
    assert lAlign >= 1;
    hide *;
    AlignDownRounds(ll, lAlign);
    RoundedDown(ll, lAlign);
  }

  /** The multiples of the alignment around a position. */
  lemma AlignBounds(ll: I64, lAlign: I32)
    requires 0 <= ll <= 0x7FFF_FFFF_0000_0000 && IsPow2(lAlign)
    ensures AlignDown(ll, lAlign) <= ll < AlignDown(ll, lAlign) + lAlign
    ensures AlignUp(ll, lAlign) - lAlign < ll <= AlignUp(ll, lAlign)
    ensures Multiple(AlignDown(ll, lAlign), lAlign) && Multiple(AlignUp(ll, lAlign), lAlign)
  {
    assert lAlign >= 1;
    var up: I64 := ll + (lAlign - 1);
    assert AlignUp(ll, lAlign) == AlignDown(ToI64(up), lAlign);
    hide *;
    AlignDownBounds(ll, lAlign);
    SmallIsSame(up);
    AlignDownBounds(up, lAlign);
  }

  // ---------- intervals ----------

  datatype Interval = Interval(t1: int, t2: int)

  /** Non-empty intervals, each starting where the one before ends, from `from` to `to`. */
  ghost predicate Tiles(rs: seq<Interval>, from: int, to: int) {
    && (if rs == [] then from == to else rs[0].t1 == from && rs[|rs| - 1].t2 == to)
    && (forall i :: 0 <= i < |rs| ==> rs[i].t1 < rs[i].t2)
    && (forall i :: 0 < i < |rs| ==> rs[i - 1].t2 == rs[i].t1)
  }

  lemma TilesNext(rs: seq<Interval>, from: int, mid: int, to: int)
    requires Tiles(rs, from, mid) && mid < to
    ensures Tiles(rs + [Interval(mid, to)], from, to)
  {
  }

  /** Tiles lie in their range. */
  lemma {:induction false} TilesWithin(rs: seq<Interval>, from: int, to: int, i: nat)
    requires Tiles(rs, from, to) && i < |rs|
    ensures from <= rs[i].t1 < rs[i].t2 <= to
    decreases |rs|
  {
    var last := |rs| - 1;
    if last > 0 {
      var front := rs[..last];
      assert Tiles(front, from, rs[last].t1);
      TilesWithin(front, from, rs[last].t1, if i < last then i else last - 1);
    }
  }

  /** DeliverSample: clipped to the stop, relative to the start. */
  function Clip(r: Interval, tStart: int, tStop: int): Interval {
    Interval(r.t1 - tStart, Min(r.t2, tStop) - tStart)
  }

  function ClipAll(rs: seq<Interval>, tStart: int, tStop: int): (cs: seq<Interval>)
    ensures |cs| == |rs| && forall i :: 0 <= i < |rs| ==> cs[i] == Clip(rs[i], tStart, tStop)
  {
    seq(|rs|, i requires 0 <= i < |rs| => Clip(rs[i], tStart, tStop))
  }

  /** One more request: it is due, and outstanding. */
  lemma ClipAdded(rs: seq<Interval>, r: Interval, tStart: int, tStop: int)
    ensures multiset(ClipAll(rs + [r], tStart, tStop))
            == multiset(ClipAll(rs, tStart, tStop)) + multiset{Clip(r, tStart, tStop)}
  {
    assert ClipAll(rs + [r], tStart, tStop) == ClipAll(rs, tStart, tStop) + [Clip(r, tStart, tStop)];
  }

  function Without(rs: seq<Interval>, k: nat): (r: seq<Interval>)
    requires k < |rs|
    ensures |r| == |rs| - 1
  {
    rs[..k] + rs[k + 1..]
  }

  lemma ClipRemoved(rs: seq<Interval>, k: nat, tStart: int, tStop: int)
    requires k < |rs|
    ensures multiset(ClipAll(rs, tStart, tStop)) ==
              multiset{Clip(rs[k], tStart, tStop)} + multiset(ClipAll(Without(rs, k), tStart, tStop))
  {
    var cs := ClipAll(rs, tStart, tStop);
    assert ClipAll(Without(rs, k), tStart, tStop) == cs[..k] + cs[k + 1..];
    assert cs == cs[..k] + [cs[k]] + cs[k + 1..];
  }

  lemma Moved<T>(a: multiset<T>, x: multiset<T>, b: multiset<T>)
    ensures a + (x + b) == (a + x) + b && (a + b) + x == a + (b + x)
  {
  }

  /** Requests on a grid tile up to the aligned stop; what is delivered of them tiles up to the stop itself. */
  lemma DeliveryCovers(rs: seq<Interval>, tStart: int, tStop: int, tAlignStop: int, grid: nat)
    requires Tiles(rs, tStart, tAlignStop) && OnGrid(rs, grid) && grid > 0
    requires Multiple(tAlignStop, grid) && tAlignStop - grid < tStop
    ensures Tiles(ClipAll(rs, tStart, tStop), 0, Min(tAlignStop, tStop) - tStart) || (rs == [] && tStart == tAlignStop)
  {
    forall i | 0 <= i < |rs|
      ensures rs[i].t1 < tStop && (i + 1 < |rs| ==> rs[i].t2 < tStop)
    {
      TilesWithin(rs, tStart, tAlignStop, i);
      BelowOnGrid(rs[i].t1, tAlignStop, grid);
      if i + 1 < |rs| {
        TilesWithin(rs, tStart, tAlignStop, i + 1);
        BelowOnGrid(rs[i + 1].t1, tAlignStop, grid);
      }
    }
  }

  ghost predicate OnGrid(rs: seq<Interval>, grid: int) {
    forall i :: 0 <= i < |rs| ==> Multiple(rs[i].t1, grid)
  }

  lemma BelowOnGrid(x: int, y: int, grid: nat)
    requires Multiple(x, grid) && Multiple(y, grid) && x < y
    ensures x <= y - grid
  {
    var j: int :| x == j * grid;
    var k: int :| y == k * grid;
    if j >= k {
      MulMonotone(k, j, grid);
    } else {
      MulMonotone(j + 1, k, grid);
      assert (j + 1) * grid == j * grid + grid;
    }
  }

  lemma GridSum(x: int, n: nat, lAlign: nat)
    requires lAlign > 0 && Multiple(x, lAlign * 10_000_000) && n % lAlign == 0
    ensures Multiple(x + n * 10_000_000, lAlign * 10_000_000)
  {
    var k: int :| x == k * (lAlign * 10_000_000);
    var m := n / lAlign;
    assert n == m * lAlign;
    SumOfMultiples(k, m, lAlign);
  }

  lemma SumOfMultiples(k: int, m: int, a: int)
    ensures k * (a * 10_000_000) + m * a * 10_000_000 == (k + m) * (a * 10_000_000)
  {
  }

  lemma Scaled(x: int, lAlign: nat)
    requires Multiple(x, lAlign)
    ensures Multiple(x * 10_000_000, lAlign * 10_000_000)
  {
    var k: int :| x == k * lAlign;
    assert k * lAlign * 10_000_000 == k * (lAlign * 10_000_000);
  }

  function Also(rs: seq<Interval>, r: Interval): seq<Interval> {
    rs + [r]
  }

  /** Where the pull has got to. */
  datatype Span = Span(tStart: int, tCurrent: int, tStop: int, grid: int)

  /** The requests tile the range so far on the grid, and each is delivered or outstanding. */
  ghost predicate Progress(requested: seq<Interval>, outstanding: seq<Interval>, delivered: seq<Interval>, s: Span) {
    && Tiles(requested, s.tStart, s.tCurrent) && OnGrid(requested, s.grid)
    && Multiple(s.tCurrent, s.grid)
    && multiset(ClipAll(requested, s.tStart, s.tStop))
        == multiset(delivered) + multiset(ClipAll(outstanding, s.tStart, s.tStop))
  }

  lemma ProgressByRequest(requested: seq<Interval>, outstanding: seq<Interval>, delivered: seq<Interval>, s: Span,
      tNext: int)
    requires Progress(requested, outstanding, delivered, s) && s.tCurrent < tNext && Multiple(tNext, s.grid)
    ensures var r := Interval(s.tCurrent, tNext);
            Progress(requested + [r], outstanding + [r], delivered, s.(tCurrent := tNext))
  {
    var r := Interval(s.tCurrent, tNext);
    TilesNext(requested, s.tStart, s.tCurrent, tNext);
    hide Tiles;
    assert OnGrid(requested + [r], s.grid);
    hide Multiple, OnGrid;
    ClipAdded(requested, r, s.tStart, s.tStop);
    ClipAdded(outstanding, r, s.tStart, s.tStop);
    hide ClipAll;
    Moved(multiset(delivered), multiset{Clip(r, s.tStart, s.tStop)}, multiset(ClipAll(outstanding, s.tStart, s.tStop)));
  }

  lemma ProgressByDelivery(requested: seq<Interval>, outstanding: seq<Interval>, delivered: seq<Interval>, s: Span,
      k: nat)
    requires Progress(requested, outstanding, delivered, s) && k < |outstanding|
    ensures Progress(requested, Without(outstanding, k),
            Also(delivered, Clip(outstanding[k], s.tStart, s.tStop)), s)
  {
    hide Tiles, Multiple, OnGrid;
    ClipRemoved(outstanding, k, s.tStart, s.tStop);
    hide ClipAll;
    var rest := Without(outstanding, k);
    Moved(multiset(delivered), multiset{Clip(outstanding[k], s.tStart, s.tStop)},
        multiset(ClipAll(rest, s.tStart, s.tStop)));
  }

  /** Requested and delivered at once, while nothing else is outstanding. */
  lemma ProgressByRead(requested: seq<Interval>, delivered: seq<Interval>, s: Span, tNext: int)
    requires Progress(requested, [], delivered, s) && s.tCurrent < tNext && Multiple(tNext, s.grid)
    ensures var r := Interval(s.tCurrent, tNext);
            Progress(requested + [r], [], Also(delivered, Clip(r, s.tStart, s.tStop)), s.(tCurrent := tNext))
  {
    var r := Interval(s.tCurrent, tNext);
    ProgressByRequest(requested, [], delivered, s, tNext);
    assert [] + [r] == [r] && Without([r], 0) == [];
    hide Progress;
    ProgressByDelivery(requested + [r], [r], delivered, s.(tCurrent := tNext), 0);
  }

  // ---------- the worker ----------

  /** An aligned end of the range is at most this; another buffer past it is still a LONGLONG. */
  const LAST: int := 0x7F40_0000_0000_0000

  /** The greatest power of two in a LONG. */
  lemma PowerOfLong(lAlign: I32)
    requires IsPow2(lAlign)
    ensures lAlign <= 0x4000_0000
  {
    var k := Log2(lAlign);
    Square(2, 4);
    Square(4, 16);
    Square(8, 256);
    hide IsPow2;
    Pow2Sum(16, 14);
    if k > 30 {
      Pow2Monotone(31, k);
    } else {
      Pow2Monotone(k, 30);
    }
  }

  /** What the allocator, the reader, the downstream filter and the command channel answer, call by call. */
  datatype Environment = Environment(
    getBuffer: nat -> HRESULT, size: nat -> nat, request: nat -> HRESULT, wait: nat -> HRESULT, pick: nat -> nat,
    syncRead: nat -> HRESULT, receive: nat -> HRESULT, command: nat -> bool)

  /** No allocation, read or delivery fails, the downstream filter takes every sample, and no command arrives. */
  ghost predicate Smooth(env: Environment) {
    forall n: nat ::
      && !env.getBuffer(n).Failed() && !env.request(n).Failed() && !env.wait(n).Failed() && !env.syncRead(n).Failed()
      && env.receive(n) == S_OK && !env.command(n)
  }

  /** One question to the environment; n counts the questions of its kind. */
  datatype Question = GetBuffer(n: nat) | Request(n: nat) | Read(n: nat) | Wait(n: nat) | Receive(n: nat)
    | Command(n: nat)

  /** Answers on which the pull is to go no further: a failure, any answer but S_OK from downstream, a command. */
  predicate Stops(env: Environment, q: Question) {
    match q
    case GetBuffer(n) => env.getBuffer(n).Failed()
    case Request(n) => env.request(n).Failed()
    case Read(n) => env.syncRead(n).Failed()
    case Wait(n) => env.wait(n).Failed()
    case Receive(n) => env.receive(n) != S_OK
    case Command(n) => env.command(n)
  }

  /** No answer so far stops the pull. */
  ghost predicate GoesOn(env: Environment, asked: seq<Question>) {
    forall i :: 0 <= i < |asked| ==> !Stops(env, asked[i])
  }

  /** The last answer stops it, and no other. */
  ghost predicate Stopped(env: Environment, asked: seq<Question>) {
    asked != [] && Stops(env, asked[|asked| - 1]) && GoesOn(env, asked[..|asked| - 1])
  }

  /** The last answer is downstream's to a sample that it took. */
  ghost predicate Taken(env: Environment, asked: seq<Question>) {
    asked != [] && asked[|asked| - 1].Receive? && !env.receive(asked[|asked| - 1].n).Failed()
  }

  /** Among the questions are this many commands and deliveries. */
  ghost predicate Kept(asked: seq<Question>, commands: nat, receives: nat) {
    && (forall k :: 0 <= k < commands ==> Command(k) in asked)
    && (forall k :: 0 <= k < receives ==> Receive(k) in asked)
  }

  /** The pull so far: nothing has stopped it, or the last answer has; `taken` says whether that was downstream's to a
      sample that it took. */
  ghost predicate Going(env: Environment, asked: seq<Question>, commands: nat, receives: nat) {
    GoesOn(env, asked) && Kept(asked, commands, receives)
  }

  ghost predicate Halted(env: Environment, asked: seq<Question>, commands: nat, receives: nat, taken: bool) {
    && Stopped(env, asked) && !GoesOn(env, asked) && Kept(asked, commands, receives)
    && (Taken(env, asked) <==> taken)
  }

  lemma SmoothGoesOn(env: Environment, asked: seq<Question>)
    requires Smooth(env)
    ensures GoesOn(env, asked)
  {
  }

  lemma SuccessIsNoFailure()
    ensures !S_OK.Failed()
  {
  }

  ghost predicate Begun(asked: seq<Question>) {
    asked != [] && asked[0] == Command(0)
  }

  lemma NothingAsked(env: Environment)
    ensures Going(env, [], 0, 0)
  {
  }

  lemma Asks(env: Environment, asked: seq<Question>, commands: nat, receives: nat, q: Question)
    requires Going(env, asked, commands, receives)
    requires q.Command? ==> q.n == commands
    requires q.Receive? ==> q.n == receives
    ensures var asked', commands', receives' := asked + [q], if q.Command? then commands + 1 else commands,
                if q.Receive? then receives + 1 else receives;
            if Stops(env, q) then
              Halted(env, asked', commands', receives', q.Receive? && !env.receive(q.n).Failed())
            else Going(env, asked', commands', receives')
  {
    var asked' := asked + [q];
    assert asked'[..|asked|] == asked && asked'[|asked|] == q;
    assert forall p :: p in asked' <==> p in asked || p == q;
  }

  lemma OneEnd(env: Environment, asked: seq<Question>, commands: nat, receives: nat)
    ensures var going := Going(env, asked, commands, receives);
            var refused := Halted(env, asked, commands, receives, true);
            var halted := Halted(env, asked, commands, receives, false);
            && (going ==> GoesOn(env, asked) && Kept(asked, commands, receives) && !refused)
            && (refused || halted ==> !GoesOn(env, asked) && Stopped(env, asked) && Kept(asked, commands, receives))
            && (halted ==> !refused)
  {
  }

  /** After a pull that nothing stopped, or only the last delivery, no command has come, and no other delivery was
      refused. */
  lemma NoneStopped(env: Environment, asked: seq<Question>, commands: nat, receives: nat)
    requires Going(env, asked, commands, receives) || Halted(env, asked, commands, receives, true)
    ensures forall k :: 0 <= k < commands ==> !env.command(k)
    ensures forall k :: 0 <= k < receives ==>
              env.receive(k) == S_OK
              || (Halted(env, asked, commands, receives, true) && asked[|asked| - 1] == Receive(k))
  {
    forall q | q in asked
      ensures !Stops(env, q) || (Taken(env, asked) && q == asked[|asked| - 1])
    {
      var i :| 0 <= i < |asked| && asked[i] == q;
      if !GoesOn(env, asked) && i < |asked| - 1 {
        assert asked[..|asked| - 1][i] == q;
      }
    }
    forall k | 0 <= k < commands
      ensures !env.command(k)
    {
      assert Command(k) in asked;
    }
    forall k | 0 <= k < receives && env.receive(k) != S_OK
      ensures Taken(env, asked) && asked[|asked| - 1] == Receive(k)
    {
      assert Receive(k) in asked && Stops(env, Receive(k));
    }
  }

  ghost predicate GoodSizes(env: Environment, lAlign: int)
    requires lAlign > 0
  {
    forall n: nat :: 0 < env.size(n) <= 0x7FFF_FFFF && env.size(n) % lAlign == 0
  }

  class CPullPin {
    const env: Environment
    const m_tStart: I64
    const m_tStop: I64
    const m_tDuration: I64
    const m_bSync: bool
    const m_cBuffers: int
    const m_cbAlign: I32
    var outstanding: seq<Interval>      // requested from the reader, not collected
    var buffers: nat                    // calls made so far
    var waits: nat
    var receives: nat
    var commands: nat
    var endOfStream: bool
    ghost var requested: seq<Interval>
    ghost var delivered: seq<Interval>
    ghost var peak: nat                 // most requests ever outstanding
    ghost var asked: seq<Question>      // every question to the environment, in order

    constructor (env: Environment, tStart: I64, tStop: I64, tDuration: I64, bSync: bool, cBuffers: int, cbAlign: I32)
      ensures this.env == env && m_tStart == tStart && m_tStop == tStop && m_tDuration == tDuration && m_bSync == bSync
      ensures m_cBuffers == cBuffers && m_cbAlign == cbAlign
      ensures outstanding == requested == delivered == [] && peak == 0 && asked == [] && !endOfStream
    {
      this.env, m_tStart, m_tStop, m_tDuration := env, tStart, tStop, tDuration;
      m_bSync, m_cBuffers, m_cbAlign := bSync, cBuffers, cbAlign;
      outstanding, buffers, waits, receives, commands, endOfStream := [], 0, 0, 0, 0, false;
      requested, delivered, peak, asked := [], [], 0, [];
    }

    /** Non-negative positions; the end of the range leaves room for an alignment and a buffer in 64 bits. */
    ghost predicate Positions()
    {
      && 0 <= m_tStart && 0 <= m_tDuration && Stop() <= 0x7F00_0000_0000_0000
      && IsPow2(m_cbAlign) && m_cbAlign > 0 && GoodSizes(env, m_cbAlign)
    }

    ghost function Grid(): int { m_cbAlign * 10_000_000 }

    ghost function Start(): int
      requires Positions()
    {
      AlignDown(m_tStart / 10_000_000, m_cbAlign) * 10_000_000
    }

    ghost function Stop(): int { Min(m_tStop, m_tDuration) }

    ghost function AlignStop(): int
      requires Positions() && m_tStart < m_tStop
    {
      AlignUp(Stop() / 10_000_000, m_cbAlign) * 10_000_000
    }

    ghost function Depth(): nat { if m_cBuffers > 1 then 2 else 1 }

    /** Nothing has stopped the pull, or the last answer has. */
    ghost predicate Runs()
      reads this`asked, this`commands, this`receives
    {
      Going(env, asked, commands, receives)
    }

    ghost predicate Ends(taken: bool)
      reads this`asked, this`commands, this`receives
    {
      Halted(env, asked, commands, receives, taken)
    }

    /** The last delivery of an overlapped pull, when downstream takes the sample but wants no more. */
    ghost predicate LastRefusal()
      reads this`asked, this`commands, this`receives, this`outstanding
    {
      Ends(true) && !m_bSync && m_cBuffers > 1 && outstanding == []
    }

    ghost predicate BrokenOff()
      reads this`asked, this`commands, this`receives, this`outstanding
    {
      Ends(false) || (Ends(true) && (m_bSync || m_cBuffers <= 1 || outstanding != []))
    }

    /** Two requests were out at once, unless one covers the range. */
    ghost predicate Overlapped()
      reads this`requested, this`peak
    {
      !m_bSync && m_cBuffers > 1 && |requested| > 1 ==> peak == 2
    }

    ghost predicate Pulled(tStart: int, tCurrent: int, tStop: int)
      reads this`requested, this`outstanding, this`delivered, this`peak
    {
      && Progress(requested, outstanding, delivered, Span(tStart, tCurrent, tStop, Grid()))
      && |outstanding| <= peak <= Depth()
    }

    /** Everything from the aligned start to the stop has been delivered, once, and nothing is left at the reader. */
    ghost predicate Complete()
      requires Positions() && m_tStart < m_tStop
      reads this
    {
      && outstanding == []
      && multiset(delivered) == multiset(ClipAll(requested, Start(), Stop()))
      && (if Start() < AlignStop() then
            Tiles(requested, Start(), AlignStop())
                && Tiles(ClipAll(requested, Start(), Stop()), 0, Min(AlignStop(), Stop()) - Start())
          else requested == [])
    }

    // what the allocator, the reader and the downstream filter are asked

    method GetBuffer(n: nat) returns (hr: HRESULT)
      requires Runs()
      modifies this`asked
      ensures Begun(old(asked)) ==> Begun(asked)
      ensures if hr.Failed() then Ends(false) else Runs()
    {
      hr := env.getBuffer(n);
      Asks(env, asked, commands, receives, Question.GetBuffer(n));
      asked := asked + [Question.GetBuffer(n)];
    }

    method RequestSample(n: nat) returns (hr: HRESULT)
      requires Runs()
      modifies this`asked
      ensures Begun(old(asked)) ==> Begun(asked)
      ensures if hr.Failed() then Ends(false) else Runs()
    {
      hr := env.request(n);
      Asks(env, asked, commands, receives, Request(n));
      asked := asked + [Request(n)];
    }

    method WaitForNext(n: nat) returns (hr: HRESULT)
      requires Runs()
      modifies this`asked
      ensures Begun(old(asked)) ==> Begun(asked)
      ensures if hr.Failed() then Ends(false) else Runs()
    {
      hr := env.wait(n);
      Asks(env, asked, commands, receives, Wait(n));
      asked := asked + [Wait(n)];
    }

    method SyncReadAligned(n: nat) returns (hr: HRESULT)
      requires Runs()
      modifies this`asked
      ensures Begun(old(asked)) ==> Begun(asked)
      ensures if hr.Failed() then Ends(false) else Runs()
    {
      hr := env.syncRead(n);
      Asks(env, asked, commands, receives, Read(n));
      asked := asked + [Read(n)];
    }

    method ReceiveNext() returns (hr: HRESULT)
      requires Runs()
      modifies this`receives, this`asked
      ensures Begun(old(asked)) ==> Begun(asked)
      ensures if hr == S_OK then Runs() else Ends(!hr.Failed())
    {
      hr := env.receive(receives);
      Asks(env, asked, commands, receives, Receive(receives));
      asked := asked + [Receive(receives)];
      receives := receives + 1;
    }

    /** A buffer's worth, or what is left of the range. */
    method PieceEnd(tCurrent: int, tAlignStop: int, n: nat) returns (tStopThis: I64)
      requires Positions() && 0 <= tCurrent < tAlignStop <= LAST && Multiple(tAlignStop, Grid())
               && Multiple(tCurrent, Grid())
      ensures tCurrent < tStopThis <= tAlignStop && Multiple(tStopThis, Grid())
    {
      tStopThis := ToI64(tCurrent + ToI64(env.size(n) * 10_000_000));
      GridSum(tCurrent, env.size(n), m_cbAlign);
      if tStopThis > tAlignStop {
        tStopThis := tAlignStop;
      }
    }

    /** The next piece of the range is requested; on success it is one more request outstanding. */
    method QueueSample(tCurrent: int, tAlignStop: int, ghost tStart: int, ghost tStop: int)
        returns (hr: HRESULT, tNext: int)
      requires Positions() && 0 <= tCurrent < tAlignStop <= LAST && Multiple(tAlignStop, Grid())
      requires Pulled(tStart, tCurrent, tStop) && |outstanding| < Depth()
      requires Runs()
      modifies this`buffers, this`outstanding, this`requested, this`peak, this`asked
      ensures peak <= Depth() && (Begun(old(asked)) ==> Begun(asked))
      ensures if hr.Failed() then Ends(false) else Runs()
      ensures old(peak) <= peak && if hr.Failed() then requested == old(requested) && peak == old(peak)
                                   else |requested| == |old(requested)| + 1
      ensures !hr.Failed() ==>
              Pulled(tStart, tNext, tStop) && tCurrent < tNext <= tAlignStop && |outstanding| == |old(outstanding)| + 1
    {
      var n := buffers;
      tNext := tCurrent;
      buffers := buffers + 1;
      hr := GetBuffer(n);
      if hr.Failed() {
        return;
      }
      tNext := PieceEnd(tCurrent, tAlignStop, n);
      var sample := Interval(tCurrent, tNext);
      hide IsPow2, GoodSizes, Multiple, Going, Halted, Begun, Progress;
      hr := RequestSample(n);
      if hr.Failed() {
        return;
      }
      NoteRequest(sample, tStart, tStop);
    }

    method NoteRequest(sample: Interval, ghost tStart: int, ghost tStop: int)
      requires Pulled(tStart, sample.t1, tStop) && |outstanding| < Depth()
      requires sample.t1 < sample.t2 && Multiple(sample.t2, Grid())
      modifies this`outstanding, this`requested, this`peak
      ensures Pulled(tStart, sample.t2, tStop) && old(peak) <= peak
      ensures |outstanding| == |old(outstanding)| + 1 && |requested| == |old(requested)| + 1
    {
      hide Progress, Multiple;
      ProgressByRequest(requested, outstanding, delivered, Span(tStart, sample.t1, tStop, Grid()), sample.t2);
      outstanding := outstanding + [sample];
      requested := requested + [sample];
      peak := if |outstanding| > peak then |outstanding| else peak;
    }

    /** One of the outstanding requests is done, and due to be delivered. */
    method TakeUp(n: nat, ghost tStart: int, ghost tStop: int, ghost tCurrent: int) returns (sample: Interval)
      requires Pulled(tStart, tCurrent, tStop) && outstanding != []
      modifies this`outstanding
      ensures |outstanding| == |old(outstanding)| - 1
      ensures Progress(requested, outstanding, Also(delivered, Clip(sample, tStart, tStop)),
                       Span(tStart, tCurrent, tStop, Grid()))
    {
      var k := env.pick(n) % |outstanding|;
      sample := outstanding[k];
      hide Progress, Without, Clip, Also;
      ProgressByDelivery(requested, outstanding, delivered, Span(tStart, tCurrent, tStop, Grid()), k);
      outstanding := Without(outstanding, k);
    }

    /** The reader hands back some completed request, and it is delivered. */
    method CollectAndDeliver(tStart: int, tStop: int, ghost tCurrent: int) returns (hr: HRESULT)
      requires Pulled(tStart, tCurrent, tStop) && outstanding != []
      requires Runs()
      modifies this`waits, this`receives, this`outstanding, this`delivered, this`asked
      ensures if hr == S_OK then Runs() else Ends(!hr.Failed())
      ensures Begun(old(asked)) ==> Begun(asked)
      ensures |outstanding| <= |old(outstanding)|
      ensures !hr.Failed() ==> Pulled(tStart, tCurrent, tStop) && |outstanding| == |old(outstanding)| - 1
    {
      SuccessIsNoFailure();
      hide Progress, Going, Halted, Begun, Clip, Also, Grid, Depth, HRESULT.Failed;
      var n := waits;
      waits := waits + 1;
      hr := WaitForNext(n);
      if !hr.Failed() {
        var sample := TakeUp(n, tStart, tStop, tCurrent);
        hr := DeliverSample(sample, tStart, tStop);
      }
    }

    /** Fix up a sample past the actual stop, and make it relative to the start. */
    method DeliverSample(sample: Interval, tStart: int, tStop: int) returns (hr: HRESULT)
      requires Runs()
      modifies this`receives, this`delivered, this`asked
      ensures delivered == Also(old(delivered), Clip(sample, tStart, tStop))
      ensures Begun(old(asked)) ==> Begun(asked)
      ensures if hr == S_OK then Runs() else Ends(!hr.Failed())
    {
      var t1, t2 := sample.t1, sample.t2;
      if t2 > tStop {
        t2 := tStop;
      }
      t1 := t1 - tStart;
      t2 := t2 - tStart;
      delivered := delivered + [Interval(t1, t2)];
      hr := ReceiveNext();
    }

    method CheckRequest() returns (another: bool)
      requires Runs()
      modifies this`commands, this`asked
      ensures old(asked) == [] && old(commands) == 0 ==> Begun(asked)
      ensures Begun(old(asked)) ==> Begun(asked)
      ensures if another then BrokenOff() else Runs()
    {
      another := env.command(commands);
      Asks(env, asked, commands, receives, Command(commands));
      asked := asked + [Command(commands)];
      commands := commands + 1;
    }

    /** The range, aligned outwards; the aligned start may lie behind the aligned stop. */
    method Range() returns (tStart: int, tStop: int, tAlignStop: int)
      requires Positions() && m_tStart < m_tStop
      ensures tStart == Start() && tStop == Stop() && tAlignStop == AlignStop()
    {
      tStart := ToI64(AlignDown(m_tStart / 10_000_000, m_cbAlign) * 10_000_000);
      tStop := m_tStop;
      if tStop > m_tDuration {
        tStop := m_tDuration;
      }
      tAlignStop := ToI64(AlignUp(tStop / 10_000_000, m_cbAlign) * 10_000_000);
      RangeInBounds();
      SmallIsSame(Start());
      SmallIsSame(AlignStop());
      hide IsPow2, AlignDown, AlignUp, ToI64, GoodSizes;
    }

    /** Pull the range.  A command, a failure, or a downstream filter that wants no more ends it there and then, without
        EndOfStream, but for one case: the very last sample of an overlapped pull.  When EndOfStream is called
        everything was delivered.  In any case no more than two requests, or one with a single buffer, are ever
        outstanding. */
    method Process()
      requires Positions() && requested == outstanding == delivered == [] && peak == 0 && !endOfStream
      requires asked == [] && commands == receives == 0
      modifies this
      ensures peak <= (if m_cBuffers > 1 then 2 else 1) && Overlapped()
      ensures GoesOn(env, asked) || Stopped(env, asked)
      ensures endOfStream <==> GoesOn(env, asked) || LastRefusal()
      ensures if m_tStart < m_tStop && Start() < AlignStop() then Begun(asked) else asked == []
      ensures Kept(asked, commands, receives)
      ensures endOfStream && m_tStart < m_tStop ==>
              && (forall k :: 0 <= k < commands ==> !env.command(k))
              && (forall k :: 0 <= k < receives ==>
                    env.receive(k) == S_OK || (LastRefusal() && asked[|asked| - 1] == Receive(k)))
      ensures endOfStream && m_tStart < m_tStop ==> Complete()
      ensures m_tStop <= m_tStart ==> endOfStream && requested == []
      ensures Smooth(env) ==> endOfStream
    {
      if m_tStop <= m_tStart {
        endOfStream := true;
        return;
      }
      var tStart, tStop, tAlignStop := Range();
      RangeOnGrid();
      hide Start, Stop, AlignStop, Positions, Multiple, Grid, Progress;
      hide Going, Halted, GoesOn, Stopped, Kept, Taken, Smooth;
      NothingAsked(env);
      var ok;
      if !m_bSync {
        ok := PullAsync(tStart, tStop, tAlignStop);
      } else {
        ok := PullSync(tStart, tStop, tAlignStop);
      }
      OneEnd(env, asked, commands, receives);
      if Smooth(env) {
        SmoothGoesOn(env, asked);
      }
      if ok {
        Finishes();
        NoneStopped(env, asked, commands, receives);
        hide Pulled, Complete;
        endOfStream := true;
      }
    }

    lemma Finishes()
      requires Positions() && m_tStart < m_tStop && outstanding == []
      requires Pulled(Start(), if Start() < AlignStop() then AlignStop() else Start(), Stop())
      requires Start() >= AlignStop() ==> requested == []
      ensures Complete()
    {
      RangeOnGrid();
      hide IsPow2, GoodSizes, Multiple, AlignDown, AlignUp, ClipAll, OnGrid;
      NothingToClip(Start(), Stop());
      if Start() < AlignStop() {
        DeliveryCovers(requested, Start(), Stop(), AlignStop(), Grid());
      }
    }

    lemma NothingPulled(tStart: int, tStop: int)
      requires requested == outstanding == delivered == [] && peak == 0 && Multiple(tStart, Grid())
      ensures Pulled(tStart, tStart, tStop) && Overlapped()
    {
      hide Multiple;
      NothingToClip(tStart, tStop);
    }

    lemma NothingToClip(tStart: int, tStop: int)
      ensures ClipAll([], tStart, tStop) == []
    {
    }

    lemma RangeInBounds()
      requires Positions() && m_tStart < m_tStop
      ensures 0 <= Start() <= m_tStart && 0 <= AlignStop() <= LAST
    {
      hide IsPow2, Multiple, AlignDown, AlignUp;
      PowerOfLong(m_cbAlign);
      AlignBounds(m_tStart / 10_000_000, m_cbAlign);
      AlignBounds(Stop() / 10_000_000, m_cbAlign);
      AlignDownPositive(m_tStart / 10_000_000, m_cbAlign);
    }

    lemma RangeOnGrid()
      requires Positions() && m_tStart < m_tStop
      ensures Multiple(Start(), Grid()) && Multiple(AlignStop(), Grid()) && AlignStop() - Grid() < Stop()
      ensures 0 <= Start() <= m_tStart && 0 <= AlignStop() <= LAST
    {
      RangeInBounds();
      hide IsPow2, Multiple, AlignDown, AlignUp;
      AlignBounds(m_tStart / 10_000_000, m_cbAlign);
      AlignBounds(Stop() / 10_000_000, m_cbAlign);
      Scaled(AlignDown(m_tStart / 10_000_000, m_cbAlign), m_cbAlign);
      Scaled(AlignUp(Stop() / 10_000_000, m_cbAlign), m_cbAlign);
    }

    /** Two requests are kept going if there are two buffers. */
    method PullAsync(tStart: int, tStop: int, tAlignStop: int) returns (ok: bool)
      requires Positions() && requested == outstanding == delivered == [] && peak == 0
      requires Multiple(tStart, Grid()) && Multiple(tAlignStop, Grid()) && 0 <= tStart && tAlignStop <= LAST
      requires asked == [] && commands == receives == 0 && !m_bSync
      modifies this`buffers, this`waits, this`receives, this`commands, this`outstanding, this`requested,
          this`delivered, this`peak, this`asked
      ensures peak <= Depth() && Overlapped()
      ensures if ok then Runs() || LastRefusal() else BrokenOff()
      ensures if tStart < tAlignStop then Begun(asked) else asked == []
      ensures ok ==> outstanding == [] && Pulled(tStart, if tStart < tAlignStop then tAlignStop else tStart, tStop)
      ensures ok && tStart >= tAlignStop ==> requested == []
    {
      var tCurrent := tStart;
      NothingAsked(env);
      NothingPulled(tStart, tStop);
      hide Going, Halted, Progress, Multiple, Positions, Pulled, Overlapped, LastRefusal, BrokenOff, Begun;
      while tCurrent < tAlignStop
        invariant Pulled(tStart, tCurrent, tStop) && outstanding == [] && Overlapped() && peak <= Depth()
        invariant Runs() || (tCurrent >= tAlignStop && LastRefusal())
        invariant if tCurrent == tStart then asked == [] && commands == 0 else Begun(asked)
        invariant tStart <= tCurrent && (tCurrent < tAlignStop ==> requested == [])
        invariant if tStart < tAlignStop then tCurrent <= tAlignStop else tCurrent == tStart && requested == []
      {
        // another command ends the pull without an end of stream
        var another := CheckRequest();
        if another {
          return false;
        }
        ok, tCurrent := Overlap(tCurrent, tStart, tStop, tAlignStop);
        if !ok {
          return;
        }
      }
      return true;
    }

    /** The first of two requests, then one more for each that is collected, and the last one. */
    method Overlap(tFirst: int, tStart: int, tStop: int, tAlignStop: int) returns (ok: bool, tCurrent: int)
      requires Positions() && Multiple(tAlignStop, Grid()) && 0 <= tFirst < tAlignStop <= LAST && !m_bSync
      requires Pulled(tStart, tFirst, tStop) && outstanding == requested == [] && Runs()
      modifies this`buffers, this`waits, this`receives, this`outstanding, this`requested, this`delivered, this`peak,
          this`asked
      ensures peak <= Depth() && Overlapped() && (Begun(old(asked)) ==> Begun(asked))
      ensures if ok then Runs() || LastRefusal() else BrokenOff()
      ensures ok ==> outstanding == [] && Pulled(tStart, tAlignStop, tStop) && tCurrent == tAlignStop
    {
      hide Going, Halted, Progress, Multiple;
      tCurrent := tFirst;
      var hr;
      if m_cBuffers > 1 {
        hr, tCurrent := QueueSample(tCurrent, tAlignStop, tStart, tStop);
        if hr.Failed() {
          return false, tCurrent;
        }
      }
      ok, tCurrent := QueueAndCollect(tCurrent, tStart, tStop, tAlignStop);
      if !ok {
        return;
      }
      if m_cBuffers > 1 {
        hr := CollectAndDeliver(tStart, tStop, tCurrent);
        if hr.Failed() {
          return false, tCurrent;
        }
      }
    }

    /** The inner loop: one more request, then collect one. */
    method QueueAndCollect(tFirst: int, tStart: int, tStop: int, tAlignStop: int) returns (ok: bool, tCurrent: int)
      requires Positions() && Multiple(tAlignStop, Grid()) && 0 <= tFirst <= tAlignStop <= LAST && !m_bSync
      requires Pulled(tStart, tFirst, tStop) && |outstanding| == Depth() - 1 == |requested| && Runs()
      modifies this`buffers, this`waits, this`receives, this`outstanding, this`requested, this`delivered, this`peak,
          this`asked
      ensures peak <= Depth() && Overlapped() && (Begun(old(asked)) ==> Begun(asked))
      ensures if ok then Runs() && Pulled(tStart, tAlignStop, tStop) && |outstanding| == Depth() - 1 else BrokenOff()
      ensures ok ==> tCurrent == tAlignStop
    {
      tCurrent := tFirst;
      hide Going, Halted, Progress, Multiple;
      while tCurrent < tAlignStop
        invariant Pulled(tStart, tCurrent, tStop) && |outstanding| == Depth() - 1
        invariant Runs() && (Begun(old(asked)) ==> Begun(asked)) && (|requested| == |outstanding| || peak >= Depth())
        invariant tFirst <= tCurrent <= tAlignStop
      {
        var hr;
        hr, tCurrent := QueueSample(tCurrent, tAlignStop, tStart, tStop);
        if hr.Failed() {
          return false, tCurrent;
        }
        hr := CollectAndDeliver(tStart, tStop, tCurrent);
        if hr != S_OK {
          return false, tCurrent;
        }
      }
      return true, tCurrent;
    }

    /** The synchronous version of the loop. */
    method PullSync(tStart: int, tStop: int, tAlignStop: int) returns (ok: bool)
      requires Positions() && requested == outstanding == delivered == [] && peak == 0
      requires Multiple(tStart, Grid()) && Multiple(tAlignStop, Grid()) && 0 <= tStart && tAlignStop <= LAST
      requires asked == [] && commands == receives == 0 && m_bSync
      modifies this`buffers, this`receives, this`commands, this`requested, this`delivered, this`asked
      ensures if ok then Runs() else BrokenOff()
      ensures if tStart < tAlignStop then Begun(asked) else asked == []
      ensures ok ==> Pulled(tStart, if tStart < tAlignStop then tAlignStop else tStart, tStop)
      ensures ok && tStart >= tAlignStop ==> requested == []
    {
      var tCurrent := tStart;
      NothingAsked(env);
      NothingPulled(tStart, tStop);
      hide Going, Halted, Progress, Multiple, Positions;
      while tCurrent < tAlignStop
        invariant Pulled(tStart, tCurrent, tStop) && outstanding == []
        invariant Runs()
        invariant if tCurrent == tStart then asked == [] && commands == 0 else Begun(asked)
        invariant tStart <= tCurrent
        invariant if tStart < tAlignStop then tCurrent <= tAlignStop else tCurrent == tStart && requested == []
      {
        var another := CheckRequest();
        if another {
          return false;
        }
        var hr;
        hr, tCurrent := ReadSample(tCurrent, tStart, tStop, tAlignStop);
        if hr != S_OK {
          return false;
        }
      }
      return true;
    }

    /** One turn of that loop. */
    method ReadSample(tCurrent: int, tStart: int, tStop: int, tAlignStop: int) returns (hr: HRESULT, tNext: int)
      requires Positions() && 0 <= tCurrent < tAlignStop <= LAST && Multiple(tAlignStop, Grid()) && outstanding == []
      requires m_bSync
      requires Pulled(tStart, tCurrent, tStop)
      requires Runs()
      modifies this`buffers, this`receives, this`requested, this`delivered, this`asked
      ensures if hr == S_OK then Runs() else BrokenOff()
      ensures Begun(old(asked)) ==> Begun(asked)
      ensures hr == S_OK ==> Pulled(tStart, tNext, tStop) && tCurrent < tNext <= tAlignStop
    {
      var n := buffers;
      tNext := tCurrent;
      buffers := buffers + 1;
      hr := GetBuffer(n);
      if hr.Failed() {
        return;
      }
      tNext := PieceEnd(tCurrent, tAlignStop, n);
      var sample := Interval(tCurrent, tNext);
      hide IsPow2, GoodSizes, Multiple, Going, Halted, Begun, Clip;
      hr := SyncReadAligned(n);
      if hr.Failed() {
        return;
      }
      hide Progress;
      ProgressByRead(requested, delivered, Span(tStart, tCurrent, tStop, Grid()), tNext);
      requested := requested + [sample];
      hr := DeliverSample(sample, tStart, tStop);
    }
  }
}
