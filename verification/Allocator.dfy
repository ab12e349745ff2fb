/**
 CMemAllocator with its base CBaseAllocator (amfilter.cpp 4553-4970, 5050-5267).  Each method is one
 section under the allocator's lock, and does to the fields what AllocatorState says.
 */
module Allocator {
  import opened Words
  import opened HResults
  import opened MemLayout
  import opened SampleList
  import opened AllocatorState

  /** The list of samples made from a block: the one made last comes first. */
  ghost predicate LaidOut(made: seq<CMediaSample>, base: int, size: int, p: Props) {
    forall i :: 0 <= i < |made| ==>
      made[i].m_pBuffer == DataAt(base, size, p, |made| - 1 - i) && made[i].m_cbBuffer == p.cbBuffer
  }

  class CMemAllocator {
    const m_lFree: CSampleList
    var m_hSem: nat                  // the count of the semaphore
    var m_lWaiting: nat
    var m_lCount: I32
    var m_lSize: I32
    var m_lAlignment: I32
    var m_lPrefix: I32
    var m_lAllocated: nat
    var m_bChanged: bool
    var m_bCommitted: bool
    var m_bDecommitInProgress: bool
    var m_pBuffer: int               // address of the block, 0 for none
    var m_cRef: int                  // references to the allocator

    ghost function State(): State<CMediaSample>
      reads this, m_lFree
    {
      AllocatorState.State(m_lFree.samples, m_lWaiting, m_hSem, m_lAllocated, m_bCommitted, m_bDecommitInProgress,
                           m_bChanged, Props(m_lCount, m_lSize, m_lAlignment, m_lPrefix))
    }

    ghost predicate Valid()
      reads this, m_lFree, m_lFree.samples
    {
      && m_lFree.Valid()
      && (m_pBuffer == 0 ==> m_lAllocated == 0 && m_lFree.samples == [])
      && (!m_bChanged && m_lCount > 0 ==> m_pBuffer != 0)
    }

    constructor ()
      ensures Valid() && State() == AllocatorState.Initial() && fresh(m_lFree)
    {
      m_lFree := new CSampleList();
      m_hSem, m_lWaiting, m_lCount, m_lSize, m_lAlignment, m_lPrefix, m_lAllocated := 0, 0, 0, 0, 0, 0, 0;
      m_bChanged, m_bCommitted, m_bDecommitInProgress, m_pBuffer, m_cRef := false, false, false, 0, 0;
    }

    /** The requirements are taken, rounded up, unless the alignment is refused, or the allocator is committed or has
        buffers out. */
    method SetProperties(pRequest: Props, granularity: U32) returns (hr: HRESULT, pActual: Props)
      requires Valid() && pRequest.cbBuffer > 0
      modifies this
      ensures Valid() && m_lFree.samples == old(m_lFree.samples)
      ensures BadAlign(granularity, pRequest.cbAlign) ==> hr == VFW_E_BADALIGN && State() == old(State())
      ensures !BadAlign(granularity, pRequest.cbAlign) ==> (State(), hr) == Configured(old(State()), Stored(pRequest))
      ensures pActual == if hr.S_OK? then State().props else Props(0, 0, 0, 0)
      ensures hr == S_OK <==> !BadAlign(granularity, pRequest.cbAlign) && !old(m_bCommitted)
                              && |old(m_lFree.samples)| >= old(m_lAllocated)
      ensures hr == S_OK ==> m_lCount == pRequest.cBuffers && m_lAlignment == pRequest.cbAlign
                             && m_lPrefix == pRequest.cbPrefix && m_bChanged
      ensures hr != S_OK ==> State() == old(State())
    {
      pActual := Props(0, 0, 0, 0);
      hide Rounded;
      if BadAlign(granularity, pRequest.cbAlign) {
        hr := VFW_E_BADALIGN;
      } else if m_bCommitted {
        hr := VFW_E_ALREADY_COMMITTED;
      } else if m_lFree.GetCount() < m_lAllocated {
        hr := VFW_E_BUFFERS_OUTSTANDING;
      } else {
        m_lSize := RoundLength(pRequest.cbBuffer, pRequest.cbPrefix, pRequest.cbAlign);
        m_lCount, m_lAlignment, m_lPrefix := pRequest.cBuffers, pRequest.cbAlign, pRequest.cbPrefix;
        pActual := Props(m_lCount, m_lSize, m_lAlignment, m_lPrefix);
        m_bChanged := true;
        hr := S_OK;
      }
    }

    /** The size for which data and prefix together fill whole alignments. */
    static method RoundLength(cbBuffer: I32, cbPrefix: I32, cbAlign: I32) returns (size: I32)
      requires cbAlign != 0
      ensures size == Rounded(cbBuffer, cbPrefix, cbAlign)
    {
      var lSize: I32 := ToI32(cbBuffer + cbPrefix);
      var lRemainder := TruncMod(lSize, cbAlign);
      hide TruncMod;
      if lRemainder != 0 {
        lSize := ToI32(ToI32(lSize - lRemainder) + cbAlign);
      }
      size := ToI32(lSize - cbPrefix);
    }

    method SetWaiting()
      modifies this`m_lWaiting
      ensures m_lWaiting == old(m_lWaiting) + 1
    {
      m_lWaiting := m_lWaiting + 1;
    }

    method NotifySample()
      modifies this`m_hSem, this`m_lWaiting
      ensures State() == Notified(old(State()))
    {
      if m_lWaiting != 0 {
        m_hSem := m_hSem + m_lWaiting;
        m_lWaiting := 0;
      }
    }

    /** The lock section of GetBuffer; without a sample the caller goes on to wait on the semaphore, or times out. */
    method TryGetBuffer() returns (r: Attempt<CMediaSample>)
      requires Valid()
      modifies this`m_lWaiting, m_lFree
      ensures Valid() && (State(), r) == Try(old(State()))
      ensures r == NotCommitted <==> !old(m_bCommitted)
      ensures old(m_bCommitted) && old(m_lFree.samples) == [] ==> r == NoneFree && m_lWaiting == old(m_lWaiting) + 1
      ensures old(m_bCommitted) && old(m_lFree.samples) != [] ==>
              r.Got? && old(m_lFree.samples) == [r.sample] + m_lFree.samples && m_lWaiting == old(m_lWaiting)
    {
      if !m_bCommitted {
        return NotCommitted;
      }
      var pSample := m_lFree.RemoveHead();
      if pSample == null {
        SetWaiting();
        r := NoneFree;
      } else {
        r := Got(pSample);
      }
    }

    method ReleaseBuffer(pSample: CMediaSample)
      requires Valid() && m_pBuffer != 0 && pSample !in m_lFree.samples
      modifies this, m_lFree, pSample`m_pNext
      ensures Valid() && State() == Put(old(State()), pSample).0
      ensures m_cRef == old(m_cRef) - if Put(old(State()), pSample).1 then 1 else 0
      ensures m_lFree.samples == [pSample] + old(m_lFree.samples) && m_bCommitted == old(m_bCommitted)
      ensures m_lWaiting == 0 && m_hSem == old(m_hSem) + old(m_lWaiting)
      ensures m_bDecommitInProgress <==> old(m_bDecommitInProgress) && |m_lFree.samples| != m_lAllocated
      ensures m_cRef == old(m_cRef) - if old(m_bDecommitInProgress) && !m_bDecommitInProgress then 1 else 0
    {
      var bRelease := false;
      m_lFree.Add(pSample);
      if m_lWaiting != 0 {
        NotifySample();
      }
      var l1 := m_lFree.GetCount();
      if m_bDecommitInProgress && l1 == m_lAllocated {
        m_bDecommitInProgress := false;
        bRelease := true;
      }
      if bRelease {
        m_cRef := m_cRef - 1;
      }
    }

    method GetFreeCount() returns (lBuffersFree: int)
      requires Valid()
      ensures lBuffersFree == State().props.cBuffers - State().lAllocated + |State().free|
    {
      lBuffersFree := m_lCount - m_lAllocated + m_lFree.GetCount();
    }

    method Decommit()
      requires Valid()
      modifies this
      ensures Valid() && State() == Decommitted(old(State())).0
      ensures m_cRef == old(m_cRef) - if Decommitted(old(State())).1 then 1 else 0
      ensures !m_bCommitted && m_lFree.samples == old(m_lFree.samples)
      ensures old(m_bCommitted || m_bDecommitInProgress) ==>
              && (m_bDecommitInProgress <==> |m_lFree.samples| < m_lAllocated)
              && m_lWaiting == 0 && m_hSem == old(m_hSem) + old(m_lWaiting)
              && m_cRef == old(m_cRef) - if m_bDecommitInProgress then 0 else 1
      ensures !old(m_bCommitted || m_bDecommitInProgress) ==> !m_bDecommitInProgress && m_cRef == old(m_cRef)
    {
      var bRelease := false;
      if !m_bCommitted && !m_bDecommitInProgress {
        return;
      }
      // from here on GetBuffer is refused
      m_bCommitted := false;
      if m_lFree.GetCount() < m_lAllocated {
        // the last buffer to come home completes it
        m_bDecommitInProgress := true;
      } else {
        m_bDecommitInProgress := false;
        bRelease := true;
      }
      // wake the waiters: they find the allocator decommitted
      NotifySample();
      if bRelease {
        m_cRef := m_cRef - 1;
      }
    }

    /** `pBlock` is where the system puts a new block, 0 if it has none; `memory` is how many samples can be made. */
    method Commit(pBlock: int, memory: nat) returns (hr: HRESULT, ghost a: Allocation<CMediaSample>)
      requires Valid()
      modifies this, m_lFree, m_lFree.samples
      ensures Valid() && State() == Committed(old(State()), a)
      ensures Allocates(old(State())) ==> Possible(old(State()), a) && Outcome(a, old(State()).props, pBlock, memory)
      ensures hr == if Allocates(old(State())) then Verdict(a) else S_OK
      ensures m_bCommitted <==> hr == S_OK
      ensures !old(m_bCommitted) ==> !m_bDecommitInProgress
      ensures old(m_bCommitted || m_bDecommitInProgress) ==> hr == S_OK && m_lFree.samples == old(m_lFree.samples)
      ensures m_cRef == old(m_cRef) + if Allocates(old(State())) && m_bCommitted then 1 else 0
      ensures a.Fresh? || a.Failed? ==> fresh(a.made)
    {
      a := Unset;
      if m_bCommitted {
        return S_OK, a;
      }
      // a decommit in progress is called off
      if m_bDecommitInProgress {
        m_bCommitted := true;
        m_bDecommitInProgress := false;
        return S_OK, a;
      }
      hr, a := Alloc(pBlock, memory);
      m_bCommitted := true;
      if hr.Failed() {
        m_bCommitted := false;
        return;
      }
      m_cRef := m_cRef + 1;
    }

    /** What a commit answers. */
    static function Verdict(a: Allocation<CMediaSample>): HRESULT {
      match a
      case Unset => VFW_E_SIZENOTSET
      case Failed(_) => E_OUTOFMEMORY
      case _ => S_OK
    }

    /** New samples are slices of one block of the exact size, and they are all there exactly when the sizes,
        the system and the memory allow it. */
    static ghost predicate Outcome(a: Allocation<CMediaSample>, p: Props, pBlock: int, memory: nat) {
      var slice := SliceSize(p);
      && (a.Fresh? ==> slice.Slice? && pBlock != 0 && memory >= p.cBuffers && LaidOut(a.made, pBlock, slice.size, p))
      && (a.Failed? ==> !slice.Slice? || pBlock == 0 || memory < p.cBuffers)
    }

    method Alloc(pBlock: int, memory: nat) returns (hr: HRESULT, ghost a: Allocation<CMediaSample>)
      requires Valid() && !m_bCommitted && !m_bDecommitInProgress
      modifies this, m_lFree, m_lFree.samples
      ensures Valid() && State() == Allocated(old(State()), a) && hr == Verdict(a)
      ensures Possible(old(State()), a) && Outcome(a, old(State()).props, pBlock, memory)
      ensures a.Fresh? || a.Failed? ==> fresh(a.made)
      ensures m_cRef == old(m_cRef)
    {
      // the part of the base class
      if m_lCount <= 0 || m_lSize <= 0 || m_lAlignment <= 0 {
        return VFW_E_SIZENOTSET, Unset;
      }
      if !m_bChanged {
        assert m_pBuffer != 0;
        return S_OK, Same;
      }
      hide SliceSize;
      hr, a := Replace(pBlock, memory);
    }

    /** All samples are given up, and new ones made from a new block. */
    method Replace(pBlock: int, memory: nat) returns (hr: HRESULT, ghost a: Allocation<CMediaSample>)
      requires Valid() && m_bChanged && m_lCount > 0 && m_lSize > 0 && m_lAlignment > 0
      modifies this`m_lAllocated, this`m_pBuffer, this`m_bChanged, m_lFree, m_lFree.samples
      ensures Valid() && State() == Allocated(old(State()), a) && hr == Verdict(a)
      ensures a.Failed? || a.Fresh?
      ensures Possible(old(State()), a) && Outcome(a, old(State()).props, pBlock, memory) && fresh(a.made)
    {
      hide SliceSize;
      if m_pBuffer != 0 {
        ReallyFree();
      }
      var slice := SizeSlices();
      if slice.Refused? {
        return E_OUTOFMEMORY, Failed([]);
      }
      m_pBuffer := pBlock;
      if m_pBuffer == 0 {
        return E_OUTOFMEMORY, Failed([]);
      }
      assert m_lAllocated == 0;
      var ok := MakeSamples(slice.size, memory);
      if !ok {
        return E_OUTOFMEMORY, Failed(m_lFree.samples);
      }
      m_bChanged := false;
      return S_OK, Fresh(m_lFree.samples);
    }

    /** The checks of Alloc on what is stored; they come after the test for unset properties. */
    method SizeSlices() returns (s: Sizing)
      requires m_lCount > 0 && m_lSize > 0 && m_lAlignment > 0
      ensures s == SliceSize(Props(m_lCount, m_lSize, m_lAlignment, m_lPrefix))
    {
      hide ToI32, TruncMod;
      if m_lSize < 0 || m_lPrefix < 0 || m_lCount < 0 {
        return Refused(E_OUTOFMEMORY);
      }
      var lAlignedSize: I32 := ToI32(m_lSize + m_lPrefix);
      if lAlignedSize < m_lSize {
        return Refused(E_OUTOFMEMORY);
      }
      if m_lAlignment > 1 {
        var lRemainder := TruncMod(lAlignedSize, m_lAlignment);
        if lRemainder != 0 {
          var lNewSize: I32 := ToI32(ToI32(lAlignedSize + m_lAlignment) - lRemainder);
          if lNewSize < lAlignedSize {
            return Refused(E_OUTOFMEMORY);
          }
          lAlignedSize := lNewSize;
        }
      }
      var lToAllocate := m_lCount * lAlignedSize;
      if lToAllocate > MAXLONG {
        return Refused(E_OUTOFMEMORY);
      }
      return Slice(lAlignedSize);
    }

    /** Free up all the samples, then the block. */
    method ReallyFree()
      requires Valid()
      modifies this`m_lAllocated, this`m_pBuffer, m_lFree
      ensures m_lFree.Valid() && m_lFree.samples == [] && m_lAllocated == 0 && m_pBuffer == 0
    {
      var pSample := m_lFree.RemoveHead();
      while pSample != null
        invariant m_lFree.Valid() && (pSample == null ==> m_lFree.samples == [])
        decreases |m_lFree.samples|, pSample != null
      {
        pSample := m_lFree.RemoveHead();
      }
      m_lAllocated := 0;
      m_pBuffer := 0;
    }

    /** The loop that cuts the block. */
    method MakeSamples(lAlignedSize: int, memory: nat) returns (ok: bool)
      requires m_lFree.Valid() && m_lFree.samples == [] && m_lAllocated == 0 && m_lCount > 0
      modifies this`m_lAllocated, m_lFree
      ensures m_lFree.Valid() && fresh(m_lFree.samples) && m_lAllocated == |m_lFree.samples|
      ensures LaidOut(m_lFree.samples, m_pBuffer, lAlignedSize, Props(m_lCount, m_lSize, m_lAlignment, m_lPrefix))
      ensures if ok then m_lAllocated == m_lCount <= memory else m_lAllocated == memory < m_lCount
    {
      ghost var p := Props(m_lCount, m_lSize, m_lAlignment, m_lPrefix);
      var pNext := m_pBuffer;
      while m_lAllocated < m_lCount
        invariant m_lFree.Valid() && fresh(m_lFree.samples) && |m_lFree.samples| == m_lAllocated <= m_lCount
                  && m_lAllocated <= memory
        invariant pNext == SliceAt(m_pBuffer, lAlignedSize, m_lAllocated)
        invariant LaidOut(m_lFree.samples, m_pBuffer, lAlignedSize, p)
        decreases m_lCount - m_lAllocated
      {
        if m_lAllocated >= memory {
          return false;
        }
        var pSample := new CMediaSample(pNext + m_lPrefix, m_lSize);
        ghost var before := m_lFree.samples;
        m_lFree.Add(pSample);
        assert forall i :: 0 < i < |m_lFree.samples| ==> m_lFree.samples[i] == before[i - 1];
        MulStep(m_lAllocated, lAlignedSize);
        m_lAllocated := m_lAllocated + 1;
        pNext := pNext + lAlignedSize;
      }
      ok := true;
    }
  }
}
