/** CSampleList (amfilter.h 1353-1387, amfilter.cpp 4992-5010): the free list, linked through the samples. */
module SampleList {

  class CMediaSample {
    var m_pNext: CMediaSample?
    var m_cRef: nat
    const m_pBuffer: int     // address of the data, behind the prefix
    const m_cbBuffer: int

    constructor (pBuffer: int, cbBuffer: int)
      ensures m_pBuffer == pBuffer && m_cbBuffer == cbBuffer && m_pNext == null && m_cRef == 0
    {
      m_pBuffer, m_cbBuffer, m_pNext, m_cRef := pBuffer, cbBuffer, null, 0;
    }
  }

  /** Following m_pNext from `first` goes through the samples of c and ends. */
  ghost predicate Chain(first: CMediaSample?, c: seq<CMediaSample>)
    reads c`m_pNext
  {
    && first == (if c == [] then null else c[0])
    && forall i {:trigger c[i].m_pNext} :: 0 <= i < |c| ==> c[i].m_pNext == if i + 1 < |c| then c[i + 1] else null
  }

  /** A chain that ends has no sample twice. */
  lemma {:induction false} NoRepeat(first: CMediaSample?, c: seq<CMediaSample>, i: nat, j: nat)
    requires Chain(first, c) && i < j < |c|
    ensures c[i] != c[j]
    decreases |c| - j
  {
    assert c[i].m_pNext == c[i + 1];
    if j + 1 < |c| {
      assert c[j].m_pNext == c[j + 1];
      NoRepeat(first, c, i + 1, j + 1);
    } else {
      assert c[j].m_pNext == null;
    }
  }

  lemma OnlyAt(first: CMediaSample?, c: seq<CMediaSample>, k: nat)
    requires Chain(first, c) && k < |c|
    ensures forall i :: 0 <= i < |c| && i != k ==> c[i] != c[k]
  {
    forall i | 0 <= i < |c| && i != k
      ensures c[i] != c[k]
    {
      if i < k { NoRepeat(first, c, i, k); } else { NoRepeat(first, c, k, i); }
    }
  }

  class CSampleList {
    var m_List: CMediaSample?
    var m_nOnList: nat
    ghost var samples: seq<CMediaSample>

    ghost predicate Valid()
      reads this, samples
    {
      Chain(m_List, samples) && m_nOnList == |samples|
    }

    constructor ()
      ensures Valid() && samples == []
    {
      m_List, m_nOnList, samples := null, 0, [];
    }

    function GetCount(): int
      reads this
    {
      m_nOnList
    }

    method Add(pSample: CMediaSample)
      requires Valid() && pSample !in samples
      modifies this, pSample`m_pNext
      ensures Valid() && samples == [pSample] + old(samples)
    {
      pSample.m_pNext := m_List;
      m_List := pSample;
      m_nOnList := m_nOnList + 1;
      samples := [pSample] + samples;
    }

    method RemoveHead() returns (pSample: CMediaSample?)
      requires Valid()
      modifies this
      ensures Valid()
      ensures old(samples) == [] ==> pSample == null && samples == []
      ensures old(samples) != [] ==> pSample == old(samples)[0] && samples == old(samples)[1..] && pSample !in samples
    {
      pSample := m_List;
      if pSample != null {
        OnlyAt(m_List, samples, 0);
        m_List := m_List.m_pNext;
        m_nOnList := m_nOnList - 1;
        samples := samples[1..];
      }
    }

    /** Takes the sample out wherever it is; a sample that is not on the list changes nothing. */
    method Remove(pSample: CMediaSample)
      requires Valid()
      modifies this, samples`m_pNext
      ensures Valid()
      ensures pSample !in old(samples) ==> samples == old(samples)
      ensures pSample in old(samples) ==> pSample.m_pNext == null && pSample !in samples
      ensures pSample in old(samples) ==> exists k :: 0 <= k < |old(samples)| && old(samples)[k] == pSample &&
                                                   samples == old(samples)[..k] + old(samples)[k + 1..]
    {
      // `before` holds the link that pSearch points to; null for the head of the list
      var before: CMediaSample? := null;
      var at := m_List;
      ghost var k := 0;
      while at != null
        invariant k <= |samples| && Valid() && samples == old(samples)
        invariant before == (if k == 0 then null else samples[k - 1])
                  && at == (if k < |samples| then samples[k] else null)
        invariant forall i :: 0 <= i < k ==> samples[i] != pSample
        decreases |samples| - k
      {
        if at == pSample {
          OnlyAt(m_List, samples, k);
          if k > 0 { OnlyAt(m_List, samples, k - 1); }
          if before == null {
            m_List := pSample.m_pNext;
          } else {
            before.m_pNext := pSample.m_pNext;
          }
          pSample.m_pNext := null;
          m_nOnList := m_nOnList - 1;
          samples := samples[..k] + samples[k + 1..];
          return;
        }
        before := at;
        at := at.m_pNext;
        k := k + 1;
      }
    }
  }
}
