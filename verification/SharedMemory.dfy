/**
 PS3EyeSharedMemoryServer and PS3EyeSharedMemoryClient (PS3EyeSharedMemory.cpp): what one call does to the
 mapped memory.  How calls interleave is in SharedMemoryRuns.
 */
module SharedMemory {
  import opened Words
  import opened SharedMemoryRuns

  /** The mapped view: the header, and the frame buffer behind it. */
  class MappedView {
    var header: Header
    const buffer: array<Byte>

    /** The system hands out a mapping that is all zeroes. */
    constructor ()
      ensures header == Start(0, 0).header && buffer[..] == Start(0, 0).buffer && fresh(buffer)
    {
      header := Header(0, 0, 0, 0, 0, 0, 0);
      buffer := new Byte[PS3EYE_FRAME_SIZE](_ => 0);
    }

    ghost predicate Valid()
      reads this
    {
      buffer.Length == PS3EYE_FRAME_SIZE && header.dataSize <= PS3EYE_FRAME_SIZE
    }
  }

  /** memcpy to the start of dst. */
  method CopyBytes(dst: array<Byte>, src: array<Byte>, n: nat)
    requires n <= dst.Length && n <= src.Length && dst != src
    modifies dst
    ensures dst[..] == src[..n] + old(dst[n..])
  {
    var i := 0;
    while i < n
      invariant i <= n && dst[..i] == src[..i] && dst[i..] == old(dst[i..]) && src[..] == old(src[..])
    {
      dst[i] := src[i];
      i := i + 1;
    }
  }

  class PS3EyeSharedMemoryServer {
    var m_sharedMemory: MappedView?
    var m_frameNumber: nat

    constructor ()
      ensures m_sharedMemory == null && m_frameNumber == 0
    {
      m_sharedMemory, m_frameNumber := null, 0;
    }

    /** What Create leaves, once the system has mapped the memory. */
    method Create(view: MappedView, pid: U32)
      requires view.buffer.Length == PS3EYE_FRAME_SIZE
      modifies this, view
      ensures m_sharedMemory == view && view.Valid() && m_frameNumber == 0
      ensures view.header == Created(pid, PS3EYE_PROTOCOL_VERSION).header && Agrees(view.header)
    {
      m_sharedMemory := view;
      view.header := Header(0, 0, 0, 0, 0, 0, 0);
      view.header := view.header.(magic := PS3EYE_MAGIC);
      view.header := view.header.(version := PS3EYE_PROTOCOL_VERSION);
      view.header := view.header.(frameNumber := 0, timestamp := 0, dataSize := PS3EYE_FRAME_SIZE, serverPID := pid);
      view.header := view.header.(clientCount := 0);
      m_frameNumber := 0;
    }

    method Close()
      modifies this, m_sharedMemory
      ensures m_sharedMemory == null
      ensures old(m_sharedMemory) != null ==> old(m_sharedMemory).header == old(m_sharedMemory.header).(serverPID := 0)
    {
      if m_sharedMemory != null {
        m_sharedMemory.header := m_sharedMemory.header.(serverPID := 0);
        m_sharedMemory := null;
      }
    }

    /** `acquired`: the mutex was obtained before the time-out.  A frame that is too big or cannot get the mutex leaves
        everything as it was. */
    method WriteFrame(frameData: array?<Byte>, frameSize: U32, timestamp: int, acquired: bool) returns (ok: bool)
      requires m_sharedMemory != null ==> m_sharedMemory.Valid() && m_sharedMemory.buffer != frameData
      requires frameData != null ==> frameSize <= frameData.Length
      modifies this`m_frameNumber, m_sharedMemory, if m_sharedMemory == null then null else m_sharedMemory.buffer
      ensures ok == (m_sharedMemory != null && frameData != null && frameSize <= PS3EYE_FRAME_SIZE && acquired)
      ensures m_sharedMemory != null ==> m_sharedMemory.Valid()
      ensures !ok ==> m_frameNumber == old(m_frameNumber)
      ensures !ok && m_sharedMemory != null ==> unchanged(m_sharedMemory) && unchanged(m_sharedMemory.buffer)
      ensures ok ==> m_frameNumber == old(m_frameNumber) + 1
                     && m_sharedMemory.header ==
                          old(m_sharedMemory.header).(frameNumber := m_frameNumber, timestamp := timestamp,
                              dataSize := frameSize)
                     && m_sharedMemory.buffer[..] == frameData[..frameSize] + old(m_sharedMemory.buffer[frameSize..])
    {
      if m_sharedMemory == null || frameData == null {
        return false;
      }
      if frameSize > PS3EYE_FRAME_SIZE {
        return false;
      }
      if !acquired {
        return false;
      }
      CopyBytes(m_sharedMemory.buffer, frameData, frameSize);
      m_frameNumber := m_frameNumber + 1;
      m_sharedMemory.header := m_sharedMemory.header.(frameNumber := m_frameNumber);
      m_sharedMemory.header := m_sharedMemory.header.(timestamp := timestamp);
      m_sharedMemory.header := m_sharedMemory.header.(dataSize := frameSize);
      return true;
    }
  }

  class PS3EyeSharedMemoryClient {
    var m_sharedMemory: MappedView?
    var m_lastFrameNumber: nat

    constructor ()
      ensures m_sharedMemory == null && m_lastFrameNumber == 0
    {
      m_sharedMemory, m_lastFrameNumber := null, 0;
    }

    /** A header that does not match is disconnected from, which takes back a count that was not given. */
    method Connect(view: MappedView) returns (ok: bool)
      modifies this, view
      ensures ok == Agrees(old(view.header))
      ensures m_sharedMemory == if ok then view else null
      ensures view.header == old(view.header).(clientCount := old(view.header.clientCount) + if ok then 1 else -1)
      ensures ok ==> m_lastFrameNumber == 0
    {
      m_sharedMemory := view;
      if view.header.magic != PS3EYE_MAGIC || view.header.version != PS3EYE_PROTOCOL_VERSION {
        Disconnect();
        return false;
      }
      view.header := view.header.(clientCount := view.header.clientCount + 1);
      m_lastFrameNumber := 0;
      return true;
    }

    method Disconnect()
      modifies this, m_sharedMemory
      ensures m_sharedMemory == null && m_lastFrameNumber == old(m_lastFrameNumber)
      ensures old(m_sharedMemory) != null ==>
                old(m_sharedMemory).header
                    == old(m_sharedMemory.header).(clientCount := old(m_sharedMemory.header.clientCount) - 1)
    {
      if m_sharedMemory != null {
        m_sharedMemory.header := m_sharedMemory.header.(clientCount := m_sharedMemory.header.clientCount - 1);
        m_sharedMemory := null;
      }
    }

    /** A frame is read exactly when the server lives and its number is new; as much of it as fits is copied. */
    method ReadFrame(destBuffer: array?<Byte>, destSize: U32, acquired: bool)
        returns (ok: bool, frameNumber: nat, timestamp: int)
      requires m_sharedMemory != null ==> m_sharedMemory.Valid() && m_sharedMemory.buffer != destBuffer
      requires destBuffer != null ==> destSize <= destBuffer.Length
      modifies this`m_lastFrameNumber, destBuffer
      ensures ok == (m_sharedMemory != null && destBuffer != null && acquired && m_sharedMemory.header.serverPID != 0
                     && m_sharedMemory.header.frameNumber != old(m_lastFrameNumber))
      ensures !ok ==> m_lastFrameNumber == old(m_lastFrameNumber)
      ensures !ok && destBuffer != null ==> destBuffer[..] == old(destBuffer[..])
      ensures ok ==> var n := Min(destSize, m_sharedMemory.header.dataSize);
                     && destBuffer[..] == m_sharedMemory.buffer[..n] + old(destBuffer[..])[n..]
                     && frameNumber == m_lastFrameNumber == m_sharedMemory.header.frameNumber
                     && timestamp == m_sharedMemory.header.timestamp
    {
      ok, frameNumber, timestamp := false, 0, 0;
      if m_sharedMemory == null || destBuffer == null {
        return;
      }
      if !acquired {
        return;
      }
      // a closed server
      if m_sharedMemory.header.serverPID == 0 {
        return;
      }
      // a frame that was read before
      if m_sharedMemory.header.frameNumber == m_lastFrameNumber {
        return;
      }
      var copySize := Min(destSize, m_sharedMemory.header.dataSize);
      CopyBytes(destBuffer, m_sharedMemory.buffer, copySize);
      m_lastFrameNumber := m_sharedMemory.header.frameNumber;
      frameNumber := m_sharedMemory.header.frameNumber;
      timestamp := m_sharedMemory.header.timestamp;
      ok := true;
    }
  }
}
