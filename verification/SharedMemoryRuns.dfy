/**
 The shared frame memory (PS3EyeSharedMemory.cpp) as a protocol between one server and any number of clients,
 byte by byte.  The server writes its header without the mutex while it is being created; clients may
 connect at any moment, wait for the mutex with a time-out, and copy while they hold it.
 */
module SharedMemoryRuns {
  import opened Words

  const PS3EYE_MAGIC: U32 := 0x4533_5350
  const PS3EYE_PROTOCOL_VERSION: U32 := 1
  const PS3EYE_FRAME_SIZE: U32 := 640 * 480 * 3

  type Byte = x: int | 0 <= x < 256

  /** The header fields that the protocol uses; frame numbers are unbounded here. */
  datatype Header = Header(magic: U32, version: U32, frameNumber: nat, timestamp: int, dataSize: nat, serverPID: U32,
      clientCount: int)

  datatype Frame = Frame(data: seq<Byte>, timestamp: int)

  /** What a successful ReadFrame returned, for a buffer of destSize bytes. */
  datatype Reading = Reading(frameNumber: nat, timestamp: int, destSize: nat, data: seq<Byte>)

  datatype Owner = Nobody | TheServer | AClient(c: nat)

  datatype Server =
    | Mapped | Zeroed | MagicSet | VersionSet | FieldsSet   // inside Create
    | Idle
    | Asking(frame: Frame)
    | Copying(frame: Frame, copied: nat)
    | Numbered(frame: Frame)
    | Stamped(frame: Frame)
    | Written
    | Closed

  datatype Phase =
    | Out
    | Viewing                                 // the view is mapped
    | Validated
    | Connected
    | Waiting(destSize: nat)
    | Checking(destSize: nat)                 // holds the mutex
    | CopyingOut(destSize: nat, dest: seq<Byte>)
    | Finished

  datatype Client = Client(phase: Phase, last: nat, log: seq<Reading>)

  /** `frames` are the frames given their numbers so far; `pid` and `version` are the server's; `mismatches` counts
      refused connections. */
  datatype System = System(
    header: Header, buffer: seq<Byte>, mutex: Owner, server: Server, clients: map<nat, Client>,
    frames: seq<Frame>, pid: U32, version: U32, mismatches: nat)

  datatype Step =
    | Create
    | WriteFrame(frame: Frame)
    | Server
    | GiveUp
    | Close
    | View(c: nat)
    | Validate(c: nat)
    | Count(c: nat)
    | Disconnect(c: nat)
    | ReadFrame(c: nat, destSize: nat)
    | Acquire(c: nat)
    | TimeOut(c: nat)
    | Check(c: nat)
    | CopyByte(c: nat)
    | Finish(c: nat)
    | Release(c: nat)

  /** A new mapping is all zeroes. */
  function Start(pid: U32, version: U32): System {
    System(Header(0, 0, 0, 0, 0, 0, 0), seq(PS3EYE_FRAME_SIZE, _ => 0), Nobody, Mapped, map[], [], pid, version, 0)
  }

  function At(s: System, c: nat): Client {
    if c in s.clients then s.clients[c] else Client(Out, 0, [])
  }

  function Put(s: System, c: nat, client: Client): System {
    s.(clients := s.clients[c := client])
  }

  predicate Creating(server: Server) {
    server.Mapped? || server.Zeroed? || server.MagicSet? || server.VersionSet? || server.FieldsSet?
  }

  predicate ServerHolds(server: Server) {
    server.Copying? || server.Numbered? || server.Stamped? || server.Written?
  }

  predicate ClientHolds(p: Phase) {
    p.Checking? || p.CopyingOut? || p.Finished?
  }

  predicate Agrees(h: Header) {
    h.magic == PS3EYE_MAGIC && h.version == PS3EYE_PROTOCOL_VERSION
  }

  predicate Enabled(s: System, step: Step) {
    match step
    case Create => Creating(s.server)
    case WriteFrame(frame) => s.server.Idle? && |frame.data| <= PS3EYE_FRAME_SIZE
    case Server => (s.server.Asking? && s.mutex.Nobody?) || ServerHolds(s.server)
    case GiveUp => s.server.Asking?
    case Close => s.server.Idle?
    case View(c) => At(s, c).phase.Out?
    case Validate(c) => At(s, c).phase.Viewing?
    case Count(c) => At(s, c).phase.Validated?
    case Disconnect(c) => At(s, c).phase.Connected?
    case ReadFrame(c, _) => At(s, c).phase.Connected?
    case Acquire(c) => At(s, c).phase.Waiting? && s.mutex.Nobody?
    case TimeOut(c) => At(s, c).phase.Waiting?
    case Check(c) => At(s, c).phase.Checking?
    case CopyByte(c) => At(s, c).phase.CopyingOut?
        && |At(s, c).phase.dest| < Min(At(s, c).phase.destSize, s.header.dataSize)
    case Finish(c) => At(s, c).phase.CopyingOut?
        && |At(s, c).phase.dest| == Min(At(s, c).phase.destSize, s.header.dataSize)
    case Release(c) => At(s, c).phase.Finished?
  }

  /** Sizes stay inside the mapping. */
  predicate Bounds(s: System) {
    && |s.buffer| == PS3EYE_FRAME_SIZE && s.header.dataSize <= PS3EYE_FRAME_SIZE
    && (s.server.Asking? || s.server.Copying? || s.server.Numbered? || s.server.Stamped? ==>
        |s.server.frame.data| <= PS3EYE_FRAME_SIZE)
    && (s.server.Copying? ==> s.server.copied <= |s.server.frame.data|)
  }

  function Next(s: System, step: Step): System
    requires Enabled(s, step) && Bounds(s)
  {
    match step
    case Create => CreateStep(s)
    case WriteFrame(frame) => s.(server := Asking(frame))
    case Server => ServerStep(s)
    case GiveUp => s.(server := Idle)
    case Close => s.(server := Closed, header := s.header.(serverPID := 0))
    case View(c) => Put(s, c, At(s, c).(phase := Viewing))
    case Validate(c) =>
      if Agrees(s.header) then Put(s, c, At(s, c).(phase := Validated))
      else
        // Disconnect takes back a count that was never given
        Put(s, c, At(s, c).(phase := Out)).(header := s.header.(clientCount := s.header.clientCount - 1),
            mismatches := s.mismatches + 1)
    case Count(c) => Put(s, c, Client(Connected, 0, [])).(header := s.header.(clientCount := s.header.clientCount + 1))
    case Disconnect(c) =>
      Put(s, c, At(s, c).(phase := Out)).(header := s.header.(clientCount := s.header.clientCount - 1))
    case ReadFrame(c, destSize) => Put(s, c, At(s, c).(phase := Waiting(destSize)))
    case Acquire(c) => Put(s, c, At(s, c).(phase := Checking(At(s, c).phase.destSize))).(mutex := AClient(c))
    case TimeOut(c) => Put(s, c, At(s, c).(phase := Connected))
    case Check(c) =>
      if s.header.serverPID == 0 || s.header.frameNumber == At(s, c).last then Put(s, c, At(s, c).(phase := Finished))
      else Put(s, c, At(s, c).(phase := CopyingOut(At(s, c).phase.destSize, [])))
    case CopyByte(c) =>
      var p := At(s, c).phase;
      Put(s, c, At(s, c).(phase := CopyingOut(p.destSize, p.dest + [s.buffer[|p.dest|]])))
    case Finish(c) =>
      var me := At(s, c);
      Put(s, c, Client(Finished, s.header.frameNumber,
                       me.log + [Reading(s.header.frameNumber, s.header.timestamp, me.phase.destSize, me.phase.dest)]))
    case Release(c) => Put(s, c, At(s, c).(phase := Connected)).(mutex := Nobody)
  }

  /** Create fills in the header field by field. */
  function CreateStep(s: System): System
    requires Creating(s.server)
  {
    match s.server
    case Mapped => s.(server := Zeroed, header := Header(0, 0, 0, 0, 0, 0, 0))
    case Zeroed => s.(server := MagicSet, header := s.header.(magic := PS3EYE_MAGIC))
    case MagicSet => s.(server := VersionSet, header := s.header.(version := s.version))
    case VersionSet => s.(server := FieldsSet,
        header := s.header.(frameNumber := 0, timestamp := 0, dataSize := PS3EYE_FRAME_SIZE, serverPID := s.pid))
    case FieldsSet => s.(server := Idle, header := s.header.(clientCount := 0))
  }

  /** WriteFrame copies first, then counts; the frame gets its number when the header does. */
  function ServerStep(s: System): System
    requires (s.server.Asking? && s.mutex.Nobody?) || ServerHolds(s.server)
    requires Bounds(s)
  {
    match s.server
    case Asking(frame) => s.(server := Copying(frame, 0), mutex := TheServer)
    case Copying(frame, copied) =>
      if copied < |frame.data| then s.(server := Copying(frame, copied + 1),
          buffer := s.buffer[copied := frame.data[copied]])
      else s.(server := Numbered(frame), header := s.header.(frameNumber := |s.frames| + 1),
          frames := s.frames + [frame])
    case Numbered(frame) => s.(server := Stamped(frame), header := s.header.(timestamp := frame.timestamp))
    case Stamped(frame) => s.(server := Written, header := s.header.(dataSize := |frame.data|))
    case Written => s.(server := Idle, mutex := Nobody)
  }

  // ---------- what every step keeps ----------

  /** Exactly the owner of the mutex is in its critical section. */
  predicate Exclusion(s: System) {
    && (s.mutex.TheServer? <==> ServerHolds(s.server))
    && (forall c :: c in s.clients ==> (s.mutex == AClient(c) <==> ClientHolds(s.clients[c].phase)))
    && (s.mutex.AClient? ==> s.mutex.c in s.clients)
  }

  /** The buffer and the header describe the last frame. */
  predicate Describes(s: System, data: seq<Byte>) {
    |data| <= |s.buffer| && s.buffer[..|data|] == data
  }

  predicate Memory(s: System) {
    && s.header.frameNumber == |s.frames|
    && (Creating(s.server) ==> s.frames == [])
    && match s.server
       case Copying(frame, copied) => copied <= |frame.data| && Describes(s, frame.data[..copied])
       case Numbered(frame) => s.frames != [] && frame == s.frames[|s.frames| - 1] && Describes(s, frame.data)
       case Stamped(frame) =>
         s.frames != [] && frame == s.frames[|s.frames| - 1] && Describes(s, frame.data)
             && s.header.timestamp == frame.timestamp
       case _ => Settled(s)
  }

  predicate Settled(s: System) {
    s.frames != [] ==> Current(s, s.frames[|s.frames| - 1])
  }

  predicate Current(s: System, frame: Frame) {
    Describes(s, frame.data) && s.header.timestamp == frame.timestamp && s.header.dataSize == |frame.data|
  }

  /** A reading is the untorn beginning of the frame written under its number. */
  predicate Faithful(r: Reading, frames: seq<Frame>) {
    && 1 <= r.frameNumber <= |frames|
    && r.timestamp == frames[r.frameNumber - 1].timestamp
    && r.data == frames[r.frameNumber - 1].data[..Min(r.destSize, |frames[r.frameNumber - 1].data|)]
  }

  predicate Increasing(log: seq<Reading>) {
    forall i, j :: 0 <= i < j < |log| ==> log[i].frameNumber < log[j].frameNumber
  }

  /** What a client has read since it connected, and what it is reading. */
  predicate GoodClient(me: Client, s: System) {
    && me.last <= |s.frames|
    && me.last == (if me.log == [] then 0 else me.log[|me.log| - 1].frameNumber)
    && Increasing(me.log)
    && (forall i :: 0 <= i < |me.log| ==> Faithful(me.log[i], s.frames))
    && (me.phase.CopyingOut? ==>
          && s.header.frameNumber != me.last
          && |me.phase.dest| <= Min(me.phase.destSize, s.header.dataSize)
          && Describes(s, me.phase.dest))
  }

  predicate Inv(s: System) {
    && Bounds(s) && Exclusion(s) && Memory(s)
    && forall c :: c in s.clients ==> GoodClient(s.clients[c], s)
  }

  // ---------- one step ----------

  /** Later frames do not change what was read. */
  lemma StillFaithful(log: seq<Reading>, frames: seq<Frame>, more: seq<Frame>)
    requires forall i :: 0 <= i < |log| ==> Faithful(log[i], frames)
    ensures forall i :: 0 <= i < |log| ==> Faithful(log[i], frames + more)
  {
    forall i | 0 <= i < |log|
      ensures Faithful(log[i], frames + more)
    {
      assert Faithful(log[i], frames);
      assert (frames + more)[log[i].frameNumber - 1] == frames[log[i].frameNumber - 1];
    }
  }

  lemma ServerKeepsMemory(s: System)
    requires Inv(s) && Enabled(s, Step.Server)
    ensures Bounds(ServerStep(s)) && Memory(ServerStep(s))
  {
    var s' := ServerStep(s);
    match s.server
    case Copying(frame, copied) =>
      if copied < |frame.data| {
        assert s'.buffer[..copied + 1] == s.buffer[..copied] + [frame.data[copied]];
        assert frame.data[..copied + 1] == frame.data[..copied] + [frame.data[copied]];
      } else {
        assert frame.data[..copied] == frame.data;
      }
    case _ =>
  }

  lemma ServerKeepsExclusion(s: System)
    requires Inv(s) && Enabled(s, Step.Server)
    ensures Exclusion(ServerStep(s))
  {
    hide Memory, GoodClient;
  }

  /** While the server writes, no client is in its critical section; and its clients' logs stay true. */
  lemma ServerKeepsClients(s: System, c: nat)
    requires Inv(s) && Enabled(s, Step.Server) && c in s.clients
    ensures GoodClient(s.clients[c], ServerStep(s))
  {
    var s', me := ServerStep(s), s.clients[c];
    assert GoodClient(me, s);
    if s'.frames != s.frames {
      StillFaithful(me.log, s.frames, [s.server.frame]);
    }
  }

  lemma ClientsUnmoved(s: System, s': System)
    requires forall c :: c in s.clients ==> GoodClient(s.clients[c], s)
    requires s'.frames == s.frames && s'.buffer == s.buffer && s'.clients == s.clients
    requires s'.header.frameNumber == s.header.frameNumber
             && (s'.header.dataSize == s.header.dataSize || forall c :: c in s.clients ==>
             !s.clients[c].phase.CopyingOut?)
    ensures forall c :: c in s'.clients ==> GoodClient(s'.clients[c], s')
  {
  }

  lemma CreateKeeps(s: System)
    requires Inv(s) && Enabled(s, Create) && NoneCopying(s)
    ensures Inv(CreateStep(s))
  {
    ClientsUnmoved(s, CreateStep(s));
  }

  /** Before there is a frame no client copies. */
  predicate NoneCopying(s: System) {
    s.frames == [] ==> forall c :: c in s.clients ==> !s.clients[c].phase.CopyingOut?
  }

  lemma NothingToCopy(s: System)
    requires Inv(s)
    ensures NoneCopying(s)
  {
  }

  lemma WriterKeeps(s: System, step: Step)
    requires Inv(s) && Enabled(s, step)
             && (step.WriteFrame? || step.Server? || step.GiveUp? || step.Close? || step.Create?)
    ensures Inv(Next(s, step))
  {
    if step.Server? {
      ServerKeepsMemory(s);
      ServerKeepsExclusion(s);
      forall c | c in ServerStep(s).clients
        ensures GoodClient(ServerStep(s).clients[c], ServerStep(s))
      {
        ServerKeepsClients(s, c);
      }
    } else if step.Create? {
      NothingToCopy(s);
      CreateKeeps(s);
    } else {
      ClientsUnmoved(s, Next(s, step));
    }
  }

  /** A client's step changes only its own record, the mutex and the count. */
  lemma ClientKeeps(s: System, step: Step, c: nat)
    requires Inv(s) && Enabled(s, step) && ClientOf(step, c)
    ensures Inv(Next(s, step))
  {
    var s' := Next(s, step);
    var me := At(s, c);
    assert GoodClient(me, s);
    ClientMoves(s, step, c);
    assert forall d :: d in s.clients && d != c ==> s'.clients[d] == s.clients[d];
    OthersUnmoved(s, s', c);
    ClientExclusion(s, step, c);
  }

  predicate ClientOf(step: Step, c: nat) {
    match step
    case View(d) => c == d
    case Validate(d) => c == d
    case Count(d) => c == d
    case Disconnect(d) => c == d
    case ReadFrame(d, _) => c == d
    case Acquire(d) => c == d
    case TimeOut(d) => c == d
    case Check(d) => c == d
    case CopyByte(d) => c == d
    case Finish(d) => c == d
    case Release(d) => c == d
    case _ => false
  }

  lemma OthersUnmoved(s: System, s': System, c: nat)
    requires forall d :: d in s.clients ==> GoodClient(s.clients[d], s)
    requires s'.frames == s.frames && s'.buffer == s.buffer && s'.header.frameNumber == s.header.frameNumber
             && s'.header.dataSize == s.header.dataSize
    requires forall d :: d in s'.clients && d != c ==> d in s.clients && s'.clients[d] == s.clients[d]
    ensures forall d :: d in s'.clients && d != c ==> GoodClient(s'.clients[d], s')
  {
  }

  lemma ClientExclusion(s: System, step: Step, c: nat)
    requires Inv(s) && Enabled(s, step) && ClientOf(step, c)
    ensures Exclusion(Next(s, step))
  {
    hide Memory, GoodClient;
  }

  lemma ClientMoves(s: System, step: Step, c: nat)
    requires Inv(s) && Enabled(s, step) && ClientOf(step, c) && GoodClient(At(s, c), s)
    ensures GoodClient(At(Next(s, step), c), Next(s, step)) && Memory(Next(s, step)) && Bounds(Next(s, step))
  {
    ClientKeepsMemory(s, step, c);
    match step
    case Finish(_) => FinishIsFaithful(s, c);
    case CopyByte(_) => CopiesOneMore(s, c);
    case _ => ClientChangesPhase(s, step, c);
  }

  lemma ClientChangesPhase(s: System, step: Step, c: nat)
    requires Inv(s) && Enabled(s, step) && ClientOf(step, c) && GoodClient(At(s, c), s) && !step.Finish?
             && !step.CopyByte?
    ensures GoodClient(At(Next(s, step), c), Next(s, step))
  {
    hide Memory, Exclusion;
  }

  lemma ClientKeepsMemory(s: System, step: Step, c: nat)
    requires Inv(s) && Enabled(s, step) && ClientOf(step, c)
    ensures Memory(Next(s, step)) && Bounds(Next(s, step))
  {
    hide GoodClient, Exclusion;
    var s' := Next(s, step);
    assert s'.frames == s.frames && s'.buffer == s.buffer && s'.server == s.server;
    assert s'.header.(clientCount := s.header.clientCount) == s.header;
  }

  lemma CopiesOneMore(s: System, c: nat)
    requires Inv(s) && Enabled(s, CopyByte(c)) && GoodClient(At(s, c), s)
    ensures GoodClient(At(Next(s, CopyByte(c)), c), Next(s, CopyByte(c)))
  {
    hide Faithful, Increasing, Exclusion, Memory;
    var dest := At(s, c).phase.dest;
    assert s.buffer[..|dest| + 1] == s.buffer[..|dest|] + [s.buffer[|dest|]];
  }

  /** A client that holds the mutex and sees a new number copies out that very frame. */
  lemma FinishIsFaithful(s: System, c: nat)
    requires Inv(s) && Enabled(s, Finish(c)) && GoodClient(At(s, c), s)
    ensures GoodClient(At(Next(s, Finish(c)), c), Next(s, Finish(c)))
  {
    var me := At(s, c);
    assert s.mutex == AClient(c);
    var frame := s.frames[|s.frames| - 1];
    assert Current(s, frame);
    assert me.phase.dest == frame.data[..|me.phase.dest|];
    assert Faithful(Reading(s.header.frameNumber, s.header.timestamp, me.phase.destSize, me.phase.dest), s.frames);
    if me.log != [] {
      assert Faithful(me.log[|me.log| - 1], s.frames);
    }
  }

  lemma StepKeepsInv(s: System, step: Step)
    requires Inv(s) && Enabled(s, step)
    ensures Inv(Next(s, step))
  {
    hide Inv, Next, Enabled;
    if step.WriteFrame? || step.Server? || step.GiveUp? || step.Close? || step.Create? {
      WriterKeeps(s, step);
    } else {
      ClientKeeps(s, step, step.c);
    }
  }

  // ---------- the client count ----------

  ghost function Counted(s: System): set<nat> {
    set c | c in s.clients && HasCount(s.clients[c].phase)
  }

  predicate HasCount(p: Phase) {
    !p.Out? && !p.Viewing? && !p.Validated?
  }

  lemma CountedAfter(s: System, c: nat, client: Client)
    ensures |Counted(Put(s, c, client))| ==
              |Counted(s)| + (if HasCount(client.phase) then 1 else 0) - (if HasCount(At(s, c).phase) then 1 else 0)
  {
    assert Counted(Put(s, c, client)) == if HasCount(client.phase) then Counted(s) + {c} else Counted(s) - {c};
    assert HasCount(At(s, c).phase) <==> c in Counted(s);
  }

  /** By how much the count in the header and the refused connections together exceed the counted clients. */
  ghost function Excess(s: System): int {
    s.header.clientCount + s.mismatches - |Counted(s)|
  }

  /** Only the assignments of Create change that: what clients do keeps it, at any time, also if they are refused. */
  lemma ExcessKept(s: System, step: Step)
    requires Inv(s) && Enabled(s, step) && !step.Create?
    ensures Excess(Next(s, step)) == Excess(s)
  {
    hide Memory, GoodClient, Exclusion;
    var s' := Next(s, step);
    if step.WriteFrame? || step.Server? || step.GiveUp? || step.Close? {
      assert s'.clients == s.clients && Counted(s') == Counted(s);
    } else {
      CountedAfter(s, step.c, s'.clients[step.c]);
      assert Counted(s') == Counted(Put(s, step.c, s'.clients[step.c]));
    }
  }

  /** The header from the end of Create on. */
  predicate Labelled(s: System) {
    !Creating(s.server) && s.header.magic == PS3EYE_MAGIC && s.header.version == s.version
  }

  lemma LabelKept(s: System, step: Step)
    requires Inv(s) && Labelled(s) && Enabled(s, step)
    ensures Labelled(Next(s, step)) && Next(s, step).version == s.version
    ensures s.mismatches <= Next(s, step).mismatches
    ensures s.version == PS3EYE_PROTOCOL_VERSION ==> Next(s, step).mismatches == s.mismatches
  {
    hide Memory, GoodClient, Exclusion;
  }

  /** And what Create has put there before its last assignment. */
  predicate LabelComing(s: System) {
    && (s.server.MagicSet? || s.server.VersionSet? || s.server.FieldsSet? || !Creating(s.server) ==>
        s.header.magic == PS3EYE_MAGIC)
    && (s.server.VersionSet? || s.server.FieldsSet? || !Creating(s.server) ==> s.header.version == s.version)
  }

  lemma LabelComingKept(s: System, step: Step)
    requires Inv(s) && LabelComing(s) && Enabled(s, step)
    ensures LabelComing(Next(s, step)) && Next(s, step).version == s.version
  {
    hide Memory, GoodClient, Exclusion;
  }

  // ---------- all runs ----------

  ghost predicate Run(s0: System, steps: seq<Step>, s: System)
    decreases |steps|
  {
    if steps == [] then s == s0
    else Inv(s0) && Enabled(s0, steps[0]) && Run(Next(s0, steps[0]), steps[1..], s)
  }

  lemma {:induction false} RunKeepsInv(s0: System, steps: seq<Step>, s: System)
    requires Inv(s0) && Run(s0, steps, s)
    ensures Inv(s) && (LabelComing(s0) ==> LabelComing(s)) && s.version == s0.version
    decreases |steps|
  {
    hide Exclusion, Memory, GoodClient, Enabled, Next, LabelComing;
    if steps != [] {
      StepKeepsInv(s0, steps[0]);
      if LabelComing(s0) {
        LabelComingKept(s0, steps[0]);
      }
      VersionKept(s0, steps[0]);
      RunKeepsInv(Next(s0, steps[0]), steps[1..], s);
    }
  }

  lemma VersionKept(s: System, step: Step)
    requires Inv(s) && Enabled(s, step)
    ensures Next(s, step).version == s.version
  {
    hide Memory, GoodClient, Exclusion;
  }

  lemma StartInv(pid: U32, version: U32)
    ensures Inv(Start(pid, version)) && LabelComing(Start(pid, version))
  {
  }

  /** In every run, also when clients come too early and locks time out: the frame numbers a client gets grow strictly
      from the moment it connected, each reading is the untorn beginning of the frame written under its number,
      with that frame's time, and nothing is read before the first frame is written. */
  lemma ReadingsAreFrames(pid: U32, version: U32, steps: seq<Step>, s: System, c: nat)
    requires Run(Start(pid, version), steps, s) && c in s.clients
    ensures Increasing(s.clients[c].log)
    ensures forall i :: 0 <= i < |s.clients[c].log| ==> Faithful(s.clients[c].log[i], s.frames)
    ensures s.frames == [] ==> s.clients[c].log == []
  {
    StartInv(pid, version);
    RunKeepsInv(Start(pid, version), steps, s);
    var log := s.clients[c].log;
    assert GoodClient(s.clients[c], s);
    assert log != [] ==> Faithful(log[0], s.frames);
  }

  /** Nobody is inside anybody else's critical section. */
  lemma MutualExclusion(pid: U32, version: U32, steps: seq<Step>, s: System, c: nat, d: nat)
    requires Run(Start(pid, version), steps, s) && c in s.clients && d in s.clients
    ensures ClientHolds(s.clients[c].phase) ==> !ServerHolds(s.server) && (ClientHolds(s.clients[d].phase) ==> c == d)
  {
    StartInv(pid, version);
    RunKeepsInv(Start(pid, version), steps, s);
  }

  lemma {:induction false} ExcessOverRun(s0: System, steps: seq<Step>, s: System)
    requires Inv(s0) && Labelled(s0) && Run(s0, steps, s)
    ensures Excess(s) == Excess(s0) && s0.mismatches <= s.mismatches
    ensures s0.version == PS3EYE_PROTOCOL_VERSION ==> s.mismatches == s0.mismatches
    decreases |steps|
  {
    hide Exclusion, Memory, GoodClient, Bounds, Labelled, Enabled, Next, Excess;
    if steps != [] {
      LabelledIsCreated(s0, steps[0]);
      StepKeepsInv(s0, steps[0]);
      ExcessKept(s0, steps[0]);
      LabelKept(s0, steps[0]);
      ExcessOverRun(Next(s0, steps[0]), steps[1..], s);
    }
  }

  lemma LabelledIsCreated(s: System, step: Step)
    requires Labelled(s) && Enabled(s, step)
    ensures !step.Create?
  {
  }

  /** From a start to just before the last assignment of Create, and from there on. */
  ghost predicate Through(pid: U32, version: U32, early: seq<Step>, s0: System, late: seq<Step>, s: System) {
    && Run(Start(pid, version), early, s0)
    && s0.server.FieldsSet? && Inv(s0)
    && Run(CreateStep(s0), late, s)
  }

  /** Every run that has Create behind it goes through that assignment. */
  lemma {:induction false} GoesThrough(s0: System, steps: seq<Step>, s: System)
    returns (early: seq<Step>, s1: System, late: seq<Step>)
    requires Inv(s0) && Creating(s0.server) && Run(s0, steps, s) && !Creating(s.server)
    ensures Run(s0, early, s1) && s1.server.FieldsSet? && Inv(s1) && Run(CreateStep(s1), late, s)
    decreases |steps|
  {
    hide Exclusion, Memory, GoodClient, Bounds, Enabled, Next, CreateStep;
    StepKeepsInv(s0, steps[0]);
    CreateOnly(s0, steps[0]);
    if s0.server.FieldsSet? && steps[0].Create? {
      early, s1, late := [], s0, steps[1..];
    } else {
      early, s1, late := GoesThrough(Next(s0, steps[0]), steps[1..], s);
      RunCons(s0, steps[0], early, s1);
      early := [steps[0]] + early;
    }
  }

  lemma CreateOnly(s: System, step: Step)
    requires Inv(s) && Enabled(s, step) && Creating(s.server)
    ensures step.Create? && s.server.FieldsSet? ==> Next(s, step) == CreateStep(s)
    ensures !(step.Create? && s.server.FieldsSet?) ==> Creating(Next(s, step).server)
  {
    hide Memory, GoodClient, Exclusion;
  }

  /** After Create the count is that of the clients, short of one for each client that was counted before its last
      assignment, and of one for each connection refused since. */
  lemma CountAfterCreate(pid: U32, version: U32, early: seq<Step>, s0: System, late: seq<Step>, s: System)
    requires Through(pid, version, early, s0, late, s)
    ensures s.header.clientCount == |Counted(s)| - |Counted(s0)| - (s.mismatches - s0.mismatches)
    ensures s0.mismatches <= s.mismatches && (version == PS3EYE_PROTOCOL_VERSION ==> s.mismatches == s0.mismatches)
  {
    hide Inv, Run;
    StartInv(pid, version);
    RunKeepsInv(Start(pid, version), early, s0);
    CreateEnds(s0);
    ExcessOverRun(CreateStep(s0), late, s);
  }

  lemma CreateEnds(s0: System)
    requires Inv(s0) && s0.server.FieldsSet? && LabelComing(s0)
    ensures Inv(CreateStep(s0)) && Labelled(CreateStep(s0)) && CreateStep(s0).mismatches == s0.mismatches
    ensures CreateStep(s0).version == s0.version && Excess(CreateStep(s0)) == s0.mismatches - |Counted(s0)|
  {
    StepKeepsInv(s0, Create);
    assert Counted(CreateStep(s0)) == Counted(s0);
  }

  /** So in every run, whenever clients come, the count is right once Create is over exactly if nobody had been counted
      before its last assignment and no connection has been refused since; and for the clients' own protocol version
      none is. */
  lemma ClientCountIff(pid: U32, version: U32, early: seq<Step>, s0: System, late: seq<Step>, s: System)
    requires Through(pid, version, early, s0, late, s)
    ensures s.header.clientCount == |Counted(s)| <==> Counted(s0) == {} && s.mismatches == s0.mismatches
    ensures version == PS3EYE_PROTOCOL_VERSION ==> (s.header.clientCount == |Counted(s)| <==> Counted(s0) == {})
  {
    hide Through;
    CountAfterCreate(pid, version, early, s0, late, s);
    assert |Counted(s0)| == 0 <==> Counted(s0) == {};
  }

  /** And every run with Create behind it is such a run. */
  lemma EveryRunGoesThrough(pid: U32, version: U32, steps: seq<Step>, s: System)
    requires Run(Start(pid, version), steps, s) && !Creating(s.server)
    ensures exists early, s0, late :: Through(pid, version, early, s0, late, s)
  {
    StartInv(pid, version);
    hide Inv, Run;
    var early, s0, late := GoesThrough(Start(pid, version), steps, s);
    assert Through(pid, version, early, s0, late, s);
  }

  lemma RunCons(s0: System, step: Step, rest: seq<Step>, s: System)
    requires Inv(s0) && Enabled(s0, step) && Run(Next(s0, step), rest, s)
    ensures Run(s0, [step] + rest, s)
  {
    var steps := [step] + rest;
    assert steps[1..] == rest;
  }

  function StepsToGo(server: Server): nat
    requires server.Copying? ==> server.copied <= |server.frame.data|
  {
    match server
    case Asking(frame) => |frame.data| + 5
    case Copying(frame, copied) => |frame.data| - copied + 4
    case Numbered(_) => 3
    case Stamped(_) => 2
    case Written => 1
    case _ => 0
  }

  ghost predicate Finishes(s: System, steps: seq<Step>, s': System) {
    && Run(s, steps, s') && (forall i :: 0 <= i < |steps| ==> steps[i] == Step.Server)
    && Inv(s') && s'.server.Idle? && s'.mutex.Nobody? && s'.clients == s.clients
  }

  lemma {:induction false} ServerFinishes(s: System) returns (steps: seq<Step>, s': System)
    requires Inv(s) && Enabled(s, Step.Server)
    ensures Finishes(s, steps, s')
    ensures s'.frames == if s.server.Asking? || s.server.Copying? then s.frames + [s.server.frame] else s.frames
    decreases StepsToGo(s.server)
  {
    var s1 := Next(s, Step.Server);
    StepKeepsInv(s, Step.Server);
    hide Exclusion, Memory, GoodClient;
    if s1.server.Idle? {
      s' := s1;
      RunNone(s1);
      steps := [];
    } else {
      steps, s' := ServerFinishes(s1);
    }
    RunCons(s, Step.Server, steps, s');
    steps := [Step.Server] + steps;
  }

  /** A server that gets the mutex can always finish: the frame is then the last one, and in the memory. */
  lemma FrameIsWritten(s: System)
    requires Inv(s) && s.server.Asking? && s.mutex.Nobody?
    ensures exists steps, s' :: Finishes(s, steps, s')
                && s'.frames == s.frames + [s.server.frame] && Current(s', s.server.frame)
                && s'.header.frameNumber == |s.frames| + 1
  {
    var steps, s' := ServerFinishes(s);
  }

  /** The server lives, and its frame is not the one read last. */
  predicate NewFrame(s: System, c: nat) {
    s.header.serverPID != 0 && s.header.frameNumber != At(s, c).last
  }

  /** The reading of the frame that is in the memory now. */
  predicate ReadsNow(r: Reading, s: System, destSize: nat) {
    && r.frameNumber == s.header.frameNumber && r.timestamp == s.header.timestamp
    && r.destSize == destSize && |r.data| == Min(destSize, s.header.dataSize)
  }

  /** Only these steps from the client itself. */
  predicate OwnSteps(steps: seq<Step>, c: nat) {
    forall i :: 0 <= i < |steps| ==> steps[i] in {Check(c), CopyByte(c), Finish(c)}
  }

  /** The client's own steps lead to the end of its critical section with one reading more. */
  ghost predicate GetsFrame(s: System, steps: seq<Step>, s': System, c: nat, destSize: nat) {
    && Run(s, steps, s') && OwnSteps(steps, c)
    && At(s', c).phase.Finished? && |At(s', c).log| == |At(s, c).log| + 1
    && ReadsNow(At(s', c).log[|At(s, c).log|], s, destSize)
  }

  lemma GetsOneStepMore(s: System, step: Step, steps: seq<Step>, s': System, c: nat, destSize: nat)
    requires Inv(s) && Enabled(s, step) && step in {Check(c), CopyByte(c)}
    requires GetsFrame(Next(s, step), steps, s', c, destSize)
    requires Next(s, step).header == s.header && At(Next(s, step), c).log == At(s, c).log
    ensures GetsFrame(s, [step] + steps, s', c, destSize)
  {
    hide Inv, Enabled, At;
    RunCons(s, step, steps, s');
  }

  lemma {:induction false} CopiesOut(s: System, c: nat) returns (steps: seq<Step>, s': System)
    requires Inv(s) && At(s, c).phase.CopyingOut?
    ensures GetsFrame(s, steps, s', c, At(s, c).phase.destSize)
    decreases Min(At(s, c).phase.destSize, s.header.dataSize) - |At(s, c).phase.dest|
  {
    var p := At(s, c).phase;
    assert GoodClient(s.clients[c], s);
    if |p.dest| < Min(p.destSize, s.header.dataSize) {
      var s1 := Next(s, CopyByte(c));
      StepKeepsInv(s, CopyByte(c));
      steps, s' := CopiesOut(s1, c);
      GetsOneStepMore(s, CopyByte(c), steps, s', c, p.destSize);
      steps := [CopyByte(c)] + steps;
    } else {
      s' := Next(s, Finish(c));
      RunNone(s');
      RunCons(s, Finish(c), [], s');
      steps := [Finish(c)] + [];
    }
  }

  /** A client that holds the mutex goes on to copy exactly when the server lives and its frame is new; it can then
      always finish, and gets that frame. */
  lemma NewFrameIsRead(s: System, c: nat)
    requires Inv(s) && At(s, c).phase.Checking?
    ensures At(Next(s, Check(c)), c).phase.CopyingOut? <==> NewFrame(s, c)
    ensures NewFrame(s, c) ==> exists steps, s' :: GetsFrame(s, steps, s', c, At(s, c).phase.destSize)
    ensures !NewFrame(s, c) ==> At(Next(s, Check(c)), c) == At(s, c).(phase := Finished)
  {
    Checks(s, c);
    if NewFrame(s, c) {
      hide Inv, Enabled, Next, At, GetsFrame;
      StepKeepsInv(s, Check(c));
      var steps, s' := CopiesOut(Next(s, Check(c)), c);
      GetsOneStepMore(s, Check(c), steps, s', c, At(s, c).phase.destSize);
    }
  }

  lemma Checks(s: System, c: nat)
    requires Inv(s) && At(s, c).phase.Checking?
    ensures Enabled(s, Check(c)) && Next(s, Check(c)).header == s.header
    ensures var me, me' := At(s, c), At(Next(s, Check(c)), c);
            && me'.log == me.log
            && if NewFrame(s, c) then me'.phase == CopyingOut(me.phase.destSize, []) else me' == me.(phase := Finished)
  {
    hide GoodClient, Memory;
  }

  /** Steps that keep the mutex with client c. */
  predicate Holding(steps: seq<Step>, c: nat) {
    forall i :: 0 <= i < |steps| ==> steps[i] != Release(c)
  }

  lemma HeldStep(s: System, step: Step, c: nat)
    requires Inv(s) && Enabled(s, step) && step != Release(c)
    requires At(s, c).phase.CopyingOut? || At(s, c).phase.Finished?
    ensures var me, me', s' := At(s, c), At(Next(s, step), c), Next(s, step);
            if me.phase.Finished? then me' == me
            else
              && s'.header.frameNumber == s.header.frameNumber
              && if me'.phase.CopyingOut? then me'.log == me.log
                 else
                   && me'.phase.Finished? && |me'.log| == |me.log| + 1
                   && me'.log[|me.log|].frameNumber == s.header.frameNumber
  {
    hide GoodClient, Describes;
    assert s.mutex == AClient(c);
    match step
    case Create =>
    case WriteFrame(_) =>
    case Server =>
    case GiveUp =>
    case Close =>
    case _ =>
  }

  /** And whatever others do meanwhile: it leaves the mutex with that frame, and with no other. */
  lemma {:induction false} HeldReading(s0: System, steps: seq<Step>, s: System, c: nat)
    requires Inv(s0) && Run(s0, steps, s) && Holding(steps, c)
    requires At(s0, c).phase.CopyingOut? || At(s0, c).phase.Finished?
    ensures var me, me' := At(s0, c), At(s, c);
            if me.phase.Finished? then me' == me
            else
              if me'.phase.CopyingOut? then me'.log == me.log
              else
                && me'.phase.Finished? && |me'.log| == |me.log| + 1
                && me'.log[|me.log|].frameNumber == s0.header.frameNumber
    decreases |steps|
  {
    hide Bounds, Exclusion, Memory, GoodClient, Enabled, Next, At;
    if steps != [] {
      HeldStep(s0, steps[0], c);
      StepKeepsInv(s0, steps[0]);
      HeldReading(Next(s0, steps[0]), steps[1..], s, c);
    }
  }

  ghost predicate Follows(s0: System, step: Step, s1: System) {
    Inv(s0) && Enabled(s0, step) && Next(s0, step) == s1
  }

  lemma RunFollows(s0: System, step: Step, s1: System, rest: seq<Step>, s: System) returns (steps: seq<Step>)
    requires Follows(s0, step, s1) && Run(s1, rest, s)
    ensures Run(s0, steps, s)
  {
    steps := [step] + rest;
    hide Exclusion, Memory, GoodClient, Bounds, Enabled, Next;
    RunCons(s0, step, rest, s);
  }

  lemma RunNone(s: System)
    ensures Run(s, [], s)
  {
  }

  /** Before the last assignment of Create, and after it. */
  function Filled(pid: U32, version: U32): System {
    Start(pid, version).(server := FieldsSet, header := Header(PS3EYE_MAGIC, version, 0, 0, PS3EYE_FRAME_SIZE, pid, 0))
  }

  function Created(pid: U32, version: U32): System {
    Filled(pid, version).(server := Idle)
  }

  lemma Fills(pid: U32, version: U32) returns (s1: System, s2: System, s3: System)
    ensures Follows(Start(pid, version), Create, s1) && Follows(s1, Create, s2) && Follows(s2, Create, s3)
    ensures Follows(s3, Create, Filled(pid, version)) && Inv(Filled(pid, version))
  {
    hide Exclusion, Memory, GoodClient;
    var s0 := Start(pid, version);
    StartInv(pid, version);
    s1 := CreateStep(s0);
    StepKeepsInv(s0, Create);
    s2 := CreateStep(s1);
    StepKeepsInv(s1, Create);
    s3 := CreateStep(s2);
    StepKeepsInv(s2, Create);
    StepKeepsInv(s3, Create);
  }

  lemma FilledRuns(pid: U32, version: U32, rest: seq<Step>, s: System) returns (steps: seq<Step>)
    requires Run(Filled(pid, version), rest, s)
    ensures Run(Start(pid, version), steps, s)
  {
    hide Follows, Run, Inv, Start, Filled;
    var s1, s2, s3 := Fills(pid, version);
    steps := RunFollows(s3, Create, Filled(pid, version), rest, s);
    steps := RunFollows(s2, Create, s3, steps, s);
    steps := RunFollows(s1, Create, s2, steps, s);
    steps := RunFollows(Start(pid, version), Create, s1, steps, s);
  }

  lemma OneTries(pid: U32, version: U32) returns (s1: System, s2: System, s3: System)
    requires version != PS3EYE_PROTOCOL_VERSION
    ensures s1 == Created(pid, version)
    ensures Follows(Filled(pid, version), Create, s1) && Follows(s1, View(0), s2) && Follows(s2, Validate(0), s3)
    ensures Counted(s2) == Counted(s3) == {} && s3.header.clientCount == -1
  {
    hide Exclusion, Memory, GoodClient;
    var s0 := Filled(pid, version);
    var _, _, _ := Fills(pid, version);
    s1 := Next(s0, Create);
    StepKeepsInv(s0, Create);
    s2 := Next(s1, View(0));
    StepKeepsInv(s1, View(0));
    s3 := Next(s2, Validate(0));
  }

  /** A server of any other version is counted down by every client that tries it, also after Create. */
  lemma OtherVersionCountsDown(pid: U32, version: U32)
    requires version != PS3EYE_PROTOCOL_VERSION
    ensures exists early, s0, late, s ::
              Through(pid, version, early, s0, late, s) && Counted(s0) == Counted(s) == {} && s.header.clientCount == -1
  {
    var _, _, _ := Fills(pid, version);
    assert Counted(Filled(pid, version)) == {};
    var s1, s2, s3 := OneTries(pid, version);
    hide Exclusion, Memory, GoodClient, Enabled, Next, Run;
    RunNone(s3);
    var late := RunFollows(s2, Validate(0), s3, [], s3);
    late := RunFollows(s1, View(0), s2, late, s3);
    RunNone(Filled(pid, version));
    var early := FilledRuns(pid, version, [], Filled(pid, version));
    assert Through(pid, version, early, Filled(pid, version), late, s3);
  }

  /** A client connects before the last assignment. */
  lemma OneIsEarly(pid: U32) returns (s1: System, s2: System, s3: System)
    ensures Follows(Filled(pid, 1), View(0), s1) && Follows(s1, Validate(0), s2) && Follows(s2, Count(0), s3)
    ensures s3.server.FieldsSet? && Inv(s3) && Counted(s3) == {0} && s3.mismatches == 0
  {
    hide Exclusion, Memory, GoodClient;
    var s0 := Filled(pid, 1);
    var _, _, _ := Fills(pid, 1);
    s1 := Next(s0, View(0));
    StepKeepsInv(s0, View(0));
    s2 := Next(s1, Validate(0));
    StepKeepsInv(s1, Validate(0));
    s3 := Next(s2, Count(0));
    StepKeepsInv(s2, Count(0));
  }

  /** There are runs in which that happens: the client is connected, nobody was refused, and the count is 0. */
  lemma EarlyClientIsForgotten(pid: U32)
    ensures exists early, s0, late, s ::
              Through(pid, 1, early, s0, late, s) && Counted(s) == {0} && s.mismatches == 0 && s.header.clientCount == 0
  {
    var s1, s2, s3 := OneIsEarly(pid);
    var s := CreateStep(s3);
    assert Counted(s) == Counted(s3);
    hide Exclusion, Memory, GoodClient, Enabled, Next, Run;
    RunNone(s3);
    var early := RunFollows(s2, Count(0), s3, [], s3);
    early := RunFollows(s1, Validate(0), s2, early, s3);
    early := RunFollows(Filled(pid, 1), View(0), s1, early, s3);
    early := FilledRuns(pid, 1, early, s3);
    RunNone(s);
    assert Through(pid, 1, early, s3, [], s);
  }
}
