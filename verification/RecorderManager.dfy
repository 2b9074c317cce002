/** The recorder: opens, rotates and closes container files, and gates what reaches them on keyframes.

    Every handler (a captured frame, an encoded packet, a start or stop command, one turn of the encoder
    worker) is one atomic step. What the muxer and the frame queue see is kept as a log of events. */
module RecorderManager {
  import opened Arithmetic
  import opened ThreadSafeQueues
  import opened Wrappers

  datatype Frame = Frame(sec: int, usec: int, key: bool)
  datatype RecordType = Video | Snapshot | Both

  datatype Event =
    | Opened(file: nat)
    | HeaderWritten(file: nat)
    | PacketWritten(file: nat, key: bool)
    | Closed(file: nat)
    | Began                     // a Start that succeeded
    | Enqueued(frame: Frame)    // accepted by the encoder's queue

  datatype Config = Config(fileDuration: int, recordType: RecordType, autoStart: bool) {
    /** Snapshots are taken without an encoder. */
    predicate HasVideoRecorder() {
      recordType != Snapshot
    }
  }

  datatype State = State(
    ctx: Option<nat>,           // the open container
    headerWritten: bool,
    recording: bool,            // has_first_keyframe
    resetPending: bool,         // anchor the split timer on the next keyframe
    baseSec: int, baseUsec: int,
    fileIndex: int,
    nextGenerate: int,          // seconds after the anchor
    frames: seq<Frame>,         // the encoder's queue
    files: nat,                 // containers opened so far
    log: seq<Event>)

  const START: State := State(None, false, false, false, 0, 0, 0, 0, [], 0, [])

  function Micros(sec: int, usec: int): int {
    sec * 1000000 + usec
  }

  function Elapsed(s: State, f: Frame): int {
    (f.sec - s.baseSec) * 1000000 + (f.usec - s.baseUsec)
  }

  // ---- the handlers as functions ----

  /** Start: opens a container unless only snapshots are taken; does nothing more when that fails. */
  function AfterStart(c: Config, s: State, created: bool): State {
    if c.recordType != Snapshot && !created then s.(ctx := None)
    else
      var s1 := if c.recordType == Snapshot then s
                else s.(ctx := Some(s.files), headerWritten := false, files := s.files + 1,
                        log := s.log + [Opened(s.files)]);
      var s2 := if c.HasVideoRecorder() then s1.(frames := []) else s1;
      s2.(resetPending := true, recording := true, log := s2.log + [Began])
  }

  function AfterStop(s: State): State {
    s.(recording := false, ctx := None, headerWritten := false,
       log := if s.ctx.Some? then s.log + [Closed(s.ctx.value)] else s.log)
  }

  function AfterEnqueue(c: Config, maxQueue: nat, s: State, f: Frame): State {
    if !c.HasVideoRecorder() || |s.frames| >= maxQueue then s
    else s.(frames := s.frames + [f], log := s.log + [Enqueued(f)])
  }

  predicate AutoStarts(c: Config, s: State, f: Frame) {
    c.autoStart && !s.recording && f.key
  }

  function Anchored(c: Config, s: State, f: Frame): State {
    if s.resetPending && f.key then
      s.(baseSec := f.sec, baseUsec := f.usec, fileIndex := 1, nextGenerate := c.fileDuration, resetPending := false)
    else s
  }

  predicate Rotates(s: State, f: Frame) {
    Elapsed(s, f) >= s.nextGenerate * 1000000 && f.key
  }

  function AfterRotation(c: Config, s: State, created: bool): State {
    var s1 := AfterStart(c, AfterStop(s), created);
    s1.(resetPending := false, fileIndex := s1.fileIndex + 1, nextGenerate := (s1.fileIndex + 1) * c.fileDuration)
  }

  /** The callback on a captured frame; the flags say whether the container of each Start can be created. */
  function AfterFrame(c: Config, maxQueue: nat, s: State, f: Frame, created: bool, recreated: bool): State {
    var s1 := if AutoStarts(c, s, f) then AfterStart(c, s, created) else s;
    if !s1.recording then s1
    else
      var s2 := Anchored(c, s1, f);
      if s2.resetPending then s2
      else AfterEnqueue(c, maxQueue, if Rotates(s2, f) then AfterRotation(c, s2, recreated) else s2, f)
  }

  /** WriteIntoFile: the header waits for a key packet; a failing header gives the container up. */
  function AfterPacket(s: State, key: bool, headerOk: bool): State {
    if s.ctx.None? || !s.recording then s
    else if s.headerWritten then s.(log := s.log + [PacketWritten(s.ctx.value, key)])
    else if !key then s
    else if !headerOk then s.(ctx := None, log := s.log + [Closed(s.ctx.value)])
    else s.(headerWritten := true,
            log := s.log + [HeaderWritten(s.ctx.value), PacketWritten(s.ctx.value, key)])
  }

  function AfterConsume(s: State): State {
    if s.frames == [] then s else s.(frames := s.frames[1..])
  }

  datatype Step =
    | OnFrame(f: Frame, created: bool, recreated: bool)
    | OnPacket(key: bool, headerOk: bool)
    | StartCommand(created: bool)
    | StopCommand
    | Consume
    | Destroy

  function Next(c: Config, maxQueue: nat, s: State, step: Step): State {
    match step
    case OnFrame(f, created, recreated) => AfterFrame(c, maxQueue, s, f, created, recreated)
    case OnPacket(key, headerOk) => AfterPacket(s, key, headerOk)
    case StartCommand(created) => if s.recording then s else AfterStart(c, s, created)
    case StopCommand => if s.recording then AfterStop(s) else s
    case Consume => AfterConsume(s)
    case Destroy => AfterStop(s)
  }

  function Run(c: Config, maxQueue: nat, s: State, steps: seq<Step>): State {
    if steps == [] then s else Next(c, maxQueue, Run(c, maxQueue, s, steps[..|steps| - 1]), steps[|steps| - 1])
  }

  // ---- the recorder itself ----

  class RecorderManager {
    const config: Config
    const frameQueue: ThreadSafeQueue<Frame>
    var fmtCtx: Option<nat>
    var headerWritten: bool
    var hasFirstKeyframe: bool
    var timeResetPending: bool
    var baseStartSec: int
    var baseStartUsec: int
    var fileIndex: int
    var nextGenerateTime: int
    var files: nat                // identity of the next container
    ghost var log: seq<Event>

    constructor (config: Config, fps: nat)
      ensures Abstract() == START && this.config == config && frameQueue.maxSize == fps && fresh(frameQueue)
    {
      this.config := config;
      frameQueue := new ThreadSafeQueue(fps);
      fmtCtx, headerWritten, hasFirstKeyframe, timeResetPending := None, false, false, false;
      baseStartSec, baseStartUsec, fileIndex, nextGenerateTime := 0, 0, 0, 0;
      files, log := 0, [];
    }

    ghost function Abstract(): State
      reads this, frameQueue
    {
      State.State(fmtCtx, headerWritten, hasFirstKeyframe, timeResetPending, baseStartSec, baseStartUsec,
        fileIndex, nextGenerateTime, frameQueue.queue, files, log)
    }

    method Start(created: bool)
      modifies this, frameQueue
      ensures Abstract() == AfterStart(config, old(Abstract()), created)
    {
      if config.recordType != Snapshot {
        if !created {
          fmtCtx := None;
          return;
        }
        fmtCtx := Some(files);
        log := log + [Opened(files)];
        files := files + 1;
        headerWritten := false;
      }
      if config.HasVideoRecorder() {
        frameQueue.Clear();
      }
      timeResetPending := true;
      hasFirstKeyframe := true;
      log := log + [Began];
    }

    method Stop()
      modifies this
      ensures Abstract() == AfterStop(old(Abstract()))
    {
      hasFirstKeyframe := false;
      if fmtCtx.Some? {
        log := log + [Closed(fmtCtx.value)];
      }
      fmtCtx := None;
      headerWritten := false;
    }

    method OnFrame(f: Frame, created: bool, recreated: bool)
      modifies this, frameQueue
      ensures Abstract() == AfterFrame(config, frameQueue.maxSize, old(Abstract()), f, created, recreated)
    {
      hide AfterStart, AfterRotation, AfterEnqueue;
      ghost var s0 := Abstract();
      if config.autoStart && !hasFirstKeyframe && f.key {
        Start(created);
      }
      ghost var s1 := Abstract();
      assert s1 == if AutoStarts(config, s0, f) then AfterStart(config, s0, created) else s0;
      if hasFirstKeyframe {
        if timeResetPending && f.key {
          AnchorAt(f);
        }
        ghost var s2 := Abstract();
        assert s2 == Anchored(config, s1, f);
        if !timeResetPending {
          var elapsed := (f.sec - baseStartSec) * 1000000 + (f.usec - baseStartUsec);
          if elapsed >= nextGenerateTime * 1000000 && f.key {
            Rotate(recreated);
          }
          assert Abstract() == if Rotates(s2, f) then AfterRotation(config, s2, recreated) else s2;
          OnBuffer(f);
        }
      }
    }

    /** Anchors the split timer on a keyframe. */
    method AnchorAt(f: Frame)
      requires timeResetPending && f.key
      modifies this
      ensures Abstract() == Anchored(config, old(Abstract()), f)
    {
      baseStartSec, baseStartUsec := f.sec, f.usec;
      fileIndex := 0;
      fileIndex := fileIndex + 1;
      nextGenerateTime := fileIndex * config.fileDuration;
      timeResetPending := false;
    }

    /** Closes the file and opens the next one, keeping the original anchor. */
    method Rotate(recreated: bool)
      modifies this, frameQueue
      ensures Abstract() == AfterRotation(config, old(Abstract()), recreated)
    {
      hide AfterStart, AfterStop;
      Stop();
      Start(recreated);
      timeResetPending := false;
      fileIndex := fileIndex + 1;
      nextGenerateTime := fileIndex * config.fileDuration;
    }

    /** Hands a frame to the encoder's queue; a full queue drops it. */
    method OnBuffer(f: Frame)
      modifies this, frameQueue
      ensures Abstract() == AfterEnqueue(config, frameQueue.maxSize, old(Abstract()), f)
    {
      if config.HasVideoRecorder() {
        var ok := frameQueue.Push(f);
        if ok {
          log := log + [Enqueued(f)];
        }
      }
    }

    method WriteIntoFile(key: bool, headerOk: bool)
      modifies this
      ensures Abstract() == AfterPacket(old(Abstract()), key, headerOk)
    {
      if fmtCtx.None? || !hasFirstKeyframe {
        return;
      }
      if !headerWritten {
        if !key {
          return;
        }
        if !headerOk {
          log := log + [Closed(fmtCtx.value)];
          fmtCtx := None;
          return;
        }
        log := log + [HeaderWritten(fmtCtx.value)];
        headerWritten := true;
      }
      log := log + [PacketWritten(fmtCtx.value, key)];
      assert headerWritten && old(!headerWritten) ==>
        log == old(log) + [HeaderWritten(fmtCtx.value), PacketWritten(fmtCtx.value, key)];
    }

    /** The start command of a data channel: ignored while a recording runs. */
    method StartRecording(created: bool)
      modifies this, frameQueue
      ensures Abstract() == Next(config, frameQueue.maxSize, old(Abstract()), StartCommand(created))
    {
      if !hasFirstKeyframe {
        Start(created);
      }
    }

    method StopRecording()
      modifies this
      ensures Abstract() == Next(config, frameQueue.maxSize, old(Abstract()), StopCommand)
    {
      if hasFirstKeyframe {
        Stop();
      }
    }

    /** One turn of the encoder worker takes one frame. */
    method ConsumeBuffer() returns (f: Option<Frame>)
      modifies frameQueue
      ensures Abstract() == Next(config, frameQueue.maxSize, old(Abstract()), Consume)
      ensures f == if old(frameQueue.queue) == [] then None else Some(old(frameQueue.queue)[0])
    {
      f := frameQueue.Pop();
    }
  }

  // ---- what the muxer may see ----

  /** Where a file's events may stand. */
  datatype Phase =
    | NoFile(next: nat)                // every container before `next` is closed
    | HeaderDue(file: nat)             // opened, nothing written
    | FirstPacketDue(file: nat)        // header written, no packet yet
    | Writing(file: nat)
    | Broken

  function PhaseStep(p: Phase, e: Event): Phase {
    match e
    case Opened(f) => if p == NoFile(f) then HeaderDue(f) else Broken
    case HeaderWritten(f) => if p == HeaderDue(f) then FirstPacketDue(f) else Broken
    case PacketWritten(f, key) =>
      if p == Writing(f) then p
      else if p == FirstPacketDue(f) && key then Writing(f)
      else Broken
    case Closed(f) => if p == HeaderDue(f) || p == Writing(f) then NoFile(f + 1) else Broken
    case Began => p
    case Enqueued(_) => p
  }

  /** A log is well formed when it is a sequence of: open, then perhaps a header, a key packet and more packets,
      then one close; with the containers numbered in order. */
  function PhaseOf(log: seq<Event>): Phase {
    if log == [] then NoFile(0) else PhaseStep(PhaseOf(log[..|log| - 1]), log[|log| - 1])
  }

  /** Whether a successful start still waits for its first frame, and whether that frame has been a keyframe. */
  datatype Gate = Idle | Waiting | NotKey

  function GateStep(g: Gate, e: Event): Gate {
    match e
    case Began => if g == NotKey then NotKey else Waiting
    case Enqueued(f) => if g == Waiting then (if f.key then Idle else NotKey) else g
    case _ => g
  }

  function GateOf(log: seq<Event>): Gate {
    if log == [] then Idle else GateStep(GateOf(log[..|log| - 1]), log[|log| - 1])
  }

  lemma LogGrows(log: seq<Event>, e: Event)
    ensures PhaseOf(log + [e]) == PhaseStep(PhaseOf(log), e) && GateOf(log + [e]) == GateStep(GateOf(log), e)
  {
    assert (log + [e])[..|log|] == log;
  }

  /** What every handler keeps. */
  ghost predicate Inv(c: Config, maxQueue: nat, s: State) {
    && PhaseOf(s.log) == (if s.ctx.None? then NoFile(s.files)
                          else if s.headerWritten then Writing(s.ctx.value) else HeaderDue(s.ctx.value))
    && (s.ctx.Some? ==> s.recording && s.ctx.value + 1 == s.files)
    && GateOf(s.log) != NotKey
    && (GateOf(s.log) == Waiting && c.HasVideoRecorder() && 0 < maxQueue && s.recording ==>
         s.resetPending && s.frames == [])
  }

  lemma StartKeeps(c: Config, maxQueue: nat, s: State, created: bool)
    requires Inv(c, maxQueue, s) && !s.recording
    ensures var s' := AfterStart(c, s, created);
            && Inv(c, maxQueue, s') && (s'.recording ==> s'.resetPending && GateOf(s'.log) == Waiting)
            && (s'.recording && c.HasVideoRecorder() ==> s'.frames == [])
            && (!s'.recording ==> s'.log == s.log && s'.frames == s.frames)
  {
    LogGrows(s.log, Opened(s.files));
    LogGrows(s.log, Began);
    LogGrows(s.log + [Opened(s.files)], Began);
  }

  lemma StopKeeps(c: Config, maxQueue: nat, s: State)
    requires Inv(c, maxQueue, s)
    ensures Inv(c, maxQueue, AfterStop(s)) && !AfterStop(s).recording
  {
    if s.ctx.Some? {
      LogGrows(s.log, Closed(s.ctx.value));
    }
  }

  lemma PacketKeeps(c: Config, maxQueue: nat, s: State, key: bool, headerOk: bool)
    requires Inv(c, maxQueue, s)
    ensures Inv(c, maxQueue, AfterPacket(s, key, headerOk))
  {
    if s.ctx.Some? {
      LogGrows(s.log, PacketWritten(s.ctx.value, key));
      LogGrows(s.log, Closed(s.ctx.value));
      LogGrows(s.log, HeaderWritten(s.ctx.value));
      LogGrows(s.log + [HeaderWritten(s.ctx.value)], PacketWritten(s.ctx.value, key));
      assert s.log + [HeaderWritten(s.ctx.value), PacketWritten(s.ctx.value, key)] ==
             s.log + [HeaderWritten(s.ctx.value)] + [PacketWritten(s.ctx.value, key)];
    }
  }

  /** What holds between the parts of a frame callback, where the pending flag may already be cleared. */
  ghost predicate MidFrame(c: Config, maxQueue: nat, s: State, f: Frame) {
    && Inv(c, maxQueue, s.(resetPending := true))
    && (GateOf(s.log) == Waiting && c.HasVideoRecorder() && 0 < maxQueue ==> f.key && s.frames == [])
  }

  lemma EnqueueKeeps(c: Config, maxQueue: nat, s: State, f: Frame)
    requires MidFrame(c, maxQueue, s, f)
    ensures Inv(c, maxQueue, AfterEnqueue(c, maxQueue, s, f))
  {
    LogGrows(s.log, Enqueued(f));
    hide PhaseOf, GateOf;
    if c.HasVideoRecorder() && |s.frames| < maxQueue {
      var t := AfterEnqueue(c, maxQueue, s, f);
      assert t == s.(frames := s.frames + [f], log := s.log + [Enqueued(f)]);
      assert PhaseOf(t.log) == PhaseOf(s.log);
      assert GateOf(t.log) != NotKey && GateOf(t.log) != Waiting;
    } else {
      assert AfterEnqueue(c, maxQueue, s, f) == s;
      assert GateOf(s.log) == Waiting && c.HasVideoRecorder() && 0 < maxQueue ==> s.frames == [];
    }
  }

  lemma RotationKeeps(c: Config, maxQueue: nat, s: State, f: Frame, recreated: bool)
    requires MidFrame(c, maxQueue, s, f) && s.recording && f.key
    ensures MidFrame(c, maxQueue, AfterRotation(c, s, recreated), f)
  {
    var p := s.(resetPending := true);
    StopKeeps(c, maxQueue, p);
    StartKeeps(c, maxQueue, AfterStop(p), recreated);
    assert AfterStart(c, AfterStop(s), recreated).(resetPending := true) ==
           AfterStart(c, AfterStop(p), recreated).(resetPending := true);
  }

  lemma FrameKeeps(c: Config, maxQueue: nat, s: State, f: Frame, created: bool, recreated: bool)
    requires Inv(c, maxQueue, s)
    ensures Inv(c, maxQueue, AfterFrame(c, maxQueue, s, f, created, recreated))
  {
    var s1 := if AutoStarts(c, s, f) then AfterStart(c, s, created) else s;
    if AutoStarts(c, s, f) {
      StartKeeps(c, maxQueue, s, created);
    }
    if s1.recording {
      var s2 := Anchored(c, s1, f);
      if !s2.resetPending {
        assert MidFrame(c, maxQueue, s2, f);
        if Rotates(s2, f) {
          RotationKeeps(c, maxQueue, s2, f, recreated);
          EnqueueKeeps(c, maxQueue, AfterRotation(c, s2, recreated), f);
        } else {
          EnqueueKeeps(c, maxQueue, s2, f);
        }
      }
    }
  }

  lemma NextKeeps(c: Config, maxQueue: nat, s: State, step: Step)
    requires Inv(c, maxQueue, s)
    ensures Inv(c, maxQueue, Next(c, maxQueue, s, step))
  {
    match step
    case OnFrame(f, created, recreated) => FrameKeeps(c, maxQueue, s, f, created, recreated);
    case OnPacket(key, headerOk) => PacketKeeps(c, maxQueue, s, key, headerOk);
    case StartCommand(created) => if !s.recording { StartKeeps(c, maxQueue, s, created); }
    case StopCommand => StopKeeps(c, maxQueue, s);
    case Consume =>
    case Destroy => StopKeeps(c, maxQueue, s);
  }

  /** Over every run: the log is well formed, at most the last container is open and it is the current one, and
      no start was followed by a frame that is not a keyframe. */
  lemma {:induction false} EveryRunIsWellFormed(c: Config, maxQueue: nat, steps: seq<Step>)
    ensures Inv(c, maxQueue, Run(c, maxQueue, START, steps))
  {
    if steps != [] {
      EveryRunIsWellFormed(c, maxQueue, steps[..|steps| - 1]);
      NextKeeps(c, maxQueue, Run(c, maxQueue, START, steps[..|steps| - 1]), steps[|steps| - 1]);
    }
  }

  // ---- what a well-formed log means ----

  function Count(log: seq<Event>, e: Event): nat {
    if log == [] then 0 else Count(log[..|log| - 1], e) + (if log[|log| - 1] == e then 1 else 0)
  }

  /** How often a container has been opened, headed and closed, by the phase the log has reached. */
  lemma {:induction false} CountsByPhase(log: seq<Event>, f: nat)
    requires PhaseOf(log) != Broken
    ensures var p := PhaseOf(log);
            var begun, ended := Count(log, Opened(f)), Count(log, Closed(f));
            match p
            case NoFile(n) => begun == ended == (if f < n then 1 else 0) && Count(log, HeaderWritten(f)) <= 1 &&
                              (f >= n ==> Count(log, HeaderWritten(f)) == 0)
            case HeaderDue(n) => begun == (if f <= n then 1 else 0) && ended == (if f < n then 1 else 0) &&
                                 Count(log, HeaderWritten(f)) <= 1 && (f >= n ==> Count(log, HeaderWritten(f)) == 0)
            case FirstPacketDue(n) => begun == (if f <= n then 1 else 0) && ended == (if f < n then 1 else 0) &&
                                      Count(log, HeaderWritten(f)) <= 1 && (f > n ==> Count(log, HeaderWritten(f)) == 0)
            case Writing(n) => begun == (if f <= n then 1 else 0) && ended == (if f < n then 1 else 0) &&
                               Count(log, HeaderWritten(f)) <= 1 && (f > n ==> Count(log, HeaderWritten(f)) == 0)
  {
    if log != [] {
      CountsByPhase(log[..|log| - 1], f);
    }
  }

  lemma {:induction false} PrefixNotBroken(log: seq<Event>, k: nat)
    requires PhaseOf(log) != Broken && k <= |log|
    ensures PhaseOf(log[..k]) != Broken
    decreases |log| - k
  {
    if k < |log| {
      PrefixNotBroken(log, k + 1);
      assert log[..k + 1][..k] == log[..k];
    } else {
      assert log[..k] == log;
    }
  }

  /** In a well-formed log, at every moment at most one container is open; each is opened at most once, closed at
      most once, and headed at most once; a packet follows its container's header; and the first packet of a
      container is a key packet. */
  lemma WellFormedMeans(log: seq<Event>, k: nat, f: nat, h: nat, key: bool)
    requires PhaseOf(log) != Broken && k < |log|
    ensures Count(log[..k], Closed(f)) <= Count(log[..k], Opened(f)) <= 1
    ensures h != f && Count(log[..k], Opened(h)) > Count(log[..k], Closed(h)) ==>
              Count(log[..k], Opened(f)) == Count(log[..k], Closed(f))
    ensures Count(log[..k], HeaderWritten(f)) <= 1
    ensures log[k] == Opened(f) ==> Count(log[..k], Opened(h)) == Count(log[..k], Closed(h))
    ensures log[k] == PacketWritten(f, key) ==>
              Count(log[..k], HeaderWritten(f)) == 1 && Count(log[..k], Closed(f)) == 0
    ensures log[k] == PacketWritten(f, false) ==> Count(log[..k], PacketWritten(f, true)) > 0
  {
    PrefixNotBroken(log, k);
    PrefixNotBroken(log, k + 1);
    assert log[..k + 1][..k] == log[..k];
    CountsByPhase(log[..k], f);
    CountsByPhase(log[..k + 1], f);
    CountsByPhase(log[..k], h);
    LogGrows(log[..k], log[k]);
    assert log[..k + 1] == log[..k] + [log[k]];
    hide Count;
    WritingMeansKeyPacket(log[..k], f);
  }

  lemma {:induction false} WritingMeansKeyPacket(log: seq<Event>, f: nat)
    requires PhaseOf(log) != Broken
    ensures PhaseOf(log) == Writing(f) ==> Count(log, PacketWritten(f, true)) > 0
    ensures PhaseOf(log) == Writing(f) || PhaseOf(log) == FirstPacketDue(f) ==> Count(log, HeaderWritten(f)) == 1
  {
    if log != [] {
      WritingMeansKeyPacket(log[..|log| - 1], f);
      CountsByPhase(log[..|log| - 1], f);
    }
  }

  // ---- trailers ----

  /** While a file stays the open one, only a key packet writes its header. */
  lemma OpenFileStep(c: Config, maxQueue: nat, s: State, step: Step)
    requires Inv(c, maxQueue, s) && s.ctx.Some? && Next(c, maxQueue, s, step).ctx == s.ctx
    ensures Next(c, maxQueue, s, step).headerWritten <==> s.headerWritten || (step.OnPacket? && step.key)
  {
    hide PhaseOf, GateOf;
  }

  /** Closing an open file writes its trailer. The exact condition for the trailer to have a header: at any moment
      while the file opened in s is still open, its header has been written if and only if a key packet has come. */
  lemma {:induction false} TrailerHasHeaderExactlyAfterKeyPacket(c: Config, maxQueue: nat, s: State, steps: seq<Step>)
    requires Inv(c, maxQueue, s) && s.ctx.Some? && !s.headerWritten
    requires forall k: nat | k <= |steps| :: Run(c, maxQueue, s, steps[..k]).ctx == s.ctx
    ensures Inv(c, maxQueue, Run(c, maxQueue, s, steps)) && Run(c, maxQueue, s, steps).ctx == s.ctx
    ensures Run(c, maxQueue, s, steps).headerWritten <==>
            exists k: nat :: k < |steps| && steps[k].OnPacket? && steps[k].key
  {
    assert steps[..|steps|] == steps;
    if steps != [] {
      var before, step := steps[..|steps| - 1], steps[|steps| - 1];
      forall k: nat | k <= |before| ensures Run(c, maxQueue, s, before[..k]).ctx == s.ctx {
        assert before[..k] == steps[..k];
      }
      TrailerHasHeaderExactlyAfterKeyPacket(c, maxQueue, s, before);
      NextKeeps(c, maxQueue, Run(c, maxQueue, s, before), step);
      OpenFileStep(c, maxQueue, Run(c, maxQueue, s, before), step);
      hide Inv, Next;
      assert forall k: nat | k < |before| :: before[k] == steps[k];
    }
  }

  /** A recording that is stopped before any packet: its file gets a trailer and has no header. */
  lemma StoppedAtOnceHasNoHeader(c: Config, maxQueue: nat)
    requires c.recordType != Snapshot
    ensures var s := Run(c, maxQueue, START, [StartCommand(true)]);
            s.ctx == Some(0) && !s.headerWritten && AfterStop(s).log == [Opened(0), Began, Closed(0)]
  {
    assert [StartCommand(true)][..0] == [];
    assert Run(c, maxQueue, START, []) == START;
  }

  /** A frame that is not a keyframe where one was due is never forgiven. */
  lemma {:induction false} GateOfPrefix(log: seq<Event>, k: nat)
    requires GateOf(log) != NotKey && k <= |log|
    ensures GateOf(log[..k]) != NotKey
    decreases |log| - k
  {
    if k < |log| {
      GateOfPrefix(log, k + 1);
      assert log[..k + 1][..k] == log[..k];
    } else {
      assert log[..k] == log;
    }
  }

  lemma {:induction false} StillWaiting(log: seq<Event>, k: nat, j: nat)
    requires GateOf(log) != NotKey && k < j <= |log| && log[k] == Began && forall i | k < i < j :: !log[i].Enqueued?
    ensures GateOf(log[..j]) == Waiting
    decreases j
  {
    GateOfPrefix(log, j);
    assert log[..j][..j - 1] == log[..j - 1];
    if k + 1 < j {
      StillWaiting(log, k, j - 1);
    }
  }

  /** In every run, the first frame that the encoder's queue accepts after a successful start is a keyframe. */
  lemma FirstFrameAfterStartIsKey(c: Config, maxQueue: nat, steps: seq<Step>, k: nat, j: nat)
    requires var log := Run(c, maxQueue, START, steps).log;
             k < j < |log| && log[k] == Began && log[j].Enqueued? && forall i | k < i < j :: !log[i].Enqueued?
    ensures Run(c, maxQueue, START, steps).log[j].frame.key
  {
    hide Run;
    var log := Run(c, maxQueue, START, steps).log;
    EveryRunIsWellFormed(c, maxQueue, steps);
    StillWaiting(log, k, j);
    GateOfPrefix(log, j + 1);
    assert log[..j + 1][..j] == log[..j];
  }

  // ---- rotation does not drift ----

  /** Steps that neither stop the recorder nor fail to create the next container: frames, packets with any outcome,
      turns of the encoder, and start commands, which a running recorder ignores. */
  predicate Undisturbed(steps: seq<Step>) {
    forall i | 0 <= i < |steps| ::
      match steps[i]
      case OnFrame(_, _, recreated) => recreated
      case StopCommand => false
      case Destroy => false
      case _ => true
  }

  /** The captured frames among the steps. */
  function Frames(steps: seq<Step>): seq<Frame> {
    if steps == [] then []
    else
      var last := steps[|steps| - 1];
      Frames(steps[..|steps| - 1]) + (if last.OnFrame? then [last.f] else [])
  }

  /** When, in microseconds after the anchor, the frames made the recorder rotate. */
  function Rotations(c: Config, maxQueue: nat, s: State, steps: seq<Step>): seq<int> {
    if steps == [] then []
    else
      var mid, last := Run(c, maxQueue, s, steps[..|steps| - 1]), steps[|steps| - 1];
      Rotations(c, maxQueue, s, steps[..|steps| - 1]) +
      (if last.OnFrame? && Rotates(mid, last.f) then [Elapsed(mid, last.f)] else [])
  }

  /** Time of the last keyframe relative to the anchor `a`, which is itself a keyframe. */
  function LastKey(a: Frame, fs: seq<Frame>): int {
    if fs == [] then 0
    else if fs[|fs| - 1].key then Micros(fs[|fs| - 1].sec, fs[|fs| - 1].usec) - Micros(a.sec, a.usec)
    else LastKey(a, fs[..|fs| - 1])
  }

  /** Keyframe times increase, by at most `gap` microseconds each. */
  predicate Paced(a: Frame, fs: seq<Frame>, gap: int) {
    fs == [] ||
    (Paced(a, fs[..|fs| - 1], gap) &&
     (fs[|fs| - 1].key ==> LastKey(a, fs[..|fs| - 1]) < LastKey(a, fs) <= LastKey(a, fs[..|fs| - 1]) + gap))
  }

  /** The i-th rotation, counted from 0, belongs i + 1 file durations after the anchor. */
  predicate InWindow(duration: int, gap: int, i: int, t: int) {
    (i + 1) * duration * 1000000 <= t < (i + 1) * duration * 1000000 + gap
  }

  ghost predicate OnSchedule(c: Config, a: Frame, s: State, rotations: seq<int>, lastKey: int, gap: int) {
    && s.recording && !s.resetPending && s.baseSec == a.sec && s.baseUsec == a.usec
    && s.fileIndex == |rotations| + 1 && s.nextGenerate == s.fileIndex * c.fileDuration
    && |rotations| * c.fileDuration * 1000000 <= lastKey < s.nextGenerate * 1000000
    && forall i | 0 <= i < |rotations| :: InWindow(c.fileDuration, gap, i, rotations[i])
  }

  lemma FrameStaysOnSchedule(c: Config, maxQueue: nat, a: Frame, s: State, rotations: seq<int>, lastKey: int, gap: int,
                             f: Frame, created: bool)
    requires 0 < gap <= c.fileDuration * 1000000 && OnSchedule(c, a, s, rotations, lastKey, gap)
    requires f.key ==> lastKey < Elapsed(s, f) <= lastKey + gap
    ensures OnSchedule(c, a, AfterFrame(c, maxQueue, s, f, created, true),
                       rotations + (if Rotates(s, f) then [Elapsed(s, f)] else []),
                       if f.key then Elapsed(s, f) else lastKey, gap)
  {
    var i, d, t := |rotations|, c.fileDuration, Elapsed(s, f);
    assert (i + 1 + 1) * d == (i + 1) * d + d;
    if Rotates(s, f) {
      assert InWindow(d, gap, i, t);
    }
  }

  /** Packets, the encoder and ignored commands do not touch the schedule. */
  lemma OthersStayOnSchedule(c: Config, maxQueue: nat, a: Frame, s: State, rotations: seq<int>, lastKey: int, gap: int,
                             step: Step)
    requires OnSchedule(c, a, s, rotations, lastKey, gap) && (step.OnPacket? || step.StartCommand? || step.Consume?)
    ensures OnSchedule(c, a, Next(c, maxQueue, s, step), rotations, lastKey, gap)
  {
  }

  lemma {:induction false} StepsStayOnSchedule(c: Config, maxQueue: nat, a: Frame, s: State, steps: seq<Step>, gap: int)
    requires 0 < gap <= c.fileDuration * 1000000 && OnSchedule(c, a, s, [], 0, gap)
    requires Undisturbed(steps) && Paced(a, Frames(steps), gap)
    ensures OnSchedule(c, a, Run(c, maxQueue, s, steps), Rotations(c, maxQueue, s, steps),
                       LastKey(a, Frames(steps)), gap)
  {
    if steps != [] {
      var before, step := steps[..|steps| - 1], steps[|steps| - 1];
      var mid := Run(c, maxQueue, s, before);
      FramesOfLast(steps, a, gap);
      StepsStayOnSchedule(c, maxQueue, a, s, before, gap);
      hide Frames, AfterFrame, OnSchedule, Paced, LastKey;
      if step.OnFrame? {
        TimeOfFrame(c, a, mid, Rotations(c, maxQueue, s, before), LastKey(a, Frames(before)), gap, step.f);
        FrameStaysOnSchedule(c, maxQueue, a, mid, Rotations(c, maxQueue, s, before), LastKey(a, Frames(before)), gap,
                             step.f, step.created);
      } else {
        OthersStayOnSchedule(c, maxQueue, a, mid, Rotations(c, maxQueue, s, before), LastKey(a, Frames(before)), gap,
                             step);
        assert Rotations(c, maxQueue, s, before) + [] == Rotations(c, maxQueue, s, before);
      }
    }
  }

  lemma FramesOfLast(steps: seq<Step>, a: Frame, gap: int)
    requires steps != [] && Paced(a, Frames(steps), gap)
    ensures var before, last := Frames(steps[..|steps| - 1]), steps[|steps| - 1];
            && Paced(a, before, gap)
            && if last.OnFrame? && last.f.key
               then LastKey(a, Frames(steps)) == Micros(last.f.sec, last.f.usec) - Micros(a.sec, a.usec) &&
                    LastKey(a, before) < LastKey(a, Frames(steps)) <= LastKey(a, before) + gap
               else LastKey(a, Frames(steps)) == LastKey(a, before)
  {
    var before, last := Frames(steps[..|steps| - 1]), steps[|steps| - 1];
    if last.OnFrame? {
      assert Frames(steps)[..|before|] == before;
    } else {
      assert before + [] == before;
    }
  }

  lemma TimeOfFrame(c: Config, a: Frame, s: State, rotations: seq<int>, lastKey: int, gap: int, f: Frame)
    requires OnSchedule(c, a, s, rotations, lastKey, gap)
    ensures Elapsed(s, f) == Micros(f.sec, f.usec) - Micros(a.sec, a.usec)
  {
  }

  /** The keyframe that anchors the split timer: the first one after a start, or the one that starts the recorder in
      background mode. */
  predicate Anchors(c: Config, s: State, a: Frame) {
    a.key && ((s.recording && s.resetPending) || AutoStarts(c, s, a))
  }

  /** From the anchoring keyframe `a` on, with keyframes at most `gap` apart and `gap` no longer than a file, rotation
      i happens within one gap after i + 1 file durations, for every i: lateness does not add up. And no rotation is
      missed: there are as many as whole file durations up to the last keyframe. */
  lemma RotationDoesNotDrift(c: Config, maxQueue: nat, s: State, a: Frame, recreated: bool, steps: seq<Step>, gap: int)
    requires 0 < gap <= c.fileDuration * 1000000
    requires Anchors(c, s, a) && Undisturbed(steps) && Paced(a, Frames(steps), gap)
    ensures var r := Rotations(c, maxQueue, AfterFrame(c, maxQueue, s, a, true, recreated), steps);
            && |r| == LastKey(a, Frames(steps)) / (c.fileDuration * 1000000)
            && forall i | 0 <= i < |r| :: InWindow(c.fileDuration, gap, i, r[i])
  {
    var s0 := AfterFrame(c, maxQueue, s, a, true, recreated);
    assert OnSchedule(c, a, s0, [], 0, gap);
    StepsStayOnSchedule(c, maxQueue, a, s0, steps, gap);
    WholeDurations(c.fileDuration * 1000000, |Rotations(c, maxQueue, s0, steps)|,
                   LastKey(a, Frames(steps)), c.fileDuration);
  }

  lemma WholeDurations(us: int, n: int, t: int, d: int)
    requires us == d * 1000000 && 0 < us && n * d * 1000000 <= t < (n + 1) * d * 1000000
    ensures t / us == n
  {
    assert n * us == n * d * 1000000;
    assert (n + 1) * us == (n + 1) * d * 1000000 && (n + 1) * us == n * us + us;
    QuotientIs(t, us, n);
  }
}
