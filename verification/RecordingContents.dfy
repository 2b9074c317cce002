/** What a recording contains: which packets reach each file and which frames reach the encoder.

    That events come in a permitted order does not say that they come at all; here it is said which ones must. */
module RecordingContents {
  import opened RecorderManager
  import opened ThreadSafeQueues
  import opened Wrappers

  // ---- packets ----

  /** The key flags of the packets written into a file, in order. */
  function Written(log: seq<Event>, file: nat): seq<bool> {
    if log == [] then []
    else
      var e := log[|log| - 1];
      Written(log[..|log| - 1], file) + (if e.PacketWritten? && e.file == file then [e.key] else [])
  }

  /** The key flags of the packets the encoders hand over, in order. */
  function Packets(steps: seq<Step>): seq<bool> {
    if steps == [] then []
    else
      var step := steps[|steps| - 1];
      Packets(steps[..|steps| - 1]) + (if step.OnPacket? then [step.key] else [])
  }

  /** What remains from the first element on that satisfies p. */
  function From<T>(xs: seq<T>, p: T -> bool): seq<T> {
    if xs == [] || p(xs[0]) then xs else From(xs[1..], p)
  }

  lemma {:induction false} FromAppended<T>(xs: seq<T>, x: T, p: T -> bool)
    ensures From(xs + [x], p) ==
            if From(xs, p) != [] then From(xs, p) + [x] else if p(x) then [x] else []
  {
    if xs == [] {
      assert xs + [x] == [x];
      assert [x][1..] == [];
    } else if !p(xs[0]) {
      assert (xs + [x])[1..] == xs[1..] + [x];
      FromAppended(xs[1..], x, p);
    }
  }

  predicate IsKey(key: bool) {
    key
  }

  lemma WrittenAppended(log: seq<Event>, e: Event, file: nat)
    ensures Written(log + [e], file)
            == Written(log, file) + (if e.PacketWritten? && e.file == file then [e.key] else [])
  {
    assert (log + [e])[..|log|] == log;
  }

  /** The container that has just been opened holds no packet. */
  lemma {:induction false} NothingWrittenYet(log: seq<Event>, file: nat)
    requires match PhaseOf(log)
             case NoFile(next) => next <= file
             case HeaderDue(f) => f <= file
             case FirstPacketDue(f) => f <= file
             case Writing(f) => f < file
             case Broken => false
    ensures Written(log, file) == []
  {
    if log != [] {
      NothingWrittenYet(log[..|log| - 1], file);
    }
  }

  /** What one step writes into the open file, as long as it stays the open one. */
  lemma StepWrites(c: Config, maxQueue: nat, s: State, step: Step, file: nat)
    requires Inv(c, maxQueue, s) && s.ctx == Some(file) && Next(c, maxQueue, s, step).ctx == s.ctx
    ensures Written(Next(c, maxQueue, s, step).log, file)
            == Written(s.log, file) +
               (if step.OnPacket? && (s.headerWritten || step.key) then [step.key] else [])
  {
    hide PhaseOf, GateOf, Written;
    WrittenAppended([], Began, file);
    match step
    case OnFrame(f, created, recreated) =>
      WrittenAppended(s.log, Enqueued(f), file);
    case OnPacket(key, headerOk) =>
      WrittenAppended(s.log, PacketWritten(file, key), file);
      WrittenAppended(s.log, HeaderWritten(file), file);
      WrittenAppended(s.log + [HeaderWritten(file)], PacketWritten(file, key), file);
      assert s.log + [HeaderWritten(file), PacketWritten(file, key)]
             == s.log + [HeaderWritten(file)] + [PacketWritten(file, key)];
    case StartCommand(_) =>
    case StopCommand =>
    case Consume =>
    case Destroy =>
  }

  /** Every packet reaches the open file: from the moment it was opened, for as long as it stays the open one, its
      packets are, one for one and in order, those the encoders hand over from the first key packet on. */
  lemma {:induction false} EveryPacketIsWritten(c: Config, maxQueue: nat, s: State, steps: seq<Step>, file: nat)
    requires Inv(c, maxQueue, s) && s.ctx == Some(file) && !s.headerWritten
    requires forall k: nat | k <= |steps| :: Run(c, maxQueue, s, steps[..k]).ctx == s.ctx
    ensures Written(Run(c, maxQueue, s, steps).log, file) == From(Packets(steps), IsKey)
    ensures Run(c, maxQueue, s, steps).headerWritten <==> From(Packets(steps), IsKey) != []
    ensures Inv(c, maxQueue, Run(c, maxQueue, s, steps))
  {
    assert steps[..|steps|] == steps;
    if steps == [] {
      NothingWrittenYet(s.log, file);
    } else {
      var before, step := steps[..|steps| - 1], steps[|steps| - 1];
      forall k: nat | k <= |before| ensures Run(c, maxQueue, s, before[..k]).ctx == s.ctx {
        assert before[..k] == steps[..k];
      }
      assert before[..|before|] == before;
      var mid := Run(c, maxQueue, s, before);
      assert mid.ctx == s.ctx && Next(c, maxQueue, mid, step).ctx == s.ctx;
      EveryPacketIsWritten(c, maxQueue, s, before, file);
      NextKeeps(c, maxQueue, mid, step);
      OpenFileStep(c, maxQueue, mid, step);
      StepWrites(c, maxQueue, mid, step, file);
      PacketsGrow(steps);
      hide Inv, Next, Written, Packets, From;
    }
  }

  lemma PacketsGrow(steps: seq<Step>)
    requires steps != []
    ensures var before, step := From(Packets(steps[..|steps| - 1]), IsKey), steps[|steps| - 1];
            From(Packets(steps), IsKey)
            == before + (if step.OnPacket? && (before != [] || step.key) then [step.key] else [])
  {
    var before, step := Packets(steps[..|steps| - 1]), steps[|steps| - 1];
    hide From;
    if step.OnPacket? {
      FromAppended(before, step.key, IsKey);
      assert From(before, IsKey) == [] ==> From(before, IsKey) + [step.key] == [step.key];
    } else {
      assert before + [] == before && From(before, IsKey) + [] == From(before, IsKey);
    }
  }

  // ---- frames ----

  /** The frames the encoder's queue has accepted, in order. */
  function Accepted(log: seq<Event>): seq<Frame> {
    if log == [] then []
    else
      var e := log[|log| - 1];
      Accepted(log[..|log| - 1]) + (if e.Enqueued? then [e.frame] else [])
  }

  lemma AcceptedAppended(log: seq<Event>, e: Event)
    ensures Accepted(log + [e]) == Accepted(log) + (if e.Enqueued? then [e.frame] else [])
  {
    assert (log + [e])[..|log|] == log;
  }

  /** The queue holds the frames accepted last, in their order. */
  ghost predicate HoldsTheNewest(maxQueue: nat, s: State) {
    |s.frames| <= |Accepted(s.log)| && |s.frames| <= maxQueue &&
    s.frames == Accepted(s.log)[|Accepted(s.log)| - |s.frames|..]
  }

  lemma StartAccepts(c: Config, s: State, created: bool)
    ensures var t := AfterStart(c, s, created);
            Accepted(t.log) == Accepted(s.log) && (t.frames == s.frames || t.frames == [])
  {
    hide Accepted;
    AcceptedAppended(s.log, Opened(s.files));
    AcceptedAppended(s.log, Began);
    AcceptedAppended(s.log + [Opened(s.files)], Began);
  }

  lemma StopAccepts(s: State)
    ensures Accepted(AfterStop(s).log) == Accepted(s.log) && AfterStop(s).frames == s.frames
  {
    hide Accepted;
    if s.ctx.Some? {
      AcceptedAppended(s.log, Closed(s.ctx.value));
    }
  }

  lemma RotationAccepts(c: Config, s: State, created: bool)
    ensures var t := AfterRotation(c, s, created);
            Accepted(t.log) == Accepted(s.log) && (t.frames == s.frames || t.frames == [])
  {
    hide AfterStart, AfterStop;
    StopAccepts(s);
    StartAccepts(c, AfterStop(s), created);
  }

  lemma PacketAccepts(s: State, key: bool, headerOk: bool)
    ensures var t := AfterPacket(s, key, headerOk); Accepted(t.log) == Accepted(s.log) && t.frames == s.frames
  {
    hide Accepted;
    if s.ctx.Some? {
      AcceptedAppended(s.log, PacketWritten(s.ctx.value, key));
      AcceptedAppended(s.log, Closed(s.ctx.value));
      AcceptedAppended(s.log, HeaderWritten(s.ctx.value));
      AcceptedAppended(s.log + [HeaderWritten(s.ctx.value)], PacketWritten(s.ctx.value, key));
      assert s.log + [HeaderWritten(s.ctx.value), PacketWritten(s.ctx.value, key)]
             == s.log + [HeaderWritten(s.ctx.value)] + [PacketWritten(s.ctx.value, key)];
    }
  }

  lemma EmptyHoldsTheNewest(maxQueue: nat, s: State)
    requires s.frames == []
    ensures HoldsTheNewest(maxQueue, s)
  {
  }

  lemma EnqueueHoldsTheNewest(c: Config, maxQueue: nat, s: State, f: Frame)
    requires HoldsTheNewest(maxQueue, s)
    ensures HoldsTheNewest(maxQueue, AfterEnqueue(c, maxQueue, s, f))
  {
    AcceptedAppended(s.log, Enqueued(f));
    hide Accepted;
  }

  /** What a captured frame does to the queue: it may be emptied, and the frame may be appended. */
  lemma FrameHoldsTheNewest(c: Config, maxQueue: nat, s: State, f: Frame, created: bool, recreated: bool)
    requires HoldsTheNewest(maxQueue, s)
    ensures HoldsTheNewest(maxQueue, AfterFrame(c, maxQueue, s, f, created, recreated))
  {
    hide Accepted, AfterStart, AfterRotation, AfterEnqueue;
    StartAccepts(c, s, created);
    var s1 := if AutoStarts(c, s, f) then AfterStart(c, s, created) else s;
    if s1.recording {
      var s2 := Anchored(c, s1, f);
      RotationAccepts(c, s2, recreated);
      EnqueueHoldsTheNewest(c, maxQueue, s2, f);
      EnqueueHoldsTheNewest(c, maxQueue, AfterRotation(c, s2, recreated), f);
    }
  }

  /** In every run the encoder's queue holds the frames accepted last, in order: the encoder, which takes the first,
      never sees one twice or out of order. */
  lemma {:induction false} QueueHoldsTheNewest(c: Config, maxQueue: nat, steps: seq<Step>)
    ensures HoldsTheNewest(maxQueue, Run(c, maxQueue, START, steps))
  {
    if steps != [] {
      QueueHoldsTheNewest(c, maxQueue, steps[..|steps| - 1]);
      NextHoldsTheNewest(c, maxQueue, Run(c, maxQueue, START, steps[..|steps| - 1]), steps[|steps| - 1]);
      hide HoldsTheNewest, Next;
    }
  }

  lemma NextHoldsTheNewest(c: Config, maxQueue: nat, s: State, step: Step)
    requires HoldsTheNewest(maxQueue, s)
    ensures HoldsTheNewest(maxQueue, Next(c, maxQueue, s, step))
  {
    hide Accepted, AfterFrame, AfterStart, AfterStop, AfterPacket;
    match step
    case OnFrame(f, created, recreated) => FrameHoldsTheNewest(c, maxQueue, s, f, created, recreated);
    case OnPacket(key, headerOk) => PacketAccepts(s, key, headerOk);
    case StartCommand(created) => StartAccepts(c, s, created);
    case StopCommand => StopAccepts(s);
    case Consume =>
    case Destroy => StopAccepts(s);
  }

  predicate IsKeyframe(f: Frame) {
    f.key
  }

  /** A recording runs: before its anchoring keyframe nothing has been accepted, after it the queue has room. */
  ghost predicate Recording(s: State, fs: seq<Frame>, accepted: seq<Frame>) {
    && s.recording && (s.resetPending <==> From(fs, IsKeyframe) == [])
    && Accepted(s.log) == accepted + From(fs, IsKeyframe)
    && |s.frames| <= |From(fs, IsKeyframe)|
  }

  lemma {:induction false} FromIsShorter<T>(xs: seq<T>, p: T -> bool)
    ensures |From(xs, p)| <= |xs|
  {
    if xs != [] && !p(xs[0]) {
      FromIsShorter(xs[1..], p);
    }
  }

  /** One more captured frame. */
  lemma FrameIsRecorded(c: Config, maxQueue: nat, s: State, fs: seq<Frame>, accepted: seq<Frame>, f: Frame,
                        created: bool)
    requires c.HasVideoRecorder() && |fs| < maxQueue && Recording(s, fs, accepted)
    ensures Recording(AfterFrame(c, maxQueue, s, f, created, true), fs + [f], accepted)
  {
    hide Accepted, From, AfterRotation, AfterEnqueue;
    FromIsShorter(fs, IsKeyframe);
    FromAppended(fs, f, IsKeyframe);
    var s2 := Anchored(c, s, f);
    if !s2.resetPending {
      var s3 := if Rotates(s2, f) then AfterRotation(c, s2, true) else s2;
      RotationAccepts(c, s2, true);
      RotationGoesOn(c, s2);
      EnqueueAccepts(c, maxQueue, s3, f);
    }
  }

  lemma RotationGoesOn(c: Config, s: State)
    ensures AfterRotation(c, s, true).recording && !AfterRotation(c, s, true).resetPending
  {
  }

  lemma EnqueueAccepts(c: Config, maxQueue: nat, s: State, f: Frame)
    requires c.HasVideoRecorder() && |s.frames| < maxQueue
    ensures var t := AfterEnqueue(c, maxQueue, s, f);
            Accepted(t.log) == Accepted(s.log) + [f] && t.frames == s.frames + [f] && t.recording == s.recording &&
            t.resetPending == s.resetPending
  {
    AcceptedAppended(s.log, Enqueued(f));
  }

  /** Every frame reaches the encoder: from a start on, while nothing stops the recorder and the queue is long enough,
      the accepted frames are exactly the captured ones from the first keyframe on, over all rotations. */
  lemma {:induction false} EveryFrameIsAccepted(c: Config, maxQueue: nat, s: State, steps: seq<Step>)
    requires c.HasVideoRecorder() && |Frames(steps)| <= maxQueue && Undisturbed(steps)
    requires s.recording && s.resetPending && s.frames == []
    ensures Recording(Run(c, maxQueue, s, steps), Frames(steps), Accepted(s.log))
  {
    if steps == [] {
      assert Accepted(s.log) + [] == Accepted(s.log);
    } else {
      var before, step := steps[..|steps| - 1], steps[|steps| - 1];
      var mid := Run(c, maxQueue, s, before);
      EveryFrameIsAccepted(c, maxQueue, s, before);
      hide Accepted, From, AfterFrame, AfterPacket;
      match step
      case OnFrame(f, created, recreated) =>
        FrameIsRecorded(c, maxQueue, mid, Frames(before), Accepted(s.log), f, created);
      case OnPacket(key, headerOk) =>
        PacketAccepts(mid, key, headerOk);
        PacketGoesOn(mid, key, headerOk);
        assert Frames(before) + [] == Frames(before);
      case StartCommand(_) => assert Frames(before) + [] == Frames(before);
      case Consume => assert Frames(before) + [] == Frames(before);
    }
  }

  lemma PacketGoesOn(s: State, key: bool, headerOk: bool)
    ensures var t := AfterPacket(s, key, headerOk); t.recording == s.recording && t.resetPending == s.resetPending
  {
  }

  /** In background mode the keyframe that finds the recorder idle starts it and is recorded like any other. */
  lemma AutoStartIsAStart(c: Config, maxQueue: nat, s: State, f: Frame, recreated: bool)
    requires AutoStarts(c, s, f)
    ensures var t := AfterStart(c, s, true);
            t.recording && t.resetPending &&
            AfterFrame(c, maxQueue, s, f, true, recreated) == AfterFrame(c, maxQueue, t, f, true, recreated)
  {
  }

  // ---- commands and files ----

  /** A start command that can create its file begins a recording into a new file; a stop command ends the recording
      and closes every file; a failing header closes the file at once. */
  lemma CommandsTakeEffect(c: Config, maxQueue: nat, s: State)
    requires Inv(c, maxQueue, s)
    ensures var t := Next(c, maxQueue, s, StartCommand(true));
            t.recording && (!s.recording && c.recordType != Snapshot ==> PhaseOf(t.log) == HeaderDue(s.files))
    ensures forall step | step in {StopCommand, Destroy} ::
              var t := Next(c, maxQueue, s, step); !t.recording && PhaseOf(t.log) == NoFile(s.files)
    ensures s.ctx.Some? && !s.headerWritten ==>
              PhaseOf(Next(c, maxQueue, s, OnPacket(true, false)).log) == NoFile(s.files)
  {
    StartTakesEffect(c, maxQueue, s);
    StopTakesEffect(c, maxQueue, s, StopCommand);
    StopTakesEffect(c, maxQueue, s, Destroy);
    BadHeaderTakesEffect(c, maxQueue, s);
    hide Inv, Next, PhaseOf;
  }

  lemma StartTakesEffect(c: Config, maxQueue: nat, s: State)
    requires Inv(c, maxQueue, s)
    ensures var t := Next(c, maxQueue, s, StartCommand(true));
            t.recording && (!s.recording && c.recordType != Snapshot ==> PhaseOf(t.log) == HeaderDue(s.files))
  {
    hide GateOf, PhaseOf;
    NextKeeps(c, maxQueue, s, StartCommand(true));
  }

  lemma StopTakesEffect(c: Config, maxQueue: nat, s: State, step: Step)
    requires Inv(c, maxQueue, s) && step in {StopCommand, Destroy}
    ensures var t := Next(c, maxQueue, s, step); !t.recording && PhaseOf(t.log) == NoFile(s.files)
  {
    hide GateOf, PhaseOf;
    NextKeeps(c, maxQueue, s, step);
  }

  lemma BadHeaderTakesEffect(c: Config, maxQueue: nat, s: State)
    requires Inv(c, maxQueue, s)
    ensures s.ctx.Some? && !s.headerWritten ==>
              PhaseOf(Next(c, maxQueue, s, OnPacket(true, false)).log) == NoFile(s.files)
  {
    hide GateOf, PhaseOf;
    NextKeeps(c, maxQueue, s, OnPacket(true, false));
  }

  /** The recorder that is idle and not started records nothing. */
  lemma {:induction false} IdleRecordsNothing(c: Config, maxQueue: nat, s: State, steps: seq<Step>)
    requires !s.recording && s.ctx == None && !c.autoStart
    requires forall i | 0 <= i < |steps| :: !steps[i].StartCommand?
    ensures var t := Run(c, maxQueue, s, steps); t.log == s.log && !t.recording && t.ctx == None
  {
    if steps != [] {
      IdleRecordsNothing(c, maxQueue, s, steps[..|steps| - 1]);
    }
  }

  lemma FrameMakesFiles(c: Config, maxQueue: nat, s: State, f: Frame, created: bool)
    requires c.recordType != Snapshot && s.recording && !s.resetPending
    ensures var t := AfterFrame(c, maxQueue, s, f, created, true);
            t.recording && !t.resetPending && t.files == s.files + (if Rotates(s, f) then 1 else 0) &&
            (Rotates(s, f) ==> t.ctx == Some(s.files)) && (!Rotates(s, f) ==> t.ctx == s.ctx)
  {
  }

  /** Each rotation makes one new file, and nothing else does: after any undisturbed steps there are as many more files
      as there were rotations. */
  lemma {:induction false} EachRotationMakesAFile(c: Config, maxQueue: nat, s: State, steps: seq<Step>)
    requires c.recordType != Snapshot && s.recording && !s.resetPending && Undisturbed(steps)
    ensures var t := Run(c, maxQueue, s, steps);
            t.recording && !t.resetPending && t.files == s.files + |Rotations(c, maxQueue, s, steps)|
  {
    if steps != [] {
      var before, step := steps[..|steps| - 1], steps[|steps| - 1];
      var mid := Run(c, maxQueue, s, before);
      EachRotationMakesAFile(c, maxQueue, s, before);
      if step.OnFrame? {
        FrameMakesFiles(c, maxQueue, mid, step.f, step.created);
        hide AfterFrame;
      }
    }
  }

  /** A recorder that is idle begins on a frame exactly in background mode, on a keyframe, when its file can be
      created; otherwise nothing is recorded. A start command whose file cannot be created begins nothing, and a
      rotation whose file cannot be created ends the recording. */
  lemma StartsExactlyWhenItCan(c: Config, maxQueue: nat, s: State, f: Frame, created: bool, recreated: bool)
    requires !s.recording && s.ctx == None && (0 < c.fileDuration || recreated)
    ensures var t := AfterFrame(c, maxQueue, s, f, created, recreated);
            && (t.recording <==> c.autoStart && f.key && (created || c.recordType == Snapshot))
            && (!t.recording ==> t.log == s.log && t.ctx == None)
    ensures var t := Next(c, maxQueue, s, StartCommand(created));
            && (t.recording <==> created || c.recordType == Snapshot)
            && (!t.recording ==> t.log == s.log && t.ctx == None)
  {
  }

  lemma FailingRotationEnds(c: Config, maxQueue: nat, s: State, f: Frame, created: bool)
    requires c.recordType != Snapshot && s.recording && !s.resetPending && Rotates(s, f)
    ensures var t := AfterFrame(c, maxQueue, s, f, created, false); !t.recording && t.ctx == None && t.files == s.files
  {
  }
}
