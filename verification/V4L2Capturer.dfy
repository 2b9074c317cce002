/** The life of a capture device: create, pause, resume, destroy, and who owns its kernel buffers meanwhile.

    StartCapture, StopCapture and ResumeCapture exclude each other, and StopCapture joins the worker before it touches
    the device, so that these calls and the iterations of the worker are the atomic steps. The outcomes of ioctls are
    parameters; queueing a buffer that is queued already always fails, and switching the stream off takes all buffers
    out of the driver's queue. `exit` is a flag after which nothing more happens. */
module V4L2Capturer {
  import opened Arithmetic

  const BUFFER_COUNT := 4
  const MAX_CAPTURE_FAILURES := 25
  const BACKOFF_MIN := 2
  const BACKOFF_MAX := 30

  type Index = nat

  /** A hardware-decoded H.264 stream is delivered from its first keyframe on; in software it cannot be decoded. */
  datatype Config = Config(hwAccel: bool, h264: bool)

  datatype State = State(
    open: bool,                      // fd_ >= 0
    mapped: set<Index>,
    queued: set<Index>,              // owned by the driver
    lost: set<Index>,                // could not be queued again
    held: set<Index>,                // dequeued, being processed
    capturing: bool,
    worker: bool,
    failures: nat,
    keyframeSeen: bool,
    exited: bool,
    allocations: nat,
    requeues: seq<Index>,            // QBUF calls of the worker
    delivered: seq<Index>)

  const CLOSED := State(false, {}, {}, {}, {}, false, false, 0, false, false, 0, [], [])

  /** The first n buffers mapped in addition. */
  function WithMapped(mapped: set<Index>, n: nat): set<Index> {
    mapped + Below(n)
  }

  lemma OneMoreMapped(mapped: set<Index>, n: nat)
    ensures WithMapped(mapped, 0) == mapped && WithMapped(mapped, n) + {n} == WithMapped(mapped, n + 1)
  {
  }

  function All(): set<Index> {
    Below(BUFFER_COUNT)
  }

  // ---- operations on the buffer group, each with its first failing ioctl (none when that is 4 or more) ----

  /** How many buffers a loop over all of them gets through. */
  function Through(failAt: nat): nat {
    if failAt < BUFFER_COUNT then failAt else BUFFER_COUNT
  }

  /** Queueing the buffers from i on: whether all were queued, and what is queued then. */
  function Queueing(queued: set<Index>, i: nat, failAt: nat): (bool, set<Index>)
    requires i <= BUFFER_COUNT
    decreases BUFFER_COUNT - i
  {
    if i == BUFFER_COUNT then (true, queued)
    else if i == failAt || i in queued then (false, queued)
    else Queueing(queued + {i}, i + 1, failAt)
  }

  // ---- outcomes ----

  datatype InitOutcome = NoDevice | BadEnumeration | Ready

  datatype CaptureEvent =
    | Interrupted
    | Failed(alive: bool)            // select failed or timed out, or DQBUF failed; whether QUERYCAP still answers
    | Frame(index: Index, bad: bool, key: bool, requeues: bool)

  /** Opening and starting: how often Initialize fails first, and the first failing ioctls. */
  datatype Opening = Opening(tries: seq<InitOutcome>, mapFailAt: nat, queueFailAt: nat)

  // ---- specification ----

  function Exit(s: State): State {
    s.(exited := true)
  }

  function AfterStreaming(s: State, failAt: nat): State {
    var (ok, queued) := Queueing(s.queued, 0, failAt);
    var s1 := s.(queued := queued);
    if ok then s1.(worker := true, lost := {}) else Exit(s1)
  }

  function NowCapturing(s: State): State {
    if s.exited then s else s.(capturing := true)
  }

  function AfterAllocation(s: State, failAt: nat): State {
    var s1 := s.(mapped := WithMapped(s.mapped, Through(failAt)));
    if failAt < BUFFER_COUNT then Exit(s1) else s1.(allocations := s.allocations + 1)
  }

  /** Initialize is repeated until it succeeds; a configuration that cannot work ends the process. */
  function AfterInitialize(c: Config, s: State): State {
    if !c.hwAccel && c.h264 then Exit(s) else s.(open := true)
  }

  function AfterOpening(c: Config, s: State, o: Opening): State {
    var s1 := AfterInitialize(c, s);
    if s1.exited then s1
    else
      var s2 := AfterAllocation(s1, o.mapFailAt);
      if s2.exited then s2 else NowCapturing(AfterStreaming(s2, o.queueFailAt))
  }

  function AfterCreate(c: Config, passive: bool, o: Opening): State {
    if passive then CLOSED else AfterOpening(c, CLOSED, o)
  }

  function AfterStop(s: State): State {
    if !s.capturing then s
    else s.(worker := false, queued := {}, lost := {}, failures := 0, keyframeSeen := false, capturing := false)
  }

  function AfterResume(c: Config, s: State, o: Opening): State {
    if s.capturing then s
    else if s.open then NowCapturing(AfterStreaming(s, o.queueFailAt))
    else AfterOpening(c, s, o)
  }

  function AfterFailure(s: State, alive: bool): State {
    if !alive then Exit(s.(open := false))
    else
      var s1 := s.(failures := s.failures + 1);
      if s1.failures >= MAX_CAPTURE_FAILURES then Exit(s1) else s1
  }

  function AfterRequeue(s: State, i: Index, ok: bool): State {
    var s1 := s.(held := s.held - {i}, requeues := s.requeues + [i]);
    if ok && i !in s.queued then s1.(queued := s.queued + {i}) else s1.(lost := s.lost + {i})
  }

  /** Whether a good frame is withheld because no keyframe has come yet. */
  predicate Withheld(c: Config, s: State, key: bool) {
    c.hwAccel && c.h264 && !key && !s.keyframeSeen
  }

  function AfterCapture(c: Config, s: State, e: CaptureEvent): State {
    match e
    case Interrupted => s
    case Failed(alive) => AfterFailure(s, alive)
    case Frame(i, bad, key, requeues) =>
      var s1 := s.(queued := s.queued - {i}, held := s.held + {i}, failures := 0);
      var s2 :=
        if bad then s1
        else
          var s3 := s1.(keyframeSeen := s.keyframeSeen || (c.hwAccel && c.h264 && key));
          if Withheld(c, s, key) then s3 else s3.(delivered := s.delivered + [i]);
      AfterRequeue(s2, i, requeues)
  }

  /** Buffers unmapped, device closed. */
  function AfterDestroy(s: State): State {
    if !s.open then s.(worker := false)
    else s.(worker := false, queued := {}, mapped := {}, open := false)
  }

  /** Seconds to wait after failure n, counted from 0. */
  function Backoff(n: nat): nat {
    if n == 0 then BACKOFF_MIN
    else if 2 * Backoff(n - 1) < BACKOFF_MAX then 2 * Backoff(n - 1) else BACKOFF_MAX
  }

  /** The waits after n failures. */
  function Backoffs(n: nat): seq<nat> {
    if n == 0 then [] else Backoffs(n - 1) + [Backoff(n - 1)]
  }

  /** How many attempts fail before the first that succeeds. */
  function Failures(tries: seq<InitOutcome>): nat {
    if tries == [] || tries[0] == Ready then 0 else 1 + Failures(tries[1..])
  }

  /** The waits double from 2 seconds until they stay at 30. */
  lemma {:induction false} BackoffDoublesUpToThirty(n: nat)
    ensures Backoff(n) == if n == 0 then 2 else if n == 1 then 4 else if n == 2 then 8 else if n == 3 then 16 else 30
  {
    if n > 0 {
      BackoffDoublesUpToThirty(n - 1);
    }
  }

  lemma {:induction false} WaitsAre(n: nat, i: nat)
    requires i < n
    ensures |Backoffs(n)| == n && Backoffs(n)[i] == Backoff(i) && 2 <= Backoffs(n)[i] <= 30
  {
    BackoffDoublesUpToThirty(i);
    if n > 1 {
      WaitsAre(n - 1, if i < n - 1 then i else 0);
    }
  }

  // ---- the capturer ----

  class V4L2Capturer {
    const config: Config
    var open: bool
    var mapped: set<Index>
    var capturing: bool
    var worker: bool
    var failures: nat
    var keyframeSeen: bool
    var exited: bool
    var queued: set<Index>
    ghost var lost: set<Index>
    ghost var held: set<Index>
    ghost var allocations: nat
    ghost var requeues: seq<Index>
    ghost var delivered: seq<Index>

    constructor (config: Config)
      ensures this.config == config && Abstract() == CLOSED
    {
      this.config := config;
      open, capturing, worker, exited, keyframeSeen := false, false, false, false, false;
      failures, allocations := 0, 0;
      mapped, queued, lost, held := {}, {}, {}, {};
      requeues, delivered := [], [];
    }

    ghost function Abstract(): State
      reads this
    {
      State(open, mapped, queued, lost, held, capturing, worker, failures, keyframeSeen, exited, allocations, requeues,
            delivered)
    }

    static method Create(config: Config, passive: bool, o: Opening) returns (c: V4L2Capturer)
      ensures fresh(c) && c.config == config && c.Abstract() == AfterCreate(config, passive, o)
    {
      c := new V4L2Capturer(config);
      if passive {
        return;
      }
      var _ := c.InitializePatiently(o.tries);
      if !c.exited {
        c.StartCapture(o.mapFailAt, o.queueFailAt);
      }
    }

    /** False when the device is absent or badly enumerated; it is closed then. */
    method Initialize(outcome: InitOutcome) returns (ok: bool)
      requires !open
      modifies this`open, this`exited
      ensures !config.hwAccel && config.h264 ==> exited && !open
      ensures !(!config.hwAccel && config.h264) ==> exited == old(exited) && ok == open == (outcome == Ready)
    {
      if !config.hwAccel && config.h264 {
        exited := true;
        return false;
      }
      open := outcome != NoDevice;
      if !open {
        return false;
      }
      if outcome == BadEnumeration {
        open := false;
        return false;
      }
      ok := true;
    }

    /** Tries until Initialize succeeds, and waits after each failure; the outcomes after `tries` are successes. */
    method InitializePatiently(tries: seq<InitOutcome>) returns (waits: seq<nat>)
      requires !open && !exited
      modifies this`open, this`exited
      ensures Abstract() == AfterInitialize(config, old(Abstract()))
      ensures waits == Backoffs(if exited then 0 else Failures(tries))
    {
      var n, backoff := 0, BACKOFF_MIN;
      waits := [];
      var ok := Initialize(if tries == [] then Ready else tries[0]);
      assert tries[0..] == tries;
      while !ok && !exited
        invariant n <= |tries| && backoff == Backoff(n) && waits == Backoffs(n)
        invariant exited ==> !config.hwAccel && config.h264 && !open && n == 0
        invariant !exited ==> !(!config.hwAccel && config.h264) && ok == open == (n == |tries| || tries[n] == Ready)
        invariant !exited ==> n + Failures(tries[n..]) == Failures(tries)
        decreases |tries| - n
      {
        waits := waits + [backoff];
        assert tries[n..][1..] == tries[n + 1..];
        n := n + 1;
        backoff := if backoff * 2 < BACKOFF_MAX then backoff * 2 else BACKOFF_MAX;
        ok := Initialize(if n < |tries| then tries[n] else Ready);
      }
    }

    method AllocateBuffer(failAt: nat) returns (ok: bool)
      modifies this`mapped, this`allocations
      ensures mapped == WithMapped(old(mapped), Through(failAt)) && ok == (failAt >= BUFFER_COUNT)
      ensures allocations == old(allocations) + (if ok then 1 else 0)
    {
      var i: nat := 0;
      OneMoreMapped(mapped, 0);
      hide WithMapped;
      while i < BUFFER_COUNT
        invariant i <= Through(failAt) && mapped == WithMapped(old(mapped), i)
        modifies this`mapped
      {
        if i == failAt {
          return false;
        }
        OneMoreMapped(old(mapped), i);
        mapped := mapped + {i};
        i := i + 1;
      }
      allocations := allocations + 1;
      ok := true;
    }

    method AllocateOrExit(failAt: nat)
      requires !exited
      modifies this`mapped, this`allocations, this`exited
      ensures Abstract() == AfterAllocation(old(Abstract()), failAt)
    {
      hide WithMapped, Through;
      var ok := AllocateBuffer(failAt);
      if !ok {
        exited := true;
      }
    }

    method QueueBuffers(failAt: nat) returns (ok: bool)
      modifies this`queued
      ensures (ok, queued) == Queueing(old(queued), 0, failAt)
    {
      var i := 0;
      while i < BUFFER_COUNT
        invariant 0 <= i <= BUFFER_COUNT && Queueing(queued, i, failAt) == Queueing(old(queued), 0, failAt)
      {
        if i == failAt || i in queued {
          return false;
        }
        queued := queued + {i};
        i := i + 1;
      }
      ok := true;
    }

    method StartStreaming(failAt: nat)
      modifies this
      ensures Abstract() == AfterStreaming(old(Abstract()), failAt)
    {
      hide Queueing;
      var ok := QueueBuffers(failAt);
      if !ok {
        exited := true;
        return;
      }
      lost := {};
      worker := true;
    }

    method StartCapture(mapFailAt: nat, queueFailAt: nat)
      requires !exited
      modifies this
      ensures var s := old(Abstract());
              var s1 := AfterAllocation(s, mapFailAt);
              Abstract() == if s.capturing then s else if s1.exited then s1
                            else NowCapturing(AfterStreaming(s1, queueFailAt))
    {
      hide Below, AfterStreaming;
      if capturing {
        return;
      }
      AllocateOrExit(mapFailAt);
      if exited {
        return;
      }
      StartStreaming(queueFailAt);
      if !exited {
        capturing := true;
      }
    }

    method StopCapture()
      requires !exited
      modifies this
      ensures Abstract() == AfterStop(old(Abstract()))
    {
      if !capturing {
        return;
      }
      worker := false;
      queued, lost := {}, {};
      failures := 0;
      keyframeSeen := false;
      capturing := false;
    }

    method ResumeCapture(o: Opening)
      requires !exited
      modifies this
      ensures Abstract() == AfterResume(config, old(Abstract()), o)
    {
      hide Below, AfterStreaming, AfterInitialize, AfterAllocation;
      if capturing {
        return;
      }
      if !open {
        var _ := InitializePatiently(o.tries);
        if exited {
          return;
        }
        AllocateOrExit(o.mapFailAt);
        if exited {
          return;
        }
      }
      StartStreaming(o.queueFailAt);
      if !exited {
        capturing := true;
      }
    }

    method HandleCaptureFailure(alive: bool)
      requires !exited
      modifies this
      ensures Abstract() == AfterFailure(old(Abstract()), alive)
    {
      if !alive {
        open := false;
        exited := true;
        return;
      }
      failures := failures + 1;
      if failures >= MAX_CAPTURE_FAILURES {
        exited := true;
      }
    }

    method QueueBuffer(i: Index, ok: bool)
      modifies this
      ensures Abstract() == AfterRequeue(old(Abstract()), i, ok)
    {
      held := held - {i};
      requeues := requeues + [i];
      if ok && i !in queued {
        queued := queued + {i};
      } else {
        lost := lost + {i};
      }
    }

    method CaptureImage(e: CaptureEvent)
      requires !exited && (e.Frame? ==> e.index in queued)
      modifies this
      ensures Abstract() == AfterCapture(config, old(Abstract()), e)
    {
      hide AfterRequeue;
      if e.Interrupted? {
        return;
      }
      if e.Failed? {
        HandleCaptureFailure(e.alive);
        return;
      }
      queued, held := queued - {e.index}, held + {e.index};
      failures := 0;
      if e.bad {
        QueueBuffer(e.index, e.requeues);
        return;
      }
      if config.hwAccel && config.h264 {
        if e.key {
          keyframeSeen := true;
        }
        if !keyframeSeen {
          QueueBuffer(e.index, e.requeues);
          return;
        }
      }
      delivered := delivered + [e.index];
      QueueBuffer(e.index, e.requeues);
    }

    /** The destructor. */
    method Destroy()
      requires !exited
      modifies this
      ensures Abstract() == AfterDestroy(old(Abstract()))
      ensures old(Inv(Abstract())) ==> !open && !worker && mapped == {} && queued == {}
    {
      hide Inv, AfterStop, All;
      ghost var s := Abstract();
      if Inv(s) {
        DestructionReleasesAll(s);
      }
      worker := false;
      if !open {
        return;
      }
      queued := {};
      while mapped != {}
        modifies this`mapped
        decreases mapped
      {
        var i :| i in mapped;
        mapped := mapped - {i};
      }
      open := false;
      assert Abstract() == s.(worker := false, queued := {}, mapped := {}, open := false);
    }
  }

  // ---- every run ----

  datatype Step = Stop | Resume(o: Opening) | Capture(e: CaptureEvent)

  /** The worker runs iterations while it lives; the driver hands out buffers that are queued. */
  predicate Enabled(s: State, step: Step) {
    !s.exited && (step.Capture? ==> s.worker && (step.e.Frame? ==> step.e.index in s.queued))
  }

  function Next(c: Config, s: State, step: Step): State {
    match step
    case Stop => AfterStop(s)
    case Resume(o) => AfterResume(c, s, o)
    case Capture(e) => AfterCapture(c, s, e)
  }

  ghost predicate IsRun(c: Config, states: seq<State>, steps: seq<Step>) {
    && |states| == |steps| + 1
    && (exists passive, o :: states[0] == AfterCreate(c, passive, o))
    && forall i | 0 <= i < |steps| :: Enabled(states[i], steps[i]) && states[i + 1] == Next(c, states[i], steps[i])
  }

  /** While the process lives: the worker runs iff capturing; an open device has all its buffers mapped, by the one
      allocation there was; while capturing every buffer is queued to the driver or was refused by it; otherwise none
      is queued. */
  ghost predicate Inv(s: State) {
    && s.allocations <= 1
    && (!s.exited ==>
          && s.held == {} && (s.worker <==> s.capturing) && s.failures < MAX_CAPTURE_FAILURES
          && s.mapped == (if s.open then All() else {}) && s.allocations == (if s.open then 1 else 0)
          && (s.capturing ==> s.open && s.queued + s.lost == All() && s.queued !! s.lost)
          && (!s.capturing ==> s.queued == {}))
  }

  lemma {:induction false} QueueingFromEmpty(i: nat, failAt: nat)
    requires i <= BUFFER_COUNT
    ensures failAt >= BUFFER_COUNT ==> Queueing(Below(i), i, failAt) == (true, All())
    ensures i <= failAt < BUFFER_COUNT ==> !Queueing(Below(i), i, failAt).0
    decreases BUFFER_COUNT - i
  {
    if i < BUFFER_COUNT && i != failAt {
      assert Below(i) + {i} == Below(i + 1);
      QueueingFromEmpty(i + 1, failAt);
    }
  }

  /** Nothing is queued when streaming starts, so that only the driver can refuse a buffer. */
  lemma StreamingQueuesAll(s: State, failAt: nat)
    requires s.queued == {}
    ensures var t := AfterStreaming(s, failAt);
            if failAt >= BUFFER_COUNT then t == s.(queued := All(), worker := true, lost := {})
            else t.exited && t.allocations == s.allocations
  {
    assert Below(0) == {};
    QueueingFromEmpty(0, failAt);
    hide Queueing, Below;
  }

  lemma StreamingKeeps(s: State, failAt: nat)
    requires !s.exited && s.held == {} && s.queued == {} && s.failures < MAX_CAPTURE_FAILURES
    requires s.open && s.mapped == All() && s.allocations == 1
    ensures Inv(NowCapturing(AfterStreaming(s, failAt)))
  {
    StreamingQueuesAll(s, failAt);
    hide Below, AfterStreaming;
  }

  lemma OpeningKeeps(c: Config, s: State, o: Opening)
    requires Inv(s) && !s.exited && !s.open
    ensures Inv(AfterOpening(c, s, o))
  {
    hide Below, AfterStreaming;
    var s1 := AfterInitialize(c, s);
    if !s1.exited {
      var s2 := AfterAllocation(s1, o.mapFailAt);
      if !s2.exited {
        StreamingKeeps(s2, o.queueFailAt);
      }
    }
  }

  /** What a frame changes, on every path. */
  lemma FrameChanges(c: Config, s: State, e: CaptureEvent)
    requires e.Frame? && e.index in s.queued && s.held == {}
    ensures var t := AfterCapture(c, s, e);
            t == s.(queued := if e.requeues then s.queued else s.queued - {e.index},
                    lost := if e.requeues then s.lost else s.lost + {e.index},
                    failures := 0, requeues := s.requeues + [e.index],
                    keyframeSeen := t.keyframeSeen, delivered := t.delivered)
  {
    assert s.queued - {e.index} + {e.index} == s.queued;
    assert {} + {e.index} - {e.index} == {};
  }

  lemma CaptureKeeps(c: Config, s: State, e: CaptureEvent)
    requires Inv(s) && Enabled(s, Capture(e))
    ensures Inv(AfterCapture(c, s, e))
  {
    hide All, AfterRequeue;
    if e.Frame? {
      FrameChanges(c, s, e);
      hide AfterCapture;
    }
  }

  lemma NextKeeps(c: Config, s: State, step: Step)
    requires Inv(s) && Enabled(s, step)
    ensures Inv(Next(c, s, step))
  {
    hide Below, AfterStreaming;
    match step
    case Stop =>
    case Resume(o) =>
      if !s.capturing {
        if s.open { StreamingKeeps(s, o.queueFailAt); } else { OpeningKeeps(c, s, o); }
      }
    case Capture(e) => CaptureKeeps(c, s, e);
  }

  lemma {:induction false} EveryRunKeeps(c: Config, states: seq<State>, steps: seq<Step>, k: nat)
    requires IsRun(c, states, steps) && k < |states|
    ensures Inv(states[k])
    decreases k
  {
    hide Inv, Next, Enabled, AfterCreate;
    if k == 0 {
      var passive, o :| states[0] == AfterCreate(c, passive, o);
      CreateKeeps(c, passive, o);
    } else {
      EveryRunKeeps(c, states, steps, k - 1);
      NextKeeps(c, states[k - 1], steps[k - 1]);
    }
  }

  lemma CreateKeeps(c: Config, passive: bool, o: Opening)
    ensures Inv(AfterCreate(c, passive, o))
  {
    hide Below, AfterOpening;
    if !passive {
      OpeningKeeps(c, CLOSED, o);
    }
  }

  /** Every path through CaptureImage that dequeues a buffer queues exactly this buffer again, once; the other paths
      queue nothing. */
  lemma EachFrameIsRequeuedOnce(c: Config, s: State, e: CaptureEvent)
    requires Inv(s) && Enabled(s, Capture(e))
    ensures var t := AfterCapture(c, s, e);
            if e.Frame? then t.requeues == s.requeues + [e.index] && t.held == {} &&
                             t.queued == if e.requeues then s.queued else s.queued - {e.index}
            else t.requeues == s.requeues && t.queued == s.queued
  {
    hide All, AfterRequeue;
    if e.Frame? {
      FrameChanges(c, s, e);
      hide AfterCapture;
    }
  }

  predicate QueuesAgain(step: Step) {
    step.Capture? && step.e.Frame? ==> step.e.requeues
  }

  /** When no QBUF fails, the driver owns all buffers between any two iterations. */
  lemma {:induction false} AllQueuedBetweenIterations(c: Config, states: seq<State>, steps: seq<Step>, k: nat)
    requires IsRun(c, states, steps) && k < |states| && forall i | 0 <= i < |steps| :: QueuesAgain(steps[i])
    ensures !states[k].exited && states[k].capturing ==> states[k].queued == All()
    decreases k
  {
    hide All, Inv, Next, Enabled, AfterOpening, QueuesAgain;
    if k > 0 {
      AllQueuedBetweenIterations(c, states, steps, k - 1);
      EveryRunKeeps(c, states, steps, k - 1);
      StillRunning(c, states, steps, k - 1);
      StepKeepsAllQueued(c, states[k - 1], steps[k - 1]);
    } else {
      var passive, o :| states[0] == AfterCreate(c, passive, o);
      if !passive { OpeningQueuesAll(c, CLOSED, o); }
    }
  }

  lemma StillRunning(c: Config, states: seq<State>, steps: seq<Step>, i: nat)
    requires IsRun(c, states, steps) && i < |steps|
    ensures Enabled(states[i], steps[i]) && !states[i].exited && states[i + 1] == Next(c, states[i], steps[i])
  {
  }

  lemma RunLength(c: Config, states: seq<State>, steps: seq<Step>)
    requires IsRun(c, states, steps)
    ensures |states| == |steps| + 1
  {
  }

  lemma OpeningQueuesAll(c: Config, s: State, o: Opening)
    requires s.queued == {} && !s.exited
    ensures AfterOpening(c, s, o).exited || AfterOpening(c, s, o).queued == All()
  {
    hide Below, AfterStreaming;
    var s1 := AfterInitialize(c, s);
    if !s1.exited {
      StreamingQueuesAll(AfterAllocation(s1, o.mapFailAt), o.queueFailAt);
    }
  }

  lemma StepKeepsAllQueued(c: Config, s: State, step: Step)
    requires Inv(s) && Enabled(s, step) && QueuesAgain(step) && (s.capturing ==> s.queued == All())
    ensures var t := Next(c, s, step); !t.exited && t.capturing ==> t.queued == All()
  {
    hide Below, AfterStreaming, AfterOpening;
    match step
    case Stop =>
    case Resume(o) =>
      if !s.capturing {
        if s.open { StreamingQueuesAll(s, o.queueFailAt); } else { OpeningQueuesAll(c, s, o); }
      }
    case Capture(e) => EachFrameIsRequeuedOnce(c, s, e);
  }

  /** Every resume of a run that starts streaming finds no buffer queued, so that it fails only if an ioctl does; then
      all buffers are queued. */
  lemma ResumeFindsNothingQueued(c: Config, states: seq<State>, steps: seq<Step>, k: nat)
    requires IsRun(c, states, steps) && k < |steps| && steps[k].Resume? && !states[k].capturing
    ensures states[k].queued == {}
    ensures var o, t := steps[k].o, states[k + 1];
            var opens := states[k].open || (!(!c.hwAccel && c.h264) && o.mapFailAt >= BUFFER_COUNT);
            if opens && o.queueFailAt >= BUFFER_COUNT then !t.exited && t.capturing && t.queued == All() else t.exited
  {
    EveryRunKeeps(c, states, steps, k);
    StillRunning(c, states, steps, k);
    hide IsRun, Below, AfterStreaming, Enabled;
    var s, o := states[k], steps[k].o;
    StreamingQueuesAll(s, o.queueFailAt);
    StreamingQueuesAll(AfterAllocation(AfterInitialize(c, s), o.mapFailAt), o.queueFailAt);
  }

  /** Buffers are allocated at most once and stay mapped for as long as the run goes on. */
  lemma {:induction false} MappedUntilDestruction(c: Config, states: seq<State>, steps: seq<Step>, i: nat, j: nat)
    requires IsRun(c, states, steps) && i <= j < |states|
    ensures states[i].mapped <= states[j].mapped && states[j].allocations <= 1
    ensures !states[j].exited && states[i].open ==> states[j].open && states[j].mapped == All()
    decreases j
  {
    hide All, Next, Enabled, IsRun;
    RunLength(c, states, steps);
    OpenIsMapped(c, states, steps, j);
    if i < j {
      MappedUntilDestruction(c, states, steps, i, j - 1);
      StillRunning(c, states, steps, j - 1);
      StaysMapped(c, states[j - 1], steps[j - 1]);
    }
  }

  lemma OpenIsMapped(c: Config, states: seq<State>, steps: seq<Step>, k: nat)
    requires IsRun(c, states, steps) && k < |states|
    ensures states[k].allocations <= 1 && (!states[k].exited && states[k].open ==> states[k].mapped == All())
  {
    hide All, IsRun;
    EveryRunKeeps(c, states, steps, k);
  }

  lemma StaysMapped(c: Config, s: State, step: Step)
    requires !s.exited
    ensures var t := Next(c, s, step); s.mapped <= t.mapped && (!t.exited && s.open ==> t.open)
  {
    hide Below, AfterStreaming, AfterCapture, Through;
    match step
    case Stop =>
    case Resume(o) =>
      if !s.capturing {
        var s1 := AfterInitialize(c, s);
        StreamingOnlyQueues(s, o.queueFailAt);
        StreamingOnlyQueues(AfterAllocation(s1, o.mapFailAt), o.queueFailAt);
      }
    case Capture(e) => CaptureMapsNothing(c, s, e);
  }

  lemma StreamingOnlyQueues(s: State, failAt: nat)
    ensures var t := AfterStreaming(s, failAt);
            t == s.(queued := t.queued, lost := t.lost, worker := t.worker, exited := t.exited)
  {
    hide Queueing;
  }

  lemma CaptureMapsNothing(c: Config, s: State, e: CaptureEvent)
    ensures var t := AfterCapture(c, s, e); t.mapped == s.mapped && (!t.exited ==> t.open == s.open)
  {
    if e.Frame? {
      FrameMapsNothing(c, s, e);
      hide AfterCapture;
    }
  }

  lemma FrameMapsNothing(c: Config, s: State, e: CaptureEvent)
    requires e.Frame?
    ensures var t := AfterCapture(c, s, e); t.mapped == s.mapped && t.open == s.open
  {
    hide AfterRequeue;
    RequeueOnlyMoves();
  }

  lemma RequeueOnlyMoves()
    ensures forall s, i, ok :: var t := AfterRequeue(s, i, ok);
              t == s.(queued := t.queued, lost := t.lost, held := t.held, requeues := t.requeues)
  {
  }

  /** A pause and the destructor give everything back: after a pause nothing is queued, after the destructor nothing
      is mapped and the device is closed; a capturer that never opened the device is left alone. */
  lemma DestructionReleasesAll(s: State)
    requires Inv(s) && !s.exited
    ensures AfterStop(s).queued == {} && AfterStop(s).mapped == s.mapped
    ensures var t := AfterDestroy(s); !t.open && !t.worker && t.mapped == {} && t.queued == {}
  {
  }

  // ---- the keyframe gate ----

  predicate IsKeyframe(step: Step) {
    step.Capture? && step.e.Frame? && !step.e.bad && step.e.key
  }

  predicate Pauses(s: State, step: Step) {
    step.Stop? && s.capturing
  }

  /** A keyframe came at step j and no pause between it and step k. */
  ghost predicate KeyframeSince(states: seq<State>, steps: seq<Step>, j: nat, k: nat)
    requires j < k <= |steps| && |states| == |steps| + 1
  {
    IsKeyframe(steps[j]) && forall i | j < i < k :: !Pauses(states[i], steps[i])
  }

  lemma KeyframeFlag(c: Config, s: State, step: Step)
    ensures var t := Next(c, s, step);
            t.keyframeSeen ==> IsKeyframe(step) || (s.keyframeSeen && !Pauses(s, step))
  {
    hide AfterResume, AfterRequeue;
    if step.Resume? {
      ResumeDeliversNothing(c, s, step.o);
    }
    if step.Capture? && step.e.Frame? {
      FrameDelivers(c, s, step.e);
      hide AfterCapture;
    }
  }

  lemma ResumeDeliversNothing(c: Config, s: State, o: Opening)
    ensures var t := AfterResume(c, s, o); t.keyframeSeen == s.keyframeSeen && t.delivered == s.delivered
  {
    hide AfterStreaming, WithMapped, Through;
    StreamingOnlyQueues(s, o.queueFailAt);
    StreamingOnlyQueues(AfterAllocation(AfterInitialize(c, s), o.mapFailAt), o.queueFailAt);
  }

  lemma FrameDelivers(c: Config, s: State, e: CaptureEvent)
    requires e.Frame?
    ensures var t := AfterCapture(c, s, e);
            && t.keyframeSeen == (s.keyframeSeen || (!e.bad && c.hwAccel && c.h264 && e.key))
            && t.delivered == if e.bad || Withheld(c, s, e.key) then s.delivered else s.delivered + [e.index]
  {
    hide AfterRequeue;
    RequeueOnlyMoves();
  }

  lemma CreatedWithoutKeyframe(c: Config, passive: bool, o: Opening)
    ensures !AfterCreate(c, passive, o).keyframeSeen
  {
    hide Queueing, Below, Through;
  }

  lemma {:induction false} SeenMeansKeyframe(c: Config, states: seq<State>, steps: seq<Step>, k: nat)
    requires IsRun(c, states, steps) && k < |states| && states[k].keyframeSeen
    ensures exists j: nat :: j < k && KeyframeSince(states, steps, j, k)
    decreases k
  {
    hide Next, Enabled, AfterCreate, Pauses, IsKeyframe;
    if k == 0 {
      var passive, o :| states[0] == AfterCreate(c, passive, o);
      CreatedWithoutKeyframe(c, passive, o);
    } else {
      StillRunning(c, states, steps, k - 1);
      KeyframeFlag(c, states[k - 1], steps[k - 1]);
      if IsKeyframe(steps[k - 1]) {
        assert KeyframeSince(states, steps, k - 1, k);
      } else {
        SeenMeansKeyframe(c, states, steps, k - 1);
        var j: nat :| j < k - 1 && KeyframeSince(states, steps, j, k - 1);
        assert KeyframeSince(states, steps, j, k);
      }
    }
  }

  /** Of a hardware-decoded H.264 stream nothing is delivered before a keyframe since the last pause: the first frame
      delivered after every start is a keyframe. */
  lemma NothingBeforeAKeyframe(c: Config, states: seq<State>, steps: seq<Step>, k: nat)
    requires IsRun(c, states, steps) && k < |steps| && c.hwAccel && c.h264
    requires states[k + 1].delivered != states[k].delivered
    ensures var n := k + 1; exists j: nat :: j < n && KeyframeSince(states, steps, j, n)
  {
    StillRunning(c, states, steps, k);
    DeliveryNeedsKeyframe(c, states[k], steps[k]);
    hide Next, Enabled;
    if IsKeyframe(steps[k]) {
      assert KeyframeSince(states, steps, k, k + 1);
    } else {
      SeenMeansKeyframe(c, states, steps, k);
      var j: nat :| j < k && KeyframeSince(states, steps, j, k);
      assert KeyframeSince(states, steps, j, k + 1);
    }
  }

  /** Only good frames are delivered, and gated ones only when a keyframe has been seen. */
  lemma DeliveryNeedsKeyframe(c: Config, s: State, step: Step)
    requires Next(c, s, step).delivered != s.delivered
    ensures step.Capture? && step.e.Frame? && !step.e.bad
    ensures c.hwAccel && c.h264 ==> IsKeyframe(step) || s.keyframeSeen
  {
    hide AfterResume, AfterRequeue;
    if step.Resume? {
      ResumeDeliversNothing(c, s, step.o);
    }
    if step.Capture? && step.e.Frame? {
      FrameDelivers(c, s, step.e);
      hide AfterCapture;
    }
  }

  // ---- giving up ----

  /** k failures in a row of a device that still answers. */
  function Failing(s: State, k: nat): State
    decreases k
  {
    if k == 0 || s.exited then s else Failing(AfterFailure(s, true), k - 1)
  }

  /** The process gives up exactly after 25 failures without a frame or a pause in between. */
  lemma {:induction false} GivesUpAfterTwentyFive(s: State, k: nat)
    requires Inv(s) && !s.exited
    ensures Failing(s, k).exited <==> s.failures + k >= MAX_CAPTURE_FAILURES
    decreases k
  {
    hide Below;
    if k > 0 {
      var t := AfterFailure(s, true);
      if !t.exited {
        GivesUpAfterTwentyFive(t, k - 1);
      }
    }
  }

  // ---- every good frame is delivered ----

  /** A good keyframe is remembered until the next pause. */
  lemma {:induction false} KeyframeIsRemembered(c: Config, states: seq<State>, steps: seq<Step>, j: nat, k: nat)
    requires IsRun(c, states, steps) && j < k < |states| && KeyframeSince(states, steps, j, k)
    requires c.hwAccel && c.h264
    ensures states[k].keyframeSeen
    decreases k
  {
    hide Next, Enabled, Pauses, IsKeyframe;
    StillRunning(c, states, steps, k - 1);
    KeyframeStays(c, states[k - 1], steps[k - 1]);
    if j + 1 < k {
      assert KeyframeSince(states, steps, j, k - 1);
      KeyframeIsRemembered(c, states, steps, j, k - 1);
    }
  }

  lemma KeyframeStays(c: Config, s: State, step: Step)
    requires c.hwAccel && c.h264
    ensures IsKeyframe(step) || (s.keyframeSeen && !Pauses(s, step)) ==> Next(c, s, step).keyframeSeen
  {
    hide AfterResume, AfterRequeue;
    if step.Resume? {
      ResumeDeliversNothing(c, s, step.o);
    }
    if step.Capture? && step.e.Frame? {
      FrameDelivers(c, s, step.e);
      hide AfterCapture;
    }
  }

  lemma SeenExactlySinceKeyframe(c: Config, states: seq<State>, steps: seq<Step>, k: nat)
    requires IsRun(c, states, steps) && k < |states| && c.hwAccel && c.h264
    ensures |states| == |steps| + 1
    ensures states[k].keyframeSeen <==> exists j: nat :: j < k && KeyframeSince(states, steps, j, k)
  {
    RunLength(c, states, steps);
    hide IsRun, KeyframeSince;
    if j: nat :| j < k && KeyframeSince(states, steps, j, k) {
      KeyframeIsRemembered(c, states, steps, j, k);
    }
    if states[k].keyframeSeen {
      SeenMeansKeyframe(c, states, steps, k);
    }
  }

  /** What every iteration delivers: a good frame is delivered, unless the stream is H.264 decoded in hardware and no
      keyframe has come since the last pause; nothing else is ever delivered. */
  lemma EveryGoodFrameIsDelivered(c: Config, states: seq<State>, steps: seq<Step>, k: nat)
    requires IsRun(c, states, steps) && k < |steps|
    ensures var step, n := steps[k], k + 1;
            var good := step.Capture? && step.e.Frame? && !step.e.bad;
            var open := !(c.hwAccel && c.h264) || exists j: nat :: j < n && KeyframeSince(states, steps, j, n);
            states[n].delivered == states[k].delivered + (if good && open then [step.e.index] else [])
  {
    RunLength(c, states, steps);
    StillRunning(c, states, steps, k);
    hide IsRun, KeyframeSince, Next, Enabled;
    StepDelivers(c, states[k], steps[k]);
    if c.hwAccel && c.h264 {
      SeenExactlySinceKeyframe(c, states, steps, k + 1);
    }
  }

  lemma StepDelivers(c: Config, s: State, step: Step)
    ensures var t, good := Next(c, s, step), step.Capture? && step.e.Frame? && !step.e.bad;
            t.delivered == s.delivered +
              (if good && (!(c.hwAccel && c.h264) || t.keyframeSeen) then [step.e.index] else [])
  {
    hide AfterResume, AfterRequeue;
    assert s.delivered + [] == s.delivered;
    if step.Resume? {
      ResumeDeliversNothing(c, s, step.o);
    }
    if step.Capture? && step.e.Frame? {
      FrameDelivers(c, s, step.e);
      hide AfterCapture;
    }
  }

  // ---- counting failures over a run ----

  /** Failed iterations in a row: an interruption does not count, and a frame or a pause starts anew. */
  ghost function FailuresInARow(states: seq<State>, steps: seq<Step>, k: nat): nat
    requires k <= |steps| && |states| == |steps| + 1
  {
    if k == 0 then 0
    else
      var step, before := steps[k - 1], FailuresInARow(states, steps, k - 1);
      if Pauses(states[k - 1], step) || (step.Capture? && step.e.Frame?) then 0
      else if step.Capture? && step.e.Failed? then before + 1
      else before
  }

  lemma FailureCount(c: Config, s: State, step: Step)
    requires Enabled(s, step)
    ensures var t := Next(c, s, step);
            && (!t.exited ==>
                  t.failures == if Pauses(s, step) || (step.Capture? && step.e.Frame?) then 0
                                else if step.Capture? && step.e.Failed? then s.failures + 1 else s.failures)
            && (step.Capture? ==> (t.exited <==> step.e.Failed? && (!step.e.alive || s.failures + 1 >= 25)))
  {
    hide AfterRequeue, AfterStreaming, AfterResume;
    RequeueOnlyMoves();
    RequeueExitsNothing();
    if step.Resume? {
      ResumeCountsNothing(c, s, step.o);
    }
  }

  lemma RequeueExitsNothing()
    ensures forall s, i, ok :: AfterRequeue(s, i, ok).exited == s.exited
  {
  }

  lemma ResumeCountsNothing(c: Config, s: State, o: Opening)
    ensures AfterResume(c, s, o).failures == s.failures
  {
    hide AfterStreaming, WithMapped, Through;
    StreamingOnlyQueues(s, o.queueFailAt);
    StreamingOnlyQueues(AfterAllocation(AfterInitialize(c, s), o.mapFailAt), o.queueFailAt);
  }

  lemma {:induction false} FailuresAreCounted(c: Config, states: seq<State>, steps: seq<Step>, k: nat)
    requires IsRun(c, states, steps) && k < |states|
    ensures |states| == |steps| + 1 && (!states[k].exited ==> states[k].failures == FailuresInARow(states, steps, k))
    decreases k
  {
    hide Next, Enabled, AfterCreate;
    if k == 0 {
      var passive, o :| states[0] == AfterCreate(c, passive, o);
      CreatedWithoutFailure(c, passive, o);
    } else {
      FailuresAreCounted(c, states, steps, k - 1);
      StillRunning(c, states, steps, k - 1);
      FailureCount(c, states[k - 1], steps[k - 1]);
    }
  }

  lemma CreatedWithoutFailure(c: Config, passive: bool, o: Opening)
    ensures AfterCreate(c, passive, o).failures == 0
  {
    hide Queueing, Below, Through;
  }

  /** Over every run an iteration ends the process exactly when it fails and the device is gone, or it is the 25th
      failure in a row. */
  lemma ExitsExactlyWhenGoneOrStuck(c: Config, states: seq<State>, steps: seq<Step>, k: nat)
    requires IsRun(c, states, steps) && k < |steps| && steps[k].Capture?
    ensures |states| == |steps| + 1
    ensures states[k + 1].exited <==>
            steps[k].e.Failed? && (!steps[k].e.alive || FailuresInARow(states, steps, k) + 1 >= 25)
  {
    RunLength(c, states, steps);
    FailuresAreCounted(c, states, steps, k);
    StillRunning(c, states, steps, k);
    FailureCount(c, states[k], steps[k]);
  }

  /** A stop always ends capturing and the worker, and a passive capturer has touched nothing. */
  lemma StopEndsCapturing(c: Config, s: State, o: Opening)
    requires Inv(s) && !s.exited
    ensures var t := Next(c, s, Stop); !t.capturing && !t.worker && t.queued == {} && !t.exited
    ensures var p := AfterCreate(c, true, o); !p.open && p.mapped == {} && !p.capturing && !p.exited
    ensures var a := AfterCreate(c, false, o);
            !a.exited ==> a.capturing && a.worker && a.open && a.queued == All()
  {
    hide Below, Through, WithMapped;
    StreamingQueuesAll(AfterAllocation(AfterInitialize(c, CLOSED), o.mapFailAt), o.queueFailAt);
    hide AfterStreaming;
  }
}
