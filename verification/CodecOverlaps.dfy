/** What goes wrong when the codec's worker overtakes a submission, and that nothing else does.

    Calls of EmplaceBuffer do not overlap each other, but the worker may run between any two of their steps. The
    device hands out one frame for every output it returns, in the order in which it got the jobs. */
module CodecOverlaps {
  import opened Arithmetic
  import opened ThreadSafeQueues
  import opened V4L2Codec
  import opened Wrappers

  // ---- serial submissions ----

  function Submitters(stages: map<Job, Stage>): set<Job> {
    set job | job in stages && stages[job] == Submitting
  }

  /** No call of EmplaceBuffer is in progress. */
  predicate Quiet(s: State) {
    s.holding == map[] && s.returning == {} && Submitters(s.stages) == {}
  }

  predicate Serial(s: State, step: Step) {
    && Enabled(s, step) && !step.Abort?
    && (step.Pop? ==> Quiet(s))
    && (step.DqCapture? ==> |s.captured| < |s.queued| && step.frame == Some(s.queued[|s.captured|]))
  }

  ghost predicate IsSerialRun(n: nat, states: seq<State>, steps: seq<Step>) {
    && |states| == |steps| + 1 && states[0] == Prepared(n)
    && forall i | 0 <= i < |steps| :: Serial(states[i], steps[i]) && states[i + 1] == Next(states[i], steps[i])
  }

  /** The worker has a frame and finds no callback for it. */
  predicate Misses(s: State, step: Step) {
    step == PopTask && s.tasks == []
  }

  /** A callback gets a frame. */
  predicate Delivers(s: State, step: Step) {
    step == Run && s.worker.Running? && s.worker.job.Some?
  }

  ghost predicate Matching(s: State) {
    forall i | 0 <= i < |s.delivered| :: s.delivered[i].0 == s.delivered[i].1
  }

  // ---- invariants ----

  /** At most one call is in progress. */
  ghost predicate OneCall(s: State) {
    |s.holding| + |s.returning| + |Submitters(s.stages)| <= 1
  }

  /** No job is queued twice, and a held job has not been queued. */
  ghost predicate QueuedOnce(s: State) {
    && (forall job | job in s.queued :: job in s.stages && s.stages[job] != Held)
    && NoRepeats(s.queued)
  }

  /** The device answers in order, and the worker's frame is the last one it handed out. */
  ghost predicate Flowing(s: State) {
    && s.captured <= s.queued && |s.queued| == |s.captured| + Outstanding(s)
    && (s.worker.HasFrame? ==> s.captured != [] && s.worker.frame == s.captured[|s.captured| - 1])
  }

  ghost predicate Orderly(n: nat, s: State) {
    Inv(n, s) && OneCall(s) && QueuedOnce(s) && Flowing(s)
  }

  /** Nothing has been missed: callbacks and frames are in step. */
  ghost predicate InStep(s: State) {
    && |s.tasks| + |Submitters(s.stages)| == Outstanding(s) + (if s.worker.HasFrame? then 1 else 0)
    && (if Submitters(s.stages) == {} then s.queued == s.accepted
        else s.queued != [] && s.queued == s.accepted + [s.queued[|s.queued| - 1]] &&
             Submitters(s.stages) == {s.queued[|s.queued| - 1]})
    && (s.worker.Running? ==> s.worker.job == Some(s.worker.frame))
    && Matching(s)
  }

  /** The frame at position p has been missed and nothing delivered since: its callback is the next to run. */
  ghost predicate Behind(s: State, p: nat) {
    && Matching(s) && p < |s.captured|
    && var late := s.captured[p];
       || (Submitters(s.stages) == {late} && s.tasks == [] && Outstanding(s) == 0 && !s.worker.HasFrame? &&
           (s.worker.Running? ==> s.worker.job == None))
       || (late !in Submitters(s.stages) && s.tasks != [] && s.tasks[0] == late &&
           (s.worker.HasFrame? ==> p + 1 < |s.captured|) && (s.worker.Running? ==> s.worker.job == None))
       || (s.worker.Running? && s.worker.job == Some(late) && s.worker.frame != late)
  }

  lemma SubmittersAfter(stages: map<Job, Stage>, job: Job, stage: Stage)
    ensures Submitters(stages[job := stage])
            == if stage == Submitting then Submitters(stages) + {job} else Submitters(stages) - {job}
  {
  }

  lemma KeyGone(m: map<nat, Job>, i: nat)
    requires i in m
    ensures |m - {i}| == |m| - 1
  {
    assert (m - {i}).Keys == m.Keys - {i};
    assert |m - {i}| == |(m - {i}).Keys|;
  }

  lemma PopKeepsOneCall(s: State, job: Job)
    requires OneCall(s) && Serial(s, Pop(job))
    ensures OneCall(Next(s, Pop(job)))
  {
    hide Submitters;
    SubmittersAfter(s.stages, job, Over);
    SubmittersAfter(s.stages, job, Held);
    if s.free != [] {
      AddedKey(s.holding, s.free[0], job);
    }
  }

  lemma QbufKeepsOneCall(s: State, i: nat, ok: bool)
    requires OneCall(s) && i in s.holding
    ensures OneCall(Next(s, Qbuf(i, ok)))
  {
    hide Submitters;
    KeyGone(s.holding, i);
    SubmittersAfter(s.stages, s.holding[i], Submitting);
    SubmittersAfter(s.stages, s.holding[i], Over);
  }

  lemma PushTaskKeepsOneCall(s: State, job: Job)
    requires OneCall(s) && Enabled(s, PushTask(job))
    ensures OneCall(Next(s, PushTask(job)))
  {
    hide Submitters;
    SubmittersAfter(s.stages, job, Over);
    SubmittersAfter(s.stages, job, Accepted);
  }

  lemma SameCalls(s: State, t: State)
    requires OneCall(s) && t.holding == s.holding && t.stages == s.stages && t.returning <= s.returning
    ensures OneCall(t)
  {
    assert s.returning == t.returning + (s.returning - t.returning);
  }

  lemma StepKeepsOneCall(s: State, step: Step)
    requires OneCall(s) && Serial(s, step)
    ensures OneCall(Next(s, step))
  {
    hide OneCall;
    match step
    case Pop(job) => PopKeepsOneCall(s, job);
    case Qbuf(i, ok) => QbufKeepsOneCall(s, i, ok);
    case PushTask(job) => PushTaskKeepsOneCall(s, job);
    case Abort =>
    case _ => SameCalls(s, Next(s, step));
  }

  lemma StepKeepsQueuedOnce(s: State, step: Step)
    requires QueuedOnce(s) && HeldOnce(s) && Enabled(s, step)
    ensures QueuedOnce(Next(s, step))
  {
  }

  lemma QbufKeepsFlowing(n: nat, s: State, i: nat)
    requires Flowing(s) && Conserved(n, s) && i in s.holding
    ensures Flowing(Next(s, Qbuf(i, true)))
  {
    Apart(n, s, i);
    AddedKey(s.driver, i, s.holding[i]);
  }

  lemma DqOutputKeepsFlowing(s: State, i: nat)
    requires Flowing(s) && Enabled(s, DqOutput(i))
    ensures Flowing(Next(s, DqOutput(i))) && Outstanding(Next(s, DqOutput(i))) == Outstanding(s)
  {
    KeyGone(s.driver, i);
  }

  lemma DqCaptureKeepsFlowing(s: State, frame: Option<Job>)
    requires Flowing(s) && Serial(s, DqCapture(frame))
    ensures Flowing(Next(s, DqCapture(frame)))
  {
  }

  lemma SameFlow(s: State, t: State)
    requires Flowing(s) && t.captured == s.captured && t.queued == s.queued && t.driver == s.driver
    requires t.worker == s.worker || (s.worker.HasIndex? && t.worker == Returned) ||
             (!s.worker.HasIndex? && s.worker != Returned &&
              (t.worker.Running? || t.worker == Requeues || t.worker == Idle))
    ensures Flowing(t) && Outstanding(t) == Outstanding(s)
  {
  }

  lemma StepKeepsFlowing(n: nat, s: State, step: Step)
    requires Flowing(s) && Conserved(n, s) && Serial(s, step)
    ensures Flowing(Next(s, step))
  {
    hide Flowing, Conserved;
    match step
    case Qbuf(i, ok) =>
      if ok { QbufKeepsFlowing(n, s, i); } else { SameFlow(s, Next(s, step)); }
    case DqOutput(i) => DqOutputKeepsFlowing(s, i);
    case DqCapture(frame) => DqCaptureKeepsFlowing(s, frame);
    case Abort =>
    case _ => SameFlow(s, Next(s, step));
  }

  /** Every step keeps the bookkeeping. */
  lemma StepKeepsOrderly(n: nat, s: State, step: Step)
    requires Orderly(n, s) && Serial(s, step)
    ensures Orderly(n, Next(s, step))
  {
    hide OneCall, QueuedOnce, Flowing, Conserved, InOrder, HeldOnce, AcceptedOnce, Next, Enabled;
    StepKeeps(n, s, step);
    StepKeepsOneCall(s, step);
    StepKeepsQueuedOnce(s, step);
    StepKeepsFlowing(n, s, step);
  }

  // ---- in step ----

  lemma PopKeepsInStep(s: State, job: Job)
    requires InStep(s) && Serial(s, Pop(job))
    ensures InStep(Next(s, Pop(job)))
  {
    hide Submitters;
    SubmittersAfter(s.stages, job, Over);
    SubmittersAfter(s.stages, job, Held);
  }

  lemma QbufKeepsInStep(n: nat, s: State, i: nat)
    requires InStep(s) && Orderly(n, s) && i in s.holding
    ensures InStep(Next(s, Qbuf(i, true)))
  {
    hide QueuedOnce, Flowing, InStep;
    Apart(n, s, i);
    hide Inv;
    AddedKey(s.driver, i, s.holding[i]);
    OneHolds(s, i);
    SubmittersAfter(s.stages, s.holding[i], Submitting);
    hide OneCall, Submitters;
    QueuedInStep(s, s.holding[i], Next(s, Qbuf(i, true)));
  }

  lemma QueuedInStep(s: State, job: Job, t: State)
    requires InStep(s) && Submitters(s.stages) == {} && Submitters(t.stages) == {job}
    requires t.queued == s.queued + [job] && t.accepted == s.accepted && t.tasks == s.tasks
    requires Outstanding(t) == Outstanding(s) + 1 && t.worker == s.worker && t.delivered == s.delivered
    ensures InStep(t)
  {
    hide Submitters, Outstanding;
  }

  lemma FailedQbufKeepsInStep(n: nat, s: State, i: nat)
    requires InStep(s) && Orderly(n, s) && i in s.holding
    ensures InStep(Next(s, Qbuf(i, false)))
  {
    OneHolds(s, i);
    SubmittersAfter(s.stages, s.holding[i], Over);
    hide Submitters, Inv, QueuedOnce, Flowing, OneCall;
  }

  lemma OneHolds(s: State, i: nat)
    requires OneCall(s) && i in s.holding
    ensures Submitters(s.stages) == {}
  {
    hide Submitters;
    assert s.holding.Keys == {i} + (s.holding.Keys - {i});
    assert |s.holding| == |s.holding.Keys|;
  }

  lemma PushTaskKeepsInStep(n: nat, s: State, job: Job)
    requires n < QUEUE_SIZE && InStep(s) && Orderly(n, s) && Enabled(s, PushTask(job))
    ensures InStep(Next(s, PushTask(job)))
  {
    hide QueuedOnce, Flowing, OneCall, InStep;
    FewAreOutstanding(n, s);
    hide Inv;
    assert job in Submitters(s.stages);
    SubmittersAfter(s.stages, job, Accepted);
    hide Submitters;
    TasksAreFew(s, job);
    PushedInStep(s, job, Next(s, PushTask(job)));
  }

  lemma TasksAreFew(s: State, job: Job)
    requires InStep(s) && job in Submitters(s.stages)
    ensures |s.tasks| <= |s.driver| + (if s.worker.HasIndex? then 1 else 0)
  {
    hide Submitters;
    assert Submitters(s.stages) == {job};
  }

  lemma PushedInStep(s: State, job: Job, t: State)
    requires InStep(s) && job in Submitters(s.stages) && Submitters(t.stages) == Submitters(s.stages) - {job}
    requires t.queued == s.queued && t.accepted == s.accepted + [job] && t.tasks == s.tasks + [job]
    requires Outstanding(t) == Outstanding(s) && t.worker == s.worker && t.delivered == s.delivered
    ensures InStep(t)
  {
    hide Submitters, Outstanding;
    assert Submitters(s.stages) == {job};
  }

  lemma DqOutputKeepsInStep(n: nat, s: State, i: nat)
    requires InStep(s) && Orderly(n, s) && Enabled(s, DqOutput(i))
    ensures InStep(Next(s, DqOutput(i)))
  {
    DqOutputKeepsFlowing(s, i);
    hide Submitters, Inv, QueuedOnce, Flowing, OneCall;
  }

  lemma PopTaskKeepsInStep(n: nat, s: State)
    requires InStep(s) && Orderly(n, s) && s.worker.HasFrame? && s.tasks != []
    ensures InStep(Next(s, PopTask))
  {
    hide Submitters, Conserved, HeldOnce, AcceptedOnce, QueuedOnce, OneCall;
    assert |Firsts(s.delivered)| + |s.tasks| == |s.accepted|;
    assert s.accepted[|s.captured| - 1] == s.tasks[0];
  }

  lemma OtherKeepsInStep(s: State, step: Step)
    requires InStep(s) && Serial(s, step)
    requires step.PushBack? || step.PushIndex? || step.DqCapture? || step.Run? || step.Requeue?
    ensures InStep(Next(s, step))
  {
    hide Submitters;
  }

  lemma StepKeepsInStep(n: nat, s: State, step: Step)
    requires n < QUEUE_SIZE && InStep(s) && Orderly(n, s) && Serial(s, step) && !Misses(s, step)
    ensures InStep(Next(s, step))
  {
    hide InStep, Orderly, Next, Submitters;
    match step
    case Pop(job) => PopKeepsInStep(s, job);
    case Qbuf(i, ok) => if ok { QbufKeepsInStep(n, s, i); } else { FailedQbufKeepsInStep(n, s, i); }
    case PushTask(job) => PushTaskKeepsInStep(n, s, job);
    case DqOutput(i) => DqOutputKeepsInStep(n, s, i);
    case PopTask => PopTaskKeepsInStep(n, s);
    case Abort =>
    case _ => OtherKeepsInStep(s, step);
  }

  // ---- behind ----

  /** A frame is missed only while its own submission is in progress and nothing else is under way. */
  lemma MissFallsBehind(n: nat, s: State)
    requires InStep(s) && Orderly(n, s) && s.worker.HasFrame? && s.tasks == []
    ensures |s.captured| > 0 && Behind(Next(s, PopTask), |s.captured| - 1)
  {
    hide Submitters, Inv, QueuedOnce, OneCall;
  }

  lemma PopKeepsBehind(n: nat, s: State, job: Job, p: nat)
    requires Behind(s, p) && Orderly(n, s) && Serial(s, Pop(job))
    ensures Behind(Next(s, Pop(job)), p)
  {
    SubmittersAfter(s.stages, job, Over);
    SubmittersAfter(s.stages, job, Held);
    hide Submitters, Inv, QueuedOnce, Flowing, OneCall;
  }

  lemma QbufKeepsBehind(n: nat, s: State, i: nat, ok: bool, p: nat)
    requires Behind(s, p) && Orderly(n, s) && i in s.holding
    ensures Behind(Next(s, Qbuf(i, ok)), p)
  {
    OneHolds(s, i);
    CapturedIsNotHeld(s, i, p);
    SubmittersAfter(s.stages, s.holding[i], Submitting);
    SubmittersAfter(s.stages, s.holding[i], Over);
    hide Submitters, Inv, QueuedOnce, Flowing, OneCall;
  }

  lemma CapturedIsNotHeld(s: State, i: nat, p: nat)
    requires QueuedOnce(s) && Flowing(s) && HeldOnce(s) && i in s.holding && p < |s.captured|
    ensures s.holding[i] != s.captured[p]
  {
    assert s.captured[p] == s.queued[p];
  }

  lemma PushTaskKeepsBehind(n: nat, s: State, job: Job, p: nat)
    requires Behind(s, p) && Orderly(n, s) && Enabled(s, PushTask(job))
    ensures Behind(Next(s, PushTask(job)), p)
  {
    hide Inv, QueuedOnce, Flowing, OneCall, Behind;
    assert job in Submitters(s.stages);
    SubmittersAfter(s.stages, job, Over);
    SubmittersAfter(s.stages, job, Accepted);
    hide Submitters;
    PushedBehind(s, job, p, Next(s, PushTask(job)));
  }

  lemma PushedBehind(s: State, job: Job, p: nat, t: State)
    requires Behind(s, p) && job in Submitters(s.stages)
    requires Submitters(t.stages) == Submitters(s.stages) - {job} && t.captured == s.captured && t.worker == s.worker
    requires t.tasks == Pushed(s.tasks, QUEUE_SIZE, job) && t.delivered == s.delivered
    ensures Behind(t, p)
  {
    hide Submitters;
  }

  lemma DqOutputKeepsBehind(n: nat, s: State, i: nat, p: nat)
    requires Behind(s, p) && Orderly(n, s) && Enabled(s, DqOutput(i))
    ensures Behind(Next(s, DqOutput(i)), p)
  {
    assert |s.driver| > 0 by { assert s.driver.Keys != {}; }
    hide Submitters, Inv, QueuedOnce, Flowing, OneCall;
  }

  lemma DqCaptureKeepsBehind(n: nat, s: State, frame: Option<Job>, p: nat)
    requires Behind(s, p) && Orderly(n, s) && Serial(s, DqCapture(frame))
    ensures Behind(Next(s, DqCapture(frame)), p)
  {
    hide Submitters, Inv, QueuedOnce, Flowing, OneCall;
  }

  lemma PopTaskKeepsBehind(n: nat, s: State, p: nat)
    requires Behind(s, p) && Orderly(n, s) && s.worker.HasFrame?
    ensures s.tasks != [] && Behind(Next(s, PopTask), p)
  {
    FramesDiffer(s, p, |s.captured| - 1);
    hide Submitters, Inv, QueuedOnce, OneCall, Matching, Outstanding;
    assert s.tasks != [] && !s.worker.Running?;
    PoppedBehind(s, p, s.(worker := Running(Some(s.tasks[0]), s.worker.frame), tasks := s.tasks[1..]));
  }

  /** The missed job's callback has been popped for a later frame. */
  lemma PoppedBehind(s: State, p: nat, t: State)
    requires Behind(s, p) && s.worker.HasFrame? && s.tasks != [] && s.captured[p] == s.tasks[0] != s.worker.frame
    requires t == s.(worker := Running(Some(s.tasks[0]), s.worker.frame), tasks := s.tasks[1..])
    ensures Behind(t, p)
  {
    hide Submitters, Outstanding;
  }

  lemma FramesDiffer(s: State, p: nat, q: int)
    requires QueuedOnce(s) && Flowing(s)
    ensures p < q < |s.captured| ==> s.captured[p] != s.captured[q]
  {
    if p < q < |s.captured| {
      assert s.captured[p] == s.queued[p] && s.captured[q] == s.queued[q];
    }
  }

  lemma OtherKeepsBehind(n: nat, s: State, step: Step, p: nat)
    requires Behind(s, p) && Orderly(n, s) && Serial(s, step) && !Delivers(s, step)
    requires step.PushBack? || step.PushIndex? || step.Run? || step.Requeue?
    ensures Behind(Next(s, step), p)
  {
    hide Submitters, Inv, QueuedOnce, Flowing, OneCall;
  }

  lemma StepKeepsBehind(n: nat, s: State, step: Step, p: nat)
    requires Behind(s, p) && Orderly(n, s) && Serial(s, step) && !Delivers(s, step)
    ensures Behind(Next(s, step), p)
  {
    hide Behind, Orderly, Next, Submitters;
    match step
    case Pop(job) => PopKeepsBehind(n, s, job, p);
    case Qbuf(i, ok) => QbufKeepsBehind(n, s, i, ok, p);
    case PushTask(job) => PushTaskKeepsBehind(n, s, job, p);
    case DqOutput(i) => DqOutputKeepsBehind(n, s, i, p);
    case DqCapture(frame) => DqCaptureKeepsBehind(n, s, frame, p);
    case PopTask => PopTaskKeepsBehind(n, s, p);
    case Abort =>
    case _ => OtherKeepsBehind(n, s, step, p);
  }

  /** The next delivery gives the missed job's callback the frame of another job. */
  lemma DeliveryMismatches(s: State, p: nat)
    requires Behind(s, p) && Delivers(s, Run)
    ensures !Matching(Next(s, Run))
  {
    hide Submitters;
    var t := Next(s, Run);
    assert t.delivered[|s.delivered|].0 != t.delivered[|s.delivered|].1;
  }

  lemma MismatchStays(s: State, step: Step)
    requires !Matching(s) && Enabled(s, step)
    ensures !Matching(Next(s, step))
  {
    var i :| 0 <= i < |s.delivered| && s.delivered[i].0 != s.delivered[i].1;
    assert Next(s, step).delivered[i] == s.delivered[i];
  }

  // ---- over a run ----

  datatype Trouble = Fine | Late | Wrong

  /** Whether a frame has been missed, and whether a callback has run since. */
  ghost function TroubleAt(states: seq<State>, steps: seq<Step>, k: nat): Trouble
    requires k <= |steps| && |states| == |steps| + 1
  {
    if k == 0 then Fine
    else match TroubleAt(states, steps, k - 1)
         case Fine => if Misses(states[k - 1], steps[k - 1]) then Late else Fine
         case Late => if Delivers(states[k - 1], steps[k - 1]) then Wrong else Late
         case Wrong => Wrong
  }

  /** A frame is missed at one step and a callback gets a frame at a later one. */
  ghost predicate MissedThenDelivered(states: seq<State>, steps: seq<Step>, k: nat)
    requires k <= |steps| && |states| == |steps| + 1
  {
    exists i, m | 0 <= i < m < k :: Misses(states[i], steps[i]) && Delivers(states[m], steps[m])
  }

  lemma {:induction false} TroubleMeans(states: seq<State>, steps: seq<Step>, k: nat)
    requires k <= |steps| && |states| == |steps| + 1
    ensures TroubleAt(states, steps, k) == Fine <==> forall i | 0 <= i < k :: !Misses(states[i], steps[i])
    ensures TroubleAt(states, steps, k) == Wrong <==> MissedThenDelivered(states, steps, k)
    decreases k
  {
    if k > 0 {
      TroubleMeans(states, steps, k - 1);
      hide Misses, Delivers;
      if Delivers(states[k - 1], steps[k - 1]) {
        assert !Misses(states[k - 1], steps[k - 1]) by { NotBoth(states[k - 1], steps[k - 1]); }
      }
      if i :| 0 <= i < k - 1 && Misses(states[i], steps[i]) {
        assert Delivers(states[k - 1], steps[k - 1]) ==> MissedThenDelivered(states, steps, k);
      }
    }
  }

  lemma NotBoth(s: State, step: Step)
    ensures !(Misses(s, step) && Delivers(s, step))
  {
  }

  ghost predicate Situation(s: State, t: Trouble) {
    match t
    case Fine => InStep(s)
    case Late => exists p: nat :: Behind(s, p)
    case Wrong => !Matching(s)
  }

  lemma StepSituation(n: nat, s: State, step: Step, t: Trouble)
    requires n < QUEUE_SIZE && Orderly(n, s) && Serial(s, step) && Situation(s, t)
    ensures Situation(Next(s, step),
                      match t
                      case Fine => if Misses(s, step) then Late else Fine
                      case Late => if Delivers(s, step) then Wrong else Late
                      case Wrong => Wrong)
  {
    hide InStep, Behind, Matching, Orderly, Next, Submitters;
    match t
    case Fine =>
      if Misses(s, step) { MissFallsBehind(n, s); } else { StepKeepsInStep(n, s, step); }
    case Late =>
      var p: nat :| Behind(s, p);
      if Delivers(s, step) { DeliveryMismatches(s, p); } else { StepKeepsBehind(n, s, step, p); }
    case Wrong => MismatchStays(s, step);
  }

  lemma StartsInStep(n: nat)
    ensures Orderly(n, Prepared(n)) && InStep(Prepared(n))
  {
    EveryRunKeeps(n, [Prepared(n)], [], 0);
    hide Inv, Usable, FirstIndices, OneCall, QueuedOnce, Flowing, InStep;
    EmptyIsInStep(Prepared(n));
  }

  lemma EmptyIsInStep(s: State)
    requires s.holding == map[] && s.returning == {} && s.driver == map[] && s.worker == Idle && s.stages == map[]
    requires s.tasks == [] && s.accepted == s.queued == s.captured == [] && s.delivered == []
    ensures OneCall(s) && QueuedOnce(s) && Flowing(s) && InStep(s)
  {
    assert Submitters(s.stages) == {};
  }

  lemma {:induction false} SerialRunSituation(n: nat, states: seq<State>, steps: seq<Step>, k: nat)
    requires n < QUEUE_SIZE && IsSerialRun(n, states, steps) && k < |states|
    ensures Orderly(n, states[k]) && Situation(states[k], TroubleAt(states, steps, k))
    decreases k
  {
    hide Situation, Orderly, Serial, Next, Prepared, Misses, Delivers;
    if k == 0 {
      StartsInStep(n);
      FineWhenInStep(states[0]);
    } else {
      SerialRunSituation(n, states, steps, k - 1);
      StepKeepsOrderly(n, states[k - 1], steps[k - 1]);
      StepSituation(n, states[k - 1], steps[k - 1], TroubleAt(states, steps, k - 1));
    }
  }

  lemma FineWhenInStep(s: State)
    requires InStep(s)
    ensures Situation(s, Fine)
  {
  }

  lemma SituationMatches(s: State, t: Trouble)
    requires Situation(s, t)
    ensures Matching(s) <==> t != Wrong
  {
  }

  /** With fewer than 8 buffers, submissions that do not overlap each other and a device that answers in order: every
      callback so far got the frame of its own job if and only if no callback ran after a frame had been missed. */
  lemma MatchesExactlyWhenNoneIsLate(n: nat, states: seq<State>, steps: seq<Step>, k: nat)
    requires n < QUEUE_SIZE && IsSerialRun(n, states, steps) && k < |states|
    ensures (forall i | 0 <= i < |states[k].delivered| :: states[k].delivered[i].0 == states[k].delivered[i].1) <==>
            !MissedThenDelivered(states, steps, k)
  {
    SerialRunSituation(n, states, steps, k);
    TroubleMeans(states, steps, k);
    SituationMatches(states[k], TroubleAt(states, steps, k));
  }

  // ---- the failing run ----

  lemma Extend(n: nat, states: seq<State>, steps: seq<Step>, step: Step)
    returns (states': seq<State>, steps': seq<Step>)
    requires IsSerialRun(n, states, steps) && Serial(states[|steps|], step)
    ensures IsSerialRun(n, states', steps') && |states'| == |steps'| + 1
    ensures states'[|steps'|] == Next(states[|steps|], step)
  {
    hide Enabled, Next;
    states', steps' := states + [Next(states[|steps|], step)], steps + [step];
  }

  /** When the worker finishes a frame before the producer has pushed its callback, that callback gets the frame of a
      later job: here job 0 gets the frame of job 1, although the device answers in order and the calls of
      EmplaceBuffer do not overlap. */
  lemma LateCallbackGetsALaterFrame(n: nat)
    requires 1 <= n
    ensures exists states: seq<State>, steps: seq<Step> ::
              IsSerialRun(n, states, steps) && states[|steps|].captured <= states[|steps|].queued &&
              states[|steps|].delivered == [(0, 1)]
  {
    var states, steps := [Prepared(n)], [];
    assert Submitters(map[]) == {} && |Prepared(n).free| >= 1;
    var i := Prepared(n).free[0];
    hide IsSerialRun, Prepared;
    states, steps := Extend(n, states, steps, Pop(0));
    states, steps := Extend(n, states, steps, Qbuf(i, true));
    states, steps := RoundTrip(n, states, steps, i, 0);
    states, steps := Extend(n, states, steps, PushTask(0));
    assert Submitters(states[|steps|].stages) == {};
    i := states[|steps|].free[0];
    states, steps := Extend(n, states, steps, Pop(1));
    states, steps := Extend(n, states, steps, Qbuf(i, true));
    states, steps := RoundTrip(n, states, steps, i, 1);
  }

  /** The worker dequeues index i with the next frame and runs the callback that is first, if there is one. */
  lemma RoundTrip(n: nat, states: seq<State>, steps: seq<Step>, i: nat, frame: Job)
    returns (states': seq<State>, steps': seq<Step>)
    requires IsSerialRun(n, states, steps)
    requires var s := states[|steps|];
             && s.worker == Idle && i in s.driver && |s.free| < QUEUE_SIZE
             && |s.captured| < |s.queued| && frame == s.queued[|s.captured|]
    ensures IsSerialRun(n, states', steps') && |states'| == |steps'| + 1
    ensures var s, t := states[|steps|], states'[|steps'|];
            && t.worker == Idle && t.stages == s.stages && t.free == s.free + [i] && t.holding == s.holding
            && t.returning == s.returning && t.queued == s.queued && t.captured == s.captured + [frame]
            && t.tasks == (if s.tasks == [] then [] else s.tasks[1..])
            && t.delivered == if s.tasks == [] then s.delivered else s.delivered + [(s.tasks[0], frame)]
  {
    hide IsSerialRun;
    states', steps' := Extend(n, states, steps, DqOutput(i));
    states', steps' := Extend(n, states', steps', PushIndex);
    states', steps' := Extend(n, states', steps', DqCapture(Some(frame)));
    states', steps' := Extend(n, states', steps', PopTask);
    states', steps' := Extend(n, states', steps', Run);
    states', steps' := Extend(n, states', steps', Requeue);
  }
}
