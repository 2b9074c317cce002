/** The output buffers and callbacks of a memory-to-memory codec, shared by producers and one worker thread.

    Every queue operation and every ioctl is one atomic step; a call of EmplaceBuffer or CaptureBuffer is a sequence
    of such steps that those of other threads may interleave. A job is one call of EmplaceBuffer together with its
    callback, a frame carries the job it was produced from. */
module V4L2Codec {
  import opened Arithmetic
  import opened ThreadSafeQueues
  import opened Wrappers

  const QUEUE_SIZE := 8

  type Job = nat

  /** How far a call of EmplaceBuffer has come. */
  datatype Stage = Held | Submitting | Accepted | Over

  datatype Worker =
    | Idle
    | HasIndex(index: nat)
    | Returned
    | HasFrame(frame: Job)
    | Running(job: Option<Job>, frame: Job)
    | Requeues

  datatype State = State(
    free: seq<nat>,                  // output_buffer_index_
    holding: map<nat, Job>,          // popped by a producer that fills it
    returning: set<nat>,             // queueing failed, to be pushed back
    driver: map<nat, Job>,           // queued to the device
    worker: Worker,
    tasks: seq<Job>,                 // capturing_tasks_
    stages: map<Job, Stage>,
    dropped: seq<nat>,               // indices that a full queue rejected
    accepted: seq<Job>,              // callbacks the task queue accepted
    queued: seq<Job>,                // jobs queued to the device
    captured: seq<Job>,              // frames dequeued
    delivered: seq<(Job, Job)>)      // callbacks run, with the frame they got

  // ---- atomic steps ----

  datatype Step =
    | Pop(job: Job)                  // EmplaceBuffer
    | Qbuf(index: nat, ok: bool)
    | PushBack(index: nat)
    | PushTask(job: Job)
    | DqOutput(index: nat)           // CaptureBuffer
    | PushIndex
    | DqCapture(frame: Option<Job>)
    | Abort
    | PopTask
    | Run
    | Requeue

  predicate Enabled(s: State, step: Step) {
    match step
    case Pop(job) => job !in s.stages
    case Qbuf(i, _) => i in s.holding
    case PushBack(i) => i in s.returning
    case PushTask(job) => job in s.stages && s.stages[job] == Submitting
    case DqOutput(i) => s.worker == Idle && i in s.driver
    case PushIndex => s.worker.HasIndex?
    case DqCapture(_) => s.worker == Returned
    case Abort => s.worker.HasFrame?
    case PopTask => s.worker.HasFrame?
    case Run => s.worker.Running?
    case Requeue => s.worker == Requeues
  }

  function WithIndexPushed(s: State, i: nat): State {
    s.(free := Pushed(s.free, QUEUE_SIZE, i), dropped := if |s.free| >= QUEUE_SIZE then s.dropped + [i] else s.dropped)
  }

  function Next(s: State, step: Step): State
    requires Enabled(s, step)
  {
    match step
    case Pop(job) =>
      if s.free == [] then s.(stages := s.stages[job := Over])
      else s.(free := s.free[1..], holding := s.holding[s.free[0] := job], stages := s.stages[job := Held])
    case Qbuf(i, ok) =>
      var job := s.holding[i];
      var s1 := s.(holding := s.holding - {i});
      if ok then s1.(driver := s.driver[i := job], queued := s.queued + [job], stages := s.stages[job := Submitting])
      else s1.(returning := s.returning + {i}, stages := s.stages[job := Over])
    case PushBack(i) => WithIndexPushed(s.(returning := s.returning - {i}), i)
    case PushTask(job) =>
      if |s.tasks| >= QUEUE_SIZE then s.(stages := s.stages[job := Over])
      else s.(tasks := s.tasks + [job], accepted := s.accepted + [job], stages := s.stages[job := Accepted])
    case DqOutput(i) => s.(driver := s.driver - {i}, worker := HasIndex(i))
    case PushIndex => WithIndexPushed(s.(worker := Returned), s.worker.index)
    case DqCapture(frame) =>
      if frame == None then s.(worker := Idle)
      else s.(worker := HasFrame(frame.value), captured := s.captured + [frame.value])
    case Abort => s.(worker := Idle)
    case PopTask =>
      if s.tasks == [] then s.(worker := Running(None, s.worker.frame))
      else s.(worker := Running(Some(s.tasks[0]), s.worker.frame), tasks := s.tasks[1..])
    case Run =>
      s.(worker := Requeues,
         delivered := if s.worker.job == None then s.delivered
                      else s.delivered + [(s.worker.job.value, s.worker.frame)])
    case Requeue => s.(worker := Idle)
  }

  function FirstIndices(n: nat): (r: seq<nat>)
    ensures |r| == n
  {
    if n == 0 then [] else FirstIndices(n - 1) + [n - 1]
  }

  /** After PrepareBuffer for n output buffers: the index queue takes at most 8. */
  function Prepared(n: nat): State {
    State(FirstIndices(Usable(n)), map[], {}, map[], Idle, [], map[], FirstIndices(n)[Usable(n)..], [], [], [], [])
  }

  ghost predicate IsRun(n: nat, states: seq<State>, steps: seq<Step>) {
    && |states| == |steps| + 1 && states[0] == Prepared(n)
    && forall i | 0 <= i < |steps| :: Enabled(states[i], steps[i]) && states[i + 1] == Next(states[i], steps[i])
  }

  // ---- conservation ----

  function WorkerIndex(w: Worker): set<nat> {
    if w.HasIndex? then {w.index} else {}
  }

  /** Who has the output indices: free, held by producers, owned by the driver, held by the worker. */
  function Places(s: State): multiset<nat> {
    multiset(s.free) + multiset(s.holding.Keys) + multiset(s.returning) + multiset(s.driver.Keys)
    + multiset(WorkerIndex(s.worker))
  }

  function Usable(n: nat): nat {
    if n < QUEUE_SIZE then n else QUEUE_SIZE
  }

  /** Every usable index is in exactly one place, once, and nothing was lost after PrepareBuffer. */
  ghost predicate Conserved(n: nat, s: State) {
    Places(s) == multiset(Below(Usable(n))) && s.dropped == Prepared(n).dropped
  }

  lemma FirstNext(n: nat)
    ensures multiset(FirstIndices(n + 1)) == multiset(FirstIndices(n)) + multiset{n}
  {
    assert FirstIndices(n + 1) == FirstIndices(n) + [n];
  }

  lemma BelowNext(n: nat)
    ensures multiset(Below(n + 1)) == multiset(Below(n)) + multiset{n}
  {
    var rest, all := Below(n), Below(n + 1);
    assert all == rest + {n} && n !in rest;
    hide Below;
    assert multiset(rest + {n}) == multiset(rest) + multiset{n};
  }

  lemma {:induction false} FirstAreBelow(n: nat)
    ensures multiset(FirstIndices(n)) == multiset(Below(n))
  {
    if n > 0 {
      var last: nat := n - 1;
      FirstAreBelow(last);
      BelowNext(last);
      FirstNext(last);
      hide Below, FirstIndices;
    }
  }

  lemma PreparedConserves(n: nat)
    ensures Conserved(n, Prepared(n))
    ensures Prepared(n).dropped == [] <==> n <= QUEUE_SIZE
  {
    FirstAreBelow(Usable(n));
  }

  /** Of nine buffers the last is never used. */
  lemma NineBuffersDropOne()
    ensures Prepared(QUEUE_SIZE + 1).dropped == [QUEUE_SIZE]
  {
    assert FirstIndices(QUEUE_SIZE + 1) == FirstIndices(QUEUE_SIZE) + [QUEUE_SIZE];
    hide FirstIndices;
  }

  lemma KeyRemoved(m: map<nat, Job>, i: nat)
    requires i in m
    ensures multiset((m - {i}).Keys) + multiset{i} == multiset(m.Keys)
  {
    assert (m - {i}).Keys == m.Keys - {i};
  }

  lemma KeyAdded(m: map<nat, Job>, i: nat, job: Job)
    requires i !in m
    ensures multiset(m[i := job].Keys) == multiset(m.Keys) + multiset{i}
  {
    assert m[i := job].Keys == m.Keys + {i};
  }

  lemma PopMoves(s: State, job: Job)
    requires Enabled(s, Pop(job)) && (s.free != [] ==> s.free[0] !in s.holding)
    ensures Places(Next(s, Pop(job))) == Places(s)
  {
    if s.free != [] {
      assert s.free == [s.free[0]] + s.free[1..];
      assert multiset(s.free) == multiset{s.free[0]} + multiset(s.free[1..]);
      KeyAdded(s.holding, s.free[0], job);
    }
  }

  lemma QbufMoves(s: State, i: nat)
    requires i in s.holding && i !in s.driver
    ensures Places(Next(s, Qbuf(i, true))) == Places(s)
  {
    KeyRemoved(s.holding, i);
    KeyAdded(s.driver, i, s.holding[i]);
  }

  lemma FailedQbufMoves(s: State, i: nat)
    requires i in s.holding && i !in s.returning
    ensures Places(Next(s, Qbuf(i, false))) == Places(s)
  {
    KeyRemoved(s.holding, i);
    assert multiset(s.returning + {i}) == multiset(s.returning) + multiset{i};
  }

  lemma PushBackMoves(s: State, i: nat)
    requires i in s.returning && |s.free| < QUEUE_SIZE
    ensures Places(Next(s, PushBack(i))) == Places(s)
  {
    assert multiset(s.returning - {i}) + multiset{i} == multiset(s.returning);
  }

  lemma DqOutputMoves(s: State, i: nat)
    requires Enabled(s, DqOutput(i))
    ensures Places(Next(s, DqOutput(i))) == Places(s)
  {
    KeyRemoved(s.driver, i);
  }

  lemma PushIndexMoves(s: State)
    requires Enabled(s, PushIndex) && |s.free| < QUEUE_SIZE
    ensures Places(Next(s, PushIndex)) == Places(s)
  {
  }

  lemma NothingMoves(s: State, t: State)
    requires t.free == s.free && t.holding == s.holding && t.returning == s.returning && t.driver == s.driver
    requires WorkerIndex(t.worker) == WorkerIndex(s.worker)
    ensures Places(t) == Places(s)
  {
  }

  /** An index in one place is not in another. */
  lemma Apart(n: nat, s: State, i: nat)
    requires Conserved(n, s)
    ensures i in s.free || i in s.driver || i in s.returning ==> i !in s.holding
  {
    assert Places(s)[i] <= 1;
    assert i in s.free ==> i in multiset(s.free);
  }

  /** Whoever gives an index up leaves room in the queue for it. */
  lemma RoomFor(n: nat, s: State, i: nat)
    requires Conserved(n, s) && (i in s.returning || s.worker == HasIndex(i))
    ensures |s.free| < QUEUE_SIZE
  {
    var others := multiset(s.holding.Keys) + multiset(s.returning)
                 + multiset(s.driver.Keys) + multiset(WorkerIndex(s.worker));
    assert Places(s) == multiset(s.free) + others;
    assert i in others;
    assert |multiset(s.free) + others| == |s.free| + |others|;
  }

  /** Every step keeps every index in one place, and no push of an index is rejected. */
  lemma NextConserves(n: nat, s: State, step: Step)
    requires Conserved(n, s) && Enabled(s, step)
    ensures Conserved(n, Next(s, step))
  {
    hide Places, Prepared;
    match step
    case Pop(job) =>
      if s.free != [] { Apart(n, s, s.free[0]); }
      PopMoves(s, job);
    case Qbuf(i, ok) =>
      Apart(n, s, i);
      if ok { QbufMoves(s, i); } else { FailedQbufMoves(s, i); }
    case PushBack(i) =>
      RoomFor(n, s, i);
      PushBackMoves(s, i);
    case DqOutput(i) => DqOutputMoves(s, i);
    case PushIndex =>
      RoomFor(n, s, s.worker.index);
      PushIndexMoves(s);
    case _ => NothingMoves(s, Next(s, step));
  }

  // ---- the order of callbacks ----

  function Firsts(ps: seq<(Job, Job)>): seq<Job> {
    if ps == [] then [] else Firsts(ps[..|ps| - 1]) + [ps[|ps| - 1].0]
  }

  function InFlight(w: Worker): seq<Job> {
    if w.Running? && w.job.Some? then [w.job.value] else []
  }

  ghost predicate NoRepeats(xs: seq<Job>) {
    forall i, j | 0 <= i < j < |xs| :: xs[i] != xs[j]
  }

  /** Accepted callbacks have run, are running or wait, in this order. */
  ghost predicate InOrder(s: State) {
    s.accepted == Firsts(s.delivered) + InFlight(s.worker) + s.tasks
  }

  /** No two indices are held for one job. */
  ghost predicate HeldOnce(s: State) {
    && (forall i | i in s.holding :: s.holding[i] in s.stages && s.stages[s.holding[i]] == Held)
    && (forall i, j | i in s.holding && j in s.holding && i != j :: s.holding[i] != s.holding[j])
  }

  ghost predicate AcceptedOnce(s: State) {
    && (forall job | job in s.accepted :: job in s.stages && s.stages[job] == Accepted)
    && NoRepeats(s.accepted)
  }

  lemma PopTaskKeepsOrder(s: State)
    requires InOrder(s) && s.worker.HasFrame?
    ensures InOrder(Next(s, PopTask))
  {
    hide Firsts;
    if s.tasks != [] {
      assert s.tasks == [s.tasks[0]] + s.tasks[1..];
      var t := Next(s, PopTask);
      assert InFlight(s.worker) == [] && InFlight(t.worker) == [s.tasks[0]];
      assert Firsts(s.delivered) + [] + s.tasks == Firsts(s.delivered) + [s.tasks[0]] + s.tasks[1..];
    }
  }

  lemma RunKeepsOrder(s: State)
    requires InOrder(s) && s.worker.Running?
    ensures InOrder(Next(s, Run))
  {
    if s.worker.job.Some? {
      var last := (s.worker.job.value, s.worker.frame);
      assert (s.delivered + [last])[..|s.delivered|] == s.delivered;
    }
  }

  lemma PushTaskKeepsOrder(s: State, job: Job)
    requires InOrder(s) && Enabled(s, PushTask(job))
    ensures InOrder(Next(s, PushTask(job)))
  {
    hide Firsts;
  }

  lemma NextKeepsOrder(s: State, step: Step)
    requires InOrder(s) && Enabled(s, step)
    ensures InOrder(Next(s, step))
  {
    hide InOrder;
    if step == PopTask {
      PopTaskKeepsOrder(s);
    } else if step == Run {
      RunKeepsOrder(s);
    } else if step.PushTask? {
      PushTaskKeepsOrder(s, step.job);
    } else {
      SameOrder(s, Next(s, step));
    }
  }

  lemma SameOrder(s: State, t: State)
    requires InOrder(s) && t.accepted == s.accepted && t.delivered == s.delivered && t.tasks == s.tasks
    requires InFlight(t.worker) == InFlight(s.worker)
    ensures InOrder(t)
  {
  }

  lemma NextKeepsHeldOnce(s: State, step: Step)
    requires HeldOnce(s) && Enabled(s, step)
    ensures HeldOnce(Next(s, step))
  {
  }

  lemma NextKeepsAcceptedOnce(s: State, step: Step)
    requires HeldOnce(s) && AcceptedOnce(s) && Enabled(s, step)
    ensures AcceptedOnce(Next(s, step))
  {
  }

  ghost predicate Inv(n: nat, s: State) {
    Conserved(n, s) && InOrder(s) && HeldOnce(s) && AcceptedOnce(s)
  }

  lemma StepKeeps(n: nat, s: State, step: Step)
    requires Inv(n, s) && Enabled(s, step)
    ensures Inv(n, Next(s, step))
  {
    hide Conserved, InOrder, HeldOnce, AcceptedOnce, Next, Enabled;
    NextConserves(n, s, step);
    NextKeepsOrder(s, step);
    NextKeepsHeldOnce(s, step);
    NextKeepsAcceptedOnce(s, step);
  }

  lemma {:induction false} EveryRunKeeps(n: nat, states: seq<State>, steps: seq<Step>, k: nat)
    requires IsRun(n, states, steps) && k < |states|
    ensures Inv(n, states[k])
    decreases k
  {
    if k == 0 {
      PreparedConserves(n);
    } else {
      EveryRunKeeps(n, states, steps, k - 1);
      StepKeeps(n, states[k - 1], steps[k - 1]);
    }
  }

  /** Under every interleaving, with any failures: an output index below min(n, 8) is in exactly one place; no index
      was rejected, except by PrepareBuffer for more than 8 buffers; callbacks run in the order in which they were
      accepted and at most once. */
  lemma EveryRunIsSafe(n: nat, states: seq<State>, steps: seq<Step>, k: nat)
    requires IsRun(n, states, steps) && k < |states|
    ensures forall i: nat | i < n && i < QUEUE_SIZE :: Places(states[k])[i] == 1
    ensures forall i | i in Places(states[k]) :: i < n && i < QUEUE_SIZE
    ensures states[k].dropped == [] <==> n <= QUEUE_SIZE
    ensures Firsts(states[k].delivered) <= states[k].accepted && NoRepeats(Firsts(states[k].delivered))
  {
    EveryRunKeeps(n, states, steps, k);
    hide Inv, IsRun, Places, Firsts, NoRepeats, Prepared;
    StateIsSafe(n, states[k]);
  }

  lemma StateIsSafe(n: nat, s: State)
    requires Inv(n, s)
    ensures forall i: nat | i < n && i < QUEUE_SIZE :: Places(s)[i] == 1
    ensures forall i | i in Places(s) :: i < n && i < QUEUE_SIZE
    ensures s.dropped == [] <==> n <= QUEUE_SIZE
    ensures Firsts(s.delivered) <= s.accepted && NoRepeats(Firsts(s.delivered))
  {
    hide Places, Prepared, Firsts, NoRepeats, InOrder, HeldOnce, AcceptedOnce;
    PreparedConserves(n);
    RanOnce(s);
    EachPlacedOnce(n, s);
  }

  lemma EachPlacedOnce(n: nat, s: State)
    requires Conserved(n, s)
    ensures forall i: nat | i < n && i < QUEUE_SIZE :: Places(s)[i] == 1
    ensures forall i | i in Places(s) :: i < n && i < QUEUE_SIZE
  {
    hide Places, Prepared, Below;
  }

  lemma RanOnce(s: State)
    requires InOrder(s) && AcceptedOnce(s)
    ensures Firsts(s.delivered) <= s.accepted && NoRepeats(Firsts(s.delivered))
  {
    hide Firsts;
  }

  // ---- uninterrupted calls ----

  /** EmplaceBuffer without interruption. */
  function AfterEmplace(s: State, job: Job, queues: bool): State
    requires job !in s.stages
  {
    var s1 := Next(s, Pop(job));
    if s.free == [] then s1
    else
      var i := s.free[0];
      var s2 := Next(s1, Qbuf(i, queues));
      if queues then Next(s2, PushTask(job)) else Next(s2, PushBack(i))
  }

  /** CaptureBuffer without interruption, when both ends of the device have something to dequeue: `output` and
      `frame` are what the two ioctls return. */
  function AfterCapture(s: State, output: Option<nat>, frame: Option<Job>, aborts: bool): State
    requires s.worker == Idle && (output.Some? ==> output.value in s.driver)
  {
    if output == None then s
    else
      var s1 := Next(Next(s, DqOutput(output.value)), PushIndex);
      var s2 := Next(s1, DqCapture(frame));
      if frame == None then s2
      else if aborts then Next(s2, Abort)
      else Next(Next(Next(s2, PopTask), Run), Requeue)
  }

  /** An uninterrupted iteration hands its frame to the first waiting callback and to no other, gives the output back,
      and does nothing else; without an output, a frame or a callback, or after an abort, it hands out none. */
  lemma CaptureDeliversOne(s: State, output: Option<nat>, frame: Option<Job>, aborts: bool)
    requires s.worker == Idle && (output.Some? ==> output.value in s.driver) && |s.free| < QUEUE_SIZE
    ensures var t := AfterCapture(s, output, frame, aborts);
            var hands := output.Some? && frame.Some? && !aborts && s.tasks != [];
            && t.worker == Idle
            && t.delivered == s.delivered + (if hands then [(s.tasks[0], frame.value)] else [])
            && s.tasks == (if hands then [s.tasks[0]] else []) + t.tasks
            && t.free == s.free + (if output.Some? then [output.value] else [])
            && t.driver.Keys == s.driver.Keys - (if output.Some? then {output.value} else {})
            && t.accepted == s.accepted && t.queued == s.queued && t.holding == s.holding
  {
    hide Next;
    if output.Some? {
      IndexGivenBack(s, output.value);
      FrameTaken(s, output.value, frame);
      if frame.Some? {
        FrameHandedOver(Next(Next(Next(s, DqOutput(output.value)), PushIndex), DqCapture(frame)));
      }
    }
    assert s.delivered + [] == s.delivered && [] + s.tasks == s.tasks && s.free + [] == s.free;
  }

  lemma IndexGivenBack(s: State, i: nat)
    requires s.worker == Idle && i in s.driver && |s.free| < QUEUE_SIZE
    ensures var t := Next(Next(s, DqOutput(i)), PushIndex);
            t == s.(driver := s.driver - {i}, worker := Returned, free := s.free + [i]) &&
            t.driver.Keys == s.driver.Keys - {i}
  {
  }

  lemma FrameTaken(s: State, i: nat, frame: Option<Job>)
    requires s.worker == Idle && i in s.driver && |s.free| < QUEUE_SIZE
    ensures Next(s, DqOutput(i)).worker.HasIndex?
    ensures var t := Next(Next(s, DqOutput(i)), PushIndex);
            t.worker == Returned &&
            Next(t, DqCapture(frame)) ==
            if frame == None then t.(worker := Idle)
            else t.(worker := HasFrame(frame.value), captured := s.captured + [frame.value])
  {
    IndexGivenBack(s, i);
  }

  lemma FrameHandedOver(s: State)
    requires s.worker.HasFrame?
    ensures Next(s, Abort) == s.(worker := Idle)
    ensures var t := Next(s, PopTask);
            t.worker.Running? && Next(t, Run).worker == Requeues &&
            Next(Next(t, Run), Requeue) ==
            if s.tasks == [] then s.(worker := Idle)
            else s.(worker := Idle, tasks := s.tasks[1..], delivered := s.delivered + [(s.tasks[0], s.worker.frame)])
  {
  }

  // ---- every callback gets its own frame ----

  /** A step when calls of EmplaceBuffer do not overlap with anything else. */
  datatype Turn = Submit(job: Job, queues: bool) | Work(step: Step)

  /** The device hands out frames in the order in which it got the jobs, and has one for every output it returns. */
  predicate Allowed(s: State, t: Turn) {
    match t
    case Submit(job, _) => job !in s.stages
    case Work(step) =>
      && Enabled(s, step)
      && (step.DqOutput? || step.PushIndex? || step.DqCapture? || step.PopTask? || step.Run? || step.Requeue?)
      && (step.DqCapture? ==> |s.captured| < |s.queued| && step.frame == Some(s.queued[|s.captured|]))
  }

  function Take(s: State, t: Turn): State
    requires Allowed(s, t)
  {
    match t
    case Submit(job, queues) => AfterEmplace(s, job, queues)
    case Work(step) => Next(s, step)
  }

  ghost predicate IsOrderlyRun(n: nat, states: seq<State>, turns: seq<Turn>) {
    && |states| == |turns| + 1 && states[0] == Prepared(n)
    && forall i | 0 <= i < |turns| :: Allowed(states[i], turns[i]) && states[i + 1] == Take(states[i], turns[i])
  }

  /** Outputs that the device or the worker has for frames still to be dequeued. */
  function Outstanding(s: State): nat {
    |s.driver| + (if s.worker.HasIndex? || s.worker == Returned then 1 else 0)
  }

  ghost predicate Aligned(s: State) {
    && s.holding == map[] && s.returning == {} && (forall job | job in s.stages :: s.stages[job] != Submitting)
    && s.accepted == s.queued && s.captured <= s.queued
    && |s.queued| == |s.captured| + Outstanding(s)
    && |s.tasks| == Outstanding(s) + (if s.worker.HasFrame? then 1 else 0)
    && (s.worker.HasFrame? ==> s.captured != [] && s.worker.frame == s.captured[|s.captured| - 1])
    && (s.worker.Running? ==> s.worker.job == Some(s.worker.frame))
    && (forall i | 0 <= i < |s.delivered| :: s.delivered[i].0 == s.delivered[i].1)
  }

  lemma FewAreOutstanding(n: nat, s: State)
    requires Conserved(n, s)
    ensures |s.driver| + |s.free| <= n && |s.driver| + |s.free| <= QUEUE_SIZE
    ensures s.worker.HasIndex? ==> |s.driver| + |s.free| < n
  {
    assert |Places(s)| == |s.free| + |s.holding.Keys| + |s.returning| + |s.driver.Keys| + |WorkerIndex(s.worker)|;
  }

  lemma AcceptedEmplace(s: State, job: Job)
    requires s.free != [] && s.holding == map[] && job !in s.stages && |s.tasks| < QUEUE_SIZE
    ensures AfterEmplace(s, job, true)
            == s.(free := s.free[1..], driver := s.driver[s.free[0] := job], queued := s.queued + [job],
                  tasks := s.tasks + [job], accepted := s.accepted + [job], stages := s.stages[job := Accepted])
  {
    var i := s.free[0];
    assert s.holding[i := job] - {i} == map[];
    assert s.stages[job := Held][job := Submitting][job := Accepted] == s.stages[job := Accepted];
  }

  lemma FailedEmplace(s: State, job: Job)
    requires s.free != [] && s.holding == map[] && s.returning == {} && job !in s.stages && |s.free| <= QUEUE_SIZE
    ensures AfterEmplace(s, job, false) == s.(free := s.free[1..] + [s.free[0]], stages := s.stages[job := Over])
  {
    var i := s.free[0];
    assert s.holding[i := job] - {i} == map[];
    assert s.stages[job := Held][job := Over] == s.stages[job := Over];
  }

  lemma RoomForTask(n: nat, s: State)
    requires n < QUEUE_SIZE && Conserved(n, s) && Aligned(s) && s.free != []
    ensures |s.tasks| < QUEUE_SIZE && |s.free| <= QUEUE_SIZE && s.holding == map[] && s.returning == {}
  {
    FewAreOutstanding(n, s);
  }

  lemma SubmitAligns(n: nat, s: State, job: Job, queues: bool)
    requires n < QUEUE_SIZE && Conserved(n, s) && Aligned(s) && job !in s.stages
    ensures Aligned(AfterEmplace(s, job, queues))
  {
    hide Conserved, AfterEmplace, Aligned;
    var t := AfterEmplace(s, job, queues);
    if s.free == [] {
      NoIndexLeft(s, job, queues);
      RejectedAligns(s, job, t);
    } else {
      RoomForTask(n, s);
      if queues {
        NotDriven(n, s, s.free[0]);
        AcceptedEmplace(s, job);
        AcceptedAligns(s, job, t);
      } else {
        FailedEmplace(s, job);
        RejectedAligns(s, job, t);
      }
    }
  }

  lemma RejectedAligns(s: State, job: Job, t: State)
    requires Aligned(s) && t == s.(free := t.free, stages := s.stages[job := Over])
    ensures Aligned(t)
  {
  }

  lemma AcceptedAligns(s: State, job: Job, t: State)
    requires Aligned(s) && s.free != [] && s.free[0] !in s.driver
    requires t == s.(free := s.free[1..], driver := s.driver[s.free[0] := job], queued := s.queued + [job],
                     tasks := s.tasks + [job], accepted := s.accepted + [job], stages := s.stages[job := Accepted])
    ensures Aligned(t)
  {
    assert t.driver.Keys == s.driver.Keys + {s.free[0]};
    assert |t.driver| == |s.driver| + 1;
  }

  lemma NoIndexLeft(s: State, job: Job, queues: bool)
    requires s.free == [] && job !in s.stages
    ensures AfterEmplace(s, job, queues) == s.(stages := s.stages[job := Over])
  {
  }

  lemma NotDriven(n: nat, s: State, i: nat)
    requires Conserved(n, s) && i in s.free
    ensures i !in s.driver
  {
    assert i in multiset(s.free);
    assert Places(s)[i] <= 1;
  }

  lemma WorkAligns(s: State, step: Step)
    requires InOrder(s) && Aligned(s) && Allowed(s, Work(step))
    ensures Aligned(Next(s, step))
  {
    if step == PopTask {
      PopTaskAligns(s);
    } else if step == Run {
      RunAligns(s);
    } else if step.DqOutput? {
      DqOutputAligns(s, step.index);
    } else if step.DqCapture? {
      DqCaptureAligns(s, Next(s, step));
    } else {
      IndexAligns(s, Next(s, step));
    }
  }

  lemma DqOutputAligns(s: State, i: nat)
    requires Aligned(s) && s.worker == Idle && i in s.driver
    ensures Aligned(Next(s, DqOutput(i)))
  {
    assert (s.driver - {i}).Keys == s.driver.Keys - {i};
    assert |s.driver - {i}| == |(s.driver - {i}).Keys| && |s.driver| == |s.driver.Keys|;
  }

  lemma DqCaptureAligns(s: State, t: State)
    requires Aligned(s) && s.worker == Returned && |s.captured| < |s.queued|
    requires var frame := s.queued[|s.captured|];
             t == s.(worker := HasFrame(frame), captured := s.captured + [frame])
    ensures Aligned(t)
  {
  }

  /** Pushing back an index and requeuing the capture buffer leave jobs and frames alone. */
  lemma IndexAligns(s: State, t: State)
    requires Aligned(s) && t == s.(free := t.free, dropped := t.dropped, worker := t.worker)
    requires (s.worker.HasIndex? && t.worker == Returned) || (s.worker == Requeues && t.worker == Idle)
    ensures Aligned(t)
  {
  }

  lemma PopTaskAligns(s: State)
    requires InOrder(s) && Aligned(s) && s.worker.HasFrame?
    ensures Aligned(Next(s, PopTask))
  {
    assert |Firsts(s.delivered)| + |s.tasks| == |s.accepted|;
    assert s.accepted[|s.captured| - 1] == s.tasks[0];
  }

  lemma RunAligns(s: State)
    requires Aligned(s) && s.worker.Running?
    ensures Aligned(Next(s, Run))
  {
  }

  lemma {:induction false} EveryOrderlyRunKeeps(n: nat, states: seq<State>, turns: seq<Turn>, k: nat)
    requires n < QUEUE_SIZE && IsOrderlyRun(n, states, turns) && k < |states|
    ensures Inv(n, states[k]) && Aligned(states[k])
    decreases k
  {
    if k == 0 {
      PreparedConserves(n);
    } else {
      EveryOrderlyRunKeeps(n, states, turns, k - 1);
      TurnKeeps(n, states[k - 1], turns[k - 1]);
    }
  }

  lemma TurnKeeps(n: nat, s: State, t: Turn)
    requires n < QUEUE_SIZE && Inv(n, s) && Aligned(s) && Allowed(s, t)
    ensures Inv(n, Take(s, t)) && Aligned(Take(s, t))
  {
    match t
    case Submit(job, queues) =>
      hide Conserved, InOrder, HeldOnce, AcceptedOnce, Aligned;
      SubmitAligns(n, s, job, queues);
      EmplaceKeeps(n, s, job, queues);
    case Work(step) =>
      WorkAligns(s, step);
      StepKeeps(n, s, step);
  }

  lemma EmplaceKeeps(n: nat, s: State, job: Job, queues: bool)
    requires Inv(n, s) && job !in s.stages
    ensures Inv(n, AfterEmplace(s, job, queues))
  {
    hide Inv;
    StepKeeps(n, s, Pop(job));
    if s.free != [] {
      var i := s.free[0];
      var s1 := Next(s, Pop(job));
      StepKeeps(n, s1, Qbuf(i, queues));
      var s2 := Next(s1, Qbuf(i, queues));
      StepKeeps(n, s2, if queues then PushTask(job) else PushBack(i));
    }
  }

  /** With fewer than 8 output buffers, submissions that nothing interrupts and a device that answers in order, no
      callback is lost and each gets the frame of its own job. */
  lemma EachCallbackGetsItsOwnFrame(n: nat, states: seq<State>, turns: seq<Turn>, k: nat)
    requires n < QUEUE_SIZE && IsOrderlyRun(n, states, turns) && k < |states|
    ensures forall i | 0 <= i < |states[k].delivered| :: states[k].delivered[i].0 == states[k].delivered[i].1
    ensures states[k].accepted == states[k].queued && states[k].captured <= states[k].queued
    ensures Firsts(states[k].delivered) <= states[k].captured
  {
    EveryOrderlyRunKeeps(n, states, turns, k);
    hide Conserved;
    DeliveredWereCaptured(states[k]);
  }

  lemma DeliveredWereCaptured(s: State)
    requires InOrder(s) && Aligned(s)
    ensures Firsts(s.delivered) <= s.captured
  {
    hide Firsts;
    assert |Firsts(s.delivered)| <= |s.captured|;
  }

  // ---- where that ends ----

  lemma ExtendOrderly(n: nat, states: seq<State>, turns: seq<Turn>, t: Turn)
    returns (states': seq<State>, turns': seq<Turn>)
    requires IsOrderlyRun(n, states, turns) && Allowed(states[|turns|], t)
    ensures IsOrderlyRun(n, states', turns') && |states'| == |turns'| + 1
    ensures states'[|turns'|] == Take(states[|turns|], t)
  {
    hide Allowed, Take;
    states', turns' := states + [Take(states[|turns|], t)], turns + [t];
  }

  /** k jobs are with the device and nothing has come back. */
  ghost predicate Loaded(n: nat, k: nat, s: State) {
    && Inv(n, s) && s.holding == map[] && s.worker == Idle && s.stages.Keys == Below(k)
    && |s.free| == QUEUE_SIZE - k && |s.tasks| == k && |s.driver| == k && |s.accepted| == |s.queued|
  }

  lemma SubmitLoads(n: nat, k: nat, s: State)
    requires k < QUEUE_SIZE && Loaded(n, k, s)
    ensures Allowed(s, Submit(k, true)) && Loaded(n, k + 1, Take(s, Submit(k, true)))
  {
    NotDriven(n, s, s.free[0]);
    AcceptedEmplace(s, k);
    EmplaceKeeps(n, s, k, true);
    hide Loaded, Inv, AfterEmplace;
    LoadedAfter(n, k, s, Take(s, Submit(k, true)));
  }

  lemma LoadedAfter(n: nat, k: nat, s: State, t: State)
    requires k < QUEUE_SIZE && Loaded(n, k, s) && Inv(n, t) && k !in s.stages && s.free[0] !in s.driver
    requires t == s.(free := s.free[1..], driver := s.driver[s.free[0] := k], queued := s.queued + [k],
                     tasks := s.tasks + [k], accepted := s.accepted + [k], stages := s.stages[k := Accepted])
    ensures Loaded(n, k + 1, t)
  {
    hide Inv, Below;
    AddedKey(s.stages, k, Accepted);
    AddedKey(s.driver, s.free[0], k);
    KeysBelow(k);
  }

  lemma AddedKey<V>(m: map<nat, V>, k: nat, v: V)
    requires k !in m
    ensures m[k := v].Keys == m.Keys + {k} && |m[k := v]| == |m| + 1
  {
    assert m[k := v].Keys == m.Keys + {k};
  }

  lemma KeysBelow(k: nat)
    ensures Below(k + 1) == Below(k) + {k}
  {
  }

  lemma PreparedIsEmpty(n: nat)
    requires n >= QUEUE_SIZE
    ensures IsOrderlyRun(n, [Prepared(n)], []) && Loaded(n, 0, Prepared(n))
  {
    PreparedConserves(n);
  }

  /** The first k submissions load the device. */
  lemma {:induction false} Submitted(n: nat, k: nat) returns (states: seq<State>, turns: seq<Turn>)
    requires n >= QUEUE_SIZE >= k
    ensures IsOrderlyRun(n, states, turns) && |states| == |turns| + 1 && Loaded(n, k, states[|turns|])
  {
    hide Loaded, IsOrderlyRun, Allowed, Take;
    if k == 0 {
      states, turns := [Prepared(n)], [];
      PreparedIsEmpty(n);
    } else {
      states, turns := Submitted(n, k - 1);
      SubmitLoads(n, k - 1, states[|turns|]);
      states, turns := ExtendOrderly(n, states, turns, Submit(k - 1, true));
    }
  }

  /** The worker has pushed an index back and has not popped the callback yet. */
  lemma OneComesBack(n: nat, s: State, i: nat)
    requires Loaded(n, QUEUE_SIZE, s) && i in s.driver
    ensures Allowed(s, Work(DqOutput(i))) && Allowed(Take(s, Work(DqOutput(i))), Work(PushIndex))
    ensures var t := Take(Take(s, Work(DqOutput(i))), Work(PushIndex));
            && t.free == [i] && t.holding == map[] && t.stages == s.stages && t.tasks == s.tasks
            && t.queued == s.queued && t.accepted == s.accepted
  {
    hide Inv, Below;
  }

  lemma NextIsRejected(s: State, job: Job)
    requires |s.free| == 1 && job !in s.stages && |s.tasks| >= QUEUE_SIZE
    ensures var t := AfterEmplace(s, job, true);
            |t.queued| == |s.queued| + 1 && t.accepted == s.accepted
  {
  }

  /** From 8 output buffers on an index can come back while the device is full, before the callback of its frame is
      popped; the next callback is then rejected although its job was queued. */
  lemma EightBuffersLoseACallback(n: nat)
    requires n >= QUEUE_SIZE
    ensures exists states: seq<State>, turns: seq<Turn> ::
              IsOrderlyRun(n, states, turns) && |states[|turns|].accepted| < |states[|turns|].queued|
  {
    var states, turns := Submitted(n, QUEUE_SIZE);
    var s := states[|turns|];
    assert s.driver != map[];
    var i :| i in s.driver;
    OneComesBack(n, s, i);
    var job: Job := QUEUE_SIZE;
    assert job !in s.stages && |s.tasks| == QUEUE_SIZE && |s.accepted| == |s.queued|;
    hide IsOrderlyRun, Loaded, Below, Next, AfterEmplace;
    states, turns := ExtendOrderly(n, states, turns, Work(DqOutput(i)));
    states, turns := ExtendOrderly(n, states, turns, Work(PushIndex));
    NextIsRejected(states[|turns|], job);
    states, turns := ExtendOrderly(n, states, turns, Submit(job, true));
  }

  class V4L2Codec {
    const outputBufferIndex: ThreadSafeQueue<nat>
    const capturingTasks: ThreadSafeQueue<Job>
    ghost var world: State

    constructor ()
      ensures Valid() && world == Prepared(0) && fresh(outputBufferIndex) && fresh(capturingTasks)
    {
      outputBufferIndex := new ThreadSafeQueue(QUEUE_SIZE);
      capturingTasks := new ThreadSafeQueue(QUEUE_SIZE);
      world := Prepared(0);
    }

    /** The queues hold what the state says. */
    ghost predicate Valid()
      reads this, outputBufferIndex, capturingTasks
    {
      && outputBufferIndex != capturingTasks
      && outputBufferIndex.queue == world.free && outputBufferIndex.maxSize == QUEUE_SIZE
      && capturingTasks.queue == world.tasks && capturingTasks.maxSize == QUEUE_SIZE
    }

    method PrepareOutput(n: nat)
      requires Valid() && world == Prepared(0)
      modifies this, outputBufferIndex
      ensures Valid() && world == Prepared(n)
    {
      var i := 0;
      while i < n
        invariant 0 <= i <= n && Valid() && world == Prepared(i)
      {
        var _ := outputBufferIndex.Push(i);
        i := i + 1;
        world := Prepared(i);
      }
    }

    method EmplaceBuffer(job: Job, queues: bool)
      requires Valid() && job !in world.stages
      modifies this, outputBufferIndex, capturingTasks
      ensures Valid() && world == AfterEmplace(old(world), job, queues)
    {
      var item := outputBufferIndex.Pop();
      world := Next(world, Pop(job));
      if item == None {
        return;
      }
      world := Next(world, Qbuf(item.value, queues));
      if !queues {
        var _ := outputBufferIndex.Push(item.value);
        world := Next(world, PushBack(item.value));
        return;
      }
      var _ := capturingTasks.Push(job);
      world := Next(world, PushTask(job));
    }

    method CaptureBuffer(output: Option<nat>, frame: Option<Job>, aborts: bool, requeues: bool) returns (ok: bool)
      requires Valid() && world.worker == Idle && (output.Some? ==> output.value in world.driver)
      modifies this, outputBufferIndex, capturingTasks
      ensures Valid() && world == AfterCapture(old(world), output, frame, aborts)
      ensures ok == (output.Some? && frame.Some? && !aborts && requeues)
    {
      hide Firsts;
      if output == None {
        return false;
      }
      world := Next(world, DqOutput(output.value));
      var _ := outputBufferIndex.Push(output.value);
      world := Next(world, PushIndex);
      world := Next(world, DqCapture(frame));
      if frame == None {
        return false;
      }
      if aborts {
        world := Next(world, Abort);
        return false;
      }
      RunTask();
      ok := requeues;
    }

    /** Pops a callback, runs it on the frame and queues the capture buffer again. */
    method RunTask()
      requires Valid() && world.worker.HasFrame?
      modifies this, capturingTasks
      ensures Valid() && world == Next(Next(Next(old(world), PopTask), Run), Requeue)
    {
      var item := capturingTasks.Pop();
      world := Next(world, PopTask);
      assert world.worker == Running(item, old(world).worker.frame);
      world := Next(world, Run);
      world := Next(world, Requeue);
    }
  }

  // ---- what the driver was given and what it gave back ----

  /** The jobs whose buffers the driver accepted, in order. */
  ghost function GivenToDriver(n: nat, states: seq<State>, steps: seq<Step>, k: nat): seq<Job>
    requires IsRun(n, states, steps) && k <= |steps|
  {
    if k == 0 then []
    else
      var step := steps[k - 1];
      GivenToDriver(n, states, steps, k - 1) +
      (if step.Qbuf? && step.ok then [states[k - 1].holding[step.index]] else [])
  }

  /** The frames the driver handed out, in order. */
  ghost function TakenFromDriver(steps: seq<Step>): seq<Job> {
    if steps == [] then []
    else
      var step := steps[|steps| - 1];
      TakenFromDriver(steps[..|steps| - 1]) + (if step.DqCapture? && step.frame.Some? then [step.frame.value] else [])
  }

  /** In every run a job counts as queued exactly when the driver accepted its buffer, and a frame as captured exactly
      when the driver handed it out. */
  lemma {:induction false} QueuedIsWhatTheDriverAccepted(n: nat, states: seq<State>, steps: seq<Step>, k: nat)
    requires IsRun(n, states, steps) && k < |states|
    ensures states[k].queued == GivenToDriver(n, states, steps, k)
    ensures states[k].captured == TakenFromDriver(steps[..k])
    decreases k
  {
    if k > 0 {
      hide Next, Enabled;
      QueuedIsWhatTheDriverAccepted(n, states, steps, k - 1);
      assert steps[..k][..k - 1] == steps[..k - 1];
      StepQueuesAndTakes(states[k - 1], steps[k - 1]);
    }
  }

  lemma StepQueuesAndTakes(s: State, step: Step)
    requires Enabled(s, step)
    ensures step.Qbuf? ==> step.index in s.holding
    ensures var t := Next(s, step);
            && t.queued == s.queued + (if step.Qbuf? && step.ok then [s.holding[step.index]] else [])
            && t.captured == s.captured + (if step.DqCapture? && step.frame.Some? then [step.frame.value] else [])
  {
  }
}
