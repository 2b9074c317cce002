/** The destination buffers of the hardware scaler: a pool of dma fds that producers transform into and a worker hands
    to callbacks; the source allocates two. Queue operations, transforms and callback ends are the atomic steps. */
module JetsonScaler {
  import opened ThreadSafeQueues
  import opened Wrappers

  type Fd = nat

  datatype State = State(
    owned: set<Fd>,                  // allocated by Initialize
    free: seq<Fd>,                   // free_buffers_
    transforming: set<Fd>,           // popped, the transform is in progress
    returning: set<Fd>,              // the transform failed, to be pushed back
    converted: set<Fd>,              // the transform is done, the task is to be pushed
    tasks: seq<Fd>,                  // capturing_tasks_
    running: Option<Fd>,             // callback in progress
    rejected: seq<Fd>)               // fds that a full queue rejected

  datatype Step =
    | Pop                            // EmplaceBuffer
    | Transform(fd: Fd, ok: bool)
    | PushBack(fd: Fd)
    | PushTask(fd: Fd)
    | PopTask                        // CaptureBuffer
    | Finish                         // the callback pushes its fd back

  predicate Enabled(s: State, step: Step) {
    match step
    case Pop => true
    case Transform(fd, _) => fd in s.transforming
    case PushBack(fd) => fd in s.returning
    case PushTask(fd) => fd in s.converted
    case PopTask => s.running == None
    case Finish => s.running.Some?
  }

  function WithFree(n: nat, s: State, fd: Fd): State {
    s.(free := Pushed(s.free, n, fd), rejected := if |s.free| >= n then s.rejected + [fd] else s.rejected)
  }

  function WithTask(n: nat, s: State, fd: Fd): State {
    s.(tasks := Pushed(s.tasks, n, fd), rejected := if |s.tasks| >= n then s.rejected + [fd] else s.rejected)
  }

  /** Both queues hold at most n fds. */
  function Next(n: nat, s: State, step: Step): State
    requires Enabled(s, step)
  {
    match step
    case Pop =>
      if s.free == [] then s else s.(free := s.free[1..], transforming := s.transforming + {s.free[0]})
    case Transform(fd, ok) =>
      var s1 := s.(transforming := s.transforming - {fd});
      if ok then s1.(converted := s.converted + {fd}) else s1.(returning := s.returning + {fd})
    case PushBack(fd) => WithFree(n, s.(returning := s.returning - {fd}), fd)
    case PushTask(fd) => WithTask(n, s.(converted := s.converted - {fd}), fd)
    case PopTask => if s.tasks == [] then s else s.(tasks := s.tasks[1..], running := Some(s.tasks[0]))
    case Finish => WithFree(n, s.(running := None), s.running.value)
  }

  function SetOf(fds: seq<Fd>): set<Fd> {
    set fd | fd in fds
  }

  /** After Initialize has allocated `fds`; fewer than n when an allocation failed. */
  function Initialized(fds: seq<Fd>): State {
    State(SetOf(fds), fds, {}, {}, {}, [], None, [])
  }

  ghost predicate Distinct(fds: seq<Fd>) {
    forall i, j | 0 <= i < j < |fds| :: fds[i] != fds[j]
  }

  ghost predicate IsRun(n: nat, fds: seq<Fd>, states: seq<State>, steps: seq<Step>) {
    && |states| == |steps| + 1 && states[0] == Initialized(fds)
    && forall i | 0 <= i < |steps| :: Enabled(states[i], steps[i]) && states[i + 1] == Next(n, states[i], steps[i])
  }

  // ---- conservation ----

  function RunningFd(s: State): set<Fd> {
    if s.running.Some? then {s.running.value} else {}
  }

  /** fds outside the two queues */
  function Busy(s: State): multiset<Fd> {
    multiset(s.transforming) + multiset(s.returning) + multiset(s.converted) + multiset(RunningFd(s))
  }

  function Places(s: State): multiset<Fd> {
    multiset(s.free) + multiset(s.tasks) + Busy(s)
  }

  /** Every allocated fd is in one place, once; no push was rejected. */
  ghost predicate Inv(n: nat, s: State) {
    Places(s) == multiset(s.owned) && |s.owned| <= n && s.rejected == []
  }

  lemma {:induction false} DistinctAreASet(fds: seq<Fd>)
    requires Distinct(fds)
    ensures multiset(fds) == multiset(SetOf(fds)) && |SetOf(fds)| == |fds|
  {
    if fds == [] {
      assert SetOf(fds) == {};
    } else {
      var most, last := fds[..|fds| - 1], fds[|fds| - 1];
      DistinctAreASet(most);
      assert fds == most + [last];
      assert SetOf(fds) == SetOf(most) + {last};
    }
  }

  lemma Sizes(s: State)
    ensures |Places(s)| == |s.free| + |s.tasks| + |Busy(s)|
  {
  }

  /** An fd outside the queues leaves room for it in both. */
  lemma RoomFor(n: nat, s: State, fd: Fd)
    requires Inv(n, s) && fd in Busy(s)
    ensures |s.free| < n && |s.tasks| < n
  {
    Sizes(s);
    hide Places, Busy;
    assert |multiset(s.owned)| == |s.owned|;
    assert Busy(s) == multiset{fd} + (Busy(s) - multiset{fd});
    assert |Busy(s)| >= 1;
  }

  lemma Apart(n: nat, s: State, fd: Fd)
    requires Inv(n, s)
    ensures fd in s.free || fd in s.converted || fd in s.returning ==> fd !in s.transforming
  {
    assert Places(s)[fd] <= 1;
    assert fd in s.free ==> fd in multiset(s.free);
  }

  lemma Removed(a: set<Fd>, fd: Fd)
    requires fd in a
    ensures multiset(a - {fd}) + multiset{fd} == multiset(a)
  {
  }

  lemma Added(a: set<Fd>, fd: Fd)
    requires fd !in a
    ensures multiset(a + {fd}) == multiset(a) + multiset{fd}
  {
  }

  lemma PopMoves(n: nat, s: State)
    requires s.free != [] && s.free[0] !in s.transforming
    ensures Places(Next(n, s, Pop)) == Places(s)
  {
    assert s.free == [s.free[0]] + s.free[1..];
    assert multiset(s.free) == multiset{s.free[0]} + multiset(s.free[1..]);
    Added(s.transforming, s.free[0]);
  }

  lemma TransformMoves(n: nat, s: State, fd: Fd, ok: bool)
    requires fd in s.transforming && fd !in s.converted && fd !in s.returning
    ensures Places(Next(n, s, Transform(fd, ok))) == Places(s)
  {
    Removed(s.transforming, fd);
    Added(s.converted, fd);
    Added(s.returning, fd);
  }

  lemma PushBackMoves(n: nat, s: State, fd: Fd)
    requires fd in s.returning && |s.free| < n
    ensures Places(Next(n, s, PushBack(fd))) == Places(s)
  {
    Removed(s.returning, fd);
  }

  lemma PushTaskMoves(n: nat, s: State, fd: Fd)
    requires fd in s.converted && |s.tasks| < n
    ensures Places(Next(n, s, PushTask(fd))) == Places(s)
  {
    Removed(s.converted, fd);
  }

  lemma PopTaskMoves(n: nat, s: State)
    requires s.running == None && s.tasks != []
    ensures Places(Next(n, s, PopTask)) == Places(s)
  {
    assert s.tasks == [s.tasks[0]] + s.tasks[1..];
    assert multiset(s.tasks) == multiset{s.tasks[0]} + multiset(s.tasks[1..]);
  }

  lemma FinishMoves(n: nat, s: State)
    requires s.running.Some? && |s.free| < n
    ensures Places(Next(n, s, Finish)) == Places(s)
  {
  }

  /** Every step moves an fd from one place to another; no push into either queue is rejected. */
  lemma NextKeeps(n: nat, s: State, step: Step)
    requires Inv(n, s) && Enabled(s, step)
    ensures Inv(n, Next(n, s, step)) && Next(n, s, step).owned == s.owned
  {
    hide Places;
    match step
    case Pop =>
      if s.free != [] {
        Apart(n, s, s.free[0]);
        PopMoves(n, s);
      }
    case Transform(fd, ok) =>
      Apart(n, s, fd);
      TransformMoves(n, s, fd, ok);
    case PushBack(fd) =>
      RoomFor(n, s, fd);
      PushBackMoves(n, s, fd);
    case PushTask(fd) =>
      RoomFor(n, s, fd);
      PushTaskMoves(n, s, fd);
    case PopTask => if s.tasks != [] { PopTaskMoves(n, s); }
    case Finish =>
      RoomFor(n, s, s.running.value);
      FinishMoves(n, s);
  }

  lemma {:induction false} EveryRunKeeps(n: nat, fds: seq<Fd>, states: seq<State>, steps: seq<Step>, k: nat)
    requires Distinct(fds) && |fds| <= n && IsRun(n, fds, states, steps) && k < |states|
    ensures Inv(n, states[k]) && states[k].owned == SetOf(fds)
    decreases k
  {
    hide Inv, Enabled, Next, Initialized;
    if k == 0 {
      InitializedKeeps(n, fds);
    } else {
      EveryRunKeeps(n, fds, states, steps, k - 1);
      NextKeeps(n, states[k - 1], steps[k - 1]);
    }
  }

  lemma InitializedKeeps(n: nat, fds: seq<Fd>)
    requires Distinct(fds) && |fds| <= n
    ensures Inv(n, Initialized(fds)) && Initialized(fds).owned == SetOf(fds)
  {
    DistinctAreASet(fds);
  }

  // ---- what callbacks get ----

  /** How the last transform into a buffer ended. */
  function LastTransform(steps: seq<Step>, fd: Fd): Option<bool> {
    if steps == [] then None
    else
      var step := steps[|steps| - 1];
      if step.Transform? && step.fd == fd then Some(step.ok) else LastTransform(steps[..|steps| - 1], fd)
  }

  /** Buffers on their way to a callback have been transformed into, buffers on their way back could not be. */
  ghost predicate HoldsImages(s: State, steps: seq<Step>) {
    && (forall fd | fd in s.converted || fd in s.tasks || s.running == Some(fd) ::
          LastTransform(steps, fd) == Some(true))
    && (forall fd | fd in s.returning :: LastTransform(steps, fd) == Some(false))
  }

  lemma TransformedApart(n: nat, s: State, fd: Fd)
    requires Inv(n, s) && fd in s.transforming
    ensures fd !in s.converted && fd !in s.returning && fd !in s.tasks && s.running != Some(fd)
  {
    assert Places(s)[fd] <= 1;
    assert fd in s.tasks ==> fd in multiset(s.tasks);
  }

  lemma NextHoldsImages(n: nat, s: State, step: Step, before: seq<Step>)
    requires Inv(n, s) && Enabled(s, step) && HoldsImages(s, before)
    ensures HoldsImages(Next(n, s, step), before + [step])
  {
    hide Inv, LastTransform;
    forall fd ensures LastTransform(before + [step], fd)
                      == if step.Transform? && step.fd == fd then Some(step.ok) else LastTransform(before, fd) {
      LastTransformAppended(before, step, fd);
    }
    var t := Next(n, s, step);
    if step.Transform? {
      TransformedApart(n, s, step.fd);
    } else {
      assert forall fd | fd in t.converted || fd in t.tasks || t.running == Some(fd) ::
          fd in s.converted || fd in s.tasks || s.running == Some(fd);
      assert forall fd | fd in t.returning :: fd in s.returning;
    }
  }

  lemma LastTransformAppended(before: seq<Step>, step: Step, fd: Fd)
    ensures LastTransform(before + [step], fd)
            == if step.Transform? && step.fd == fd then Some(step.ok) else LastTransform(before, fd)
  {
    assert (before + [step])[..|before|] == before;
  }

  lemma FreshHoldsNone(fds: seq<Fd>)
    ensures HoldsImages(Initialized(fds), [])
  {
  }

  /** In every run only buffers that hold a transformed image reach a callback; a buffer whose transform failed goes
      back unused. */
  lemma {:induction false} CallbacksGetImages(n: nat, fds: seq<Fd>, states: seq<State>, steps: seq<Step>, k: nat)
    requires Distinct(fds) && |fds| <= n && IsRun(n, fds, states, steps) && k < |states|
    ensures HoldsImages(states[k], steps[..k])
    decreases k
  {
    hide Inv, Next, Enabled, HoldsImages;
    if k == 0 {
      FreshHoldsNone(fds);
      assert steps[..0] == [];
    } else {
      CallbacksGetImages(n, fds, states, steps, k - 1);
      EveryRunKeeps(n, fds, states, steps, k - 1);
      NextHoldsImages(n, states[k - 1], steps[k - 1], steps[..k - 1]);
      assert steps[..k] == steps[..k - 1] + [steps[k - 1]];
    }
  }

  /** The tasks in the order in which they were pushed. */
  function PushedTasks(steps: seq<Step>): seq<Fd> {
    if steps == [] then []
    else
      var step := steps[|steps| - 1];
      PushedTasks(steps[..|steps| - 1]) + (if step.PushTask? then [step.fd] else [])
  }

  /** The buffers for which a callback has been started, in order. */
  ghost function Started(states: seq<State>, steps: seq<Step>, k: nat): seq<Fd>
    requires k <= |steps| && |states| == |steps| + 1
  {
    if k == 0 then []
    else
      Started(states, steps, k - 1) +
      (if steps[k - 1].PopTask? && states[k].running.Some? then [states[k].running.value] else [])
  }

  lemma StepStarts(n: nat, s: State, step: Step)
    requires Inv(n, s) && Enabled(s, step)
    ensures var t := Next(n, s, step);
            s.tasks + (if step.PushTask? then [step.fd] else [])
            == (if step.PopTask? && t.running.Some? then [t.running.value] else []) + t.tasks
  {
    if step.PushTask? {
      RoomFor(n, s, step.fd);
    }
    hide Inv;
    assert s.tasks + [] == s.tasks && [] + s.tasks == s.tasks;
    if s.tasks != [] {
      assert s.tasks == [s.tasks[0]] + s.tasks[1..];
    }
  }

  /** In every run callbacks are started in the order in which their tasks were pushed, each once. */
  lemma {:induction false} CallbacksKeepTheOrder(n: nat, fds: seq<Fd>, states: seq<State>, steps: seq<Step>, k: nat)
    requires Distinct(fds) && |fds| <= n && IsRun(n, fds, states, steps) && k < |states|
    ensures PushedTasks(steps[..k]) == Started(states, steps, k) + states[k].tasks
    decreases k
  {
    if k > 0 {
      hide Inv, Next, Enabled;
      CallbacksKeepTheOrder(n, fds, states, steps, k - 1);
      EveryRunKeeps(n, fds, states, steps, k - 1);
      StepStarts(n, states[k - 1], steps[k - 1]);
      assert steps[..k][..k - 1] == steps[..k - 1];
      var step, t := steps[k - 1], states[k];
      Regrouped(PushedTasks(steps[..k - 1]), Started(states, steps, k - 1), states[k - 1].tasks, t.tasks,
                if step.PushTask? then [step.fd] else [],
                if step.PopTask? && t.running.Some? then [t.running.value] else []);
    }
  }

  lemma Regrouped(all: seq<Fd>, done: seq<Fd>, was: seq<Fd>, rest: seq<Fd>, pushed: seq<Fd>, popped: seq<Fd>)
    requires all == done + was && was + pushed == popped + rest
    ensures all + pushed == done + popped + rest
  {
    assert all + pushed == done + (was + pushed);
  }

  /** Callbacks one after the other. */
  function Finished(n: nat, s: State, k: nat): State
    requires s.running == None
    ensures Finished(n, s, k).running == None
  {
    if k == 0 then s
    else
      var t := Next(n, Finished(n, s, k - 1), PopTask);
      if t.running.Some? then Next(n, t, Finish) else t
  }

  /** The worker finishes all waiting tasks: one callback each gives every buffer back, in order. */
  lemma {:induction false} EveryTaskIsFinished(n: nat, s: State, k: nat)
    requires Inv(n, s) && s.running == None && k <= |s.tasks|
    ensures Inv(n, Finished(n, s, k))
    ensures Finished(n, s, k) == s.(tasks := s.tasks[k..], free := s.free + s.tasks[..k])
  {
    hide Inv, Next;
    if k == 0 {
      assert s.free + s.tasks[..0] == s.free && s.tasks[0..] == s.tasks;
    } else {
      EveryTaskIsFinished(n, s, k - 1);
      OneTaskIsFinished(n, Finished(n, s, k - 1));
      OneMore(s.tasks, s.free, k);
    }
  }

  lemma OneMore(tasks: seq<Fd>, free: seq<Fd>, k: nat)
    requires 0 < k <= |tasks|
    ensures tasks[k - 1..] != [] && tasks[k - 1..][1..] == tasks[k..]
    ensures free + tasks[..k - 1] + [tasks[k - 1..][0]] == free + tasks[..k]
  {
  }

  lemma OneTaskIsFinished(n: nat, s: State)
    requires Inv(n, s) && s.running == None && s.tasks != []
    ensures var t := Next(n, s, PopTask);
            t.running == Some(s.tasks[0]) && Inv(n, Next(n, t, Finish)) &&
            Next(n, t, Finish) == s.(tasks := s.tasks[1..], free := s.free + [s.tasks[0]])
  {
    hide Inv;
    NextKeeps(n, s, PopTask);
    var t := Next(n, s, PopTask);
    assert t.running.value in Busy(t);
    RoomFor(n, t, t.running.value);
    NextKeeps(n, t, Finish);
  }

  // ---- the destructor ----

  /** No call of EmplaceBuffer is in progress. */
  predicate AtRest(s: State) {
    s.transforming == {} && s.returning == {} && s.converted == {}
  }

  /** What the destructor destroys, in this order: joining the worker first lets a running callback finish. */
  function Destroyed(n: nat, s: State): seq<Fd> {
    var joined := if s.running.Some? then Next(n, s, Finish) else s;
    joined.free + joined.tasks
  }

  /** After any run, also one that follows a partly failed Initialize, the destructor destroys every allocated fd
      exactly once and nothing else. */
  lemma EachFdIsDestroyedOnce(n: nat, fds: seq<Fd>, states: seq<State>, steps: seq<Step>, k: nat)
    requires Distinct(fds) && |fds| <= n && IsRun(n, fds, states, steps) && k < |states| && AtRest(states[k])
    ensures multiset(Destroyed(n, states[k])) == multiset(fds)
  {
    EveryRunKeeps(n, fds, states, steps, k);
    DistinctAreASet(fds);
    DestroyedAtRest(n, states[k]);
  }

  lemma DestroyedAtRest(n: nat, s: State)
    requires Inv(n, s) && AtRest(s)
    ensures multiset(Destroyed(n, s)) == multiset(s.owned)
  {
    if s.running.Some? {
      NextKeeps(n, s, Finish);
    }
  }

  // ---- the scaler ----

  function Allocated(results: seq<Option<Fd>>): (fds: seq<Fd>)
    ensures |fds| <= |results|
  {
    if results == [] || results[0] == None then [] else [results[0].value] + Allocated(results[1..])
  }

  /** The buffers allocated before the first failure, and all of them when there is none. */
  lemma {:induction false} AllocatedBeforeFailure(results: seq<Option<Fd>>)
    ensures var fds := Allocated(results);
            && (forall i | 0 <= i < |fds| :: results[i] == Some(fds[i]))
            && (|fds| < |results| ==> results[|fds|] == None)
  {
    if results != [] && results[0] != None {
      AllocatedBeforeFailure(results[1..]);
      assert forall i | 0 < i < |results| :: results[i] == results[1..][i - 1];
    }
  }

  /** EmplaceBuffer without interruption. */
  function AfterEmplace(n: nat, s: State, ok: bool): State {
    var s1 := Next(n, s, Pop);
    if s.free == [] then s1
    else
      var fd := s.free[0];
      var s2 := Next(n, s1, Transform(fd, ok));
      if ok then Next(n, s2, PushTask(fd)) else Next(n, s2, PushBack(fd))
  }

  class JetsonScaler {
    const numBuffer: nat
    const freeBuffers: ThreadSafeQueue<Fd>
    const capturingTasks: ThreadSafeQueue<Fd>
    var aborted: bool
    var running: Option<Fd>
    ghost var world: State

    constructor (numBuffer: nat)
      ensures Valid() && this.numBuffer == numBuffer && world == Initialized([]) && !aborted
      ensures fresh(freeBuffers) && fresh(capturingTasks)
    {
      this.numBuffer := numBuffer;
      freeBuffers := new ThreadSafeQueue(numBuffer);
      capturingTasks := new ThreadSafeQueue(numBuffer);
      aborted, running := false, None;
      world := Initialized([]);
    }

    ghost predicate Valid()
      reads this, freeBuffers, capturingTasks
    {
      && freeBuffers != capturingTasks && freeBuffers.maxSize == capturingTasks.maxSize == numBuffer
      && freeBuffers.queue == world.free && capturingTasks.queue == world.tasks && running == world.running
    }

    /** `results` are the outcomes of the allocations, up to the first that fails. */
    method Initialize(results: seq<Option<Fd>>) returns (ok: bool)
      requires Valid() && world == Initialized([]) && |results| == numBuffer
      modifies this`world, freeBuffers
      ensures Valid() && world == Initialized(Allocated(results))
      ensures ok <==> |Allocated(results)| == numBuffer
    {
      var i := 0;
      ghost var all := Allocated(results);
      assert results[0..] == results;
      while i < numBuffer
        invariant 0 <= i <= numBuffer && Valid()
        invariant |world.free| == i && world == Initialized(world.free) && all == world.free + Allocated(results[i..])
      {
        if results[i] == None {
          return false;
        }
        assert results[i..][1..] == results[i + 1..];
        var _ := freeBuffers.Push(results[i].value);
        world := Initialized(world.free + [results[i].value]);
        i := i + 1;
      }
      ok := true;
    }

    /** `ok`: whether the transform succeeds. */
    method EmplaceBuffer(ok: bool)
      requires Valid()
      modifies this`world, freeBuffers, capturingTasks
      ensures Valid() && world == if aborted then old(world) else AfterEmplace(numBuffer, old(world), ok)
    {
      if aborted {
        return;
      }
      var item := freeBuffers.Pop();
      world := Next(numBuffer, world, Pop);
      if item == None {
        return;
      }
      world := Next(numBuffer, world, Transform(item.value, ok));
      if !ok {
        var _ := freeBuffers.Push(item.value);
        world := Next(numBuffer, world, PushBack(item.value));
        return;
      }
      var _ := capturingTasks.Push(item.value);
      world := Next(numBuffer, world, PushTask(item.value));
    }

    /** Starts the callback of the first task. */
    method CaptureBuffer()
      requires Valid() && running == None
      modifies this`world, this`running, capturingTasks
      ensures Valid() && world == Next(numBuffer, old(world), PopTask)
    {
      running := capturingTasks.Pop();
      world := Next(numBuffer, world, PopTask);
    }

    method FinishCallback()
      requires Valid() && running.Some?
      modifies this`world, this`running, freeBuffers
      ensures Valid() && world == Next(numBuffer, old(world), Finish)
    {
      var _ := freeBuffers.Push(running.value);
      world := Next(numBuffer, world, Finish);
      running := None;
    }

    /** The destructor: joins the worker, moves the waiting fds to the free queue and destroys what is there. */
    method Destroy() returns (destroyed: seq<Fd>)
      requires Valid() && Inv(numBuffer, world)
      modifies this, freeBuffers, capturingTasks
      ensures destroyed == Destroyed(numBuffer, old(world))
    {
      aborted := true;
      if running.Some? {
        NextKeeps(numBuffer, world, Finish);
        FinishCallback();
      }
      Sizes(world);
      assert |Destroyed(numBuffer, old(world))| <= numBuffer;
      ReturnTasks();
      destroyed := DestroyFree();
    }

    method ReturnTasks()
      requires freeBuffers != capturingTasks
      requires |freeBuffers.queue| + |capturingTasks.queue| <= numBuffer == freeBuffers.maxSize
      modifies freeBuffers, capturingTasks
      ensures freeBuffers.queue == old(freeBuffers.queue) + old(capturingTasks.queue)
    {
      ghost var all := freeBuffers.queue + capturingTasks.queue;
      while |capturingTasks.queue| > 0
        invariant freeBuffers.queue + capturingTasks.queue == all
        decreases |capturingTasks.queue|
      {
        var task := capturingTasks.Pop();
        var _ := freeBuffers.Push(task.value);
      }
    }

    method DestroyFree() returns (destroyed: seq<Fd>)
      modifies freeBuffers
      ensures destroyed == old(freeBuffers.queue)
    {
      ghost var all := freeBuffers.queue;
      destroyed := [];
      while |freeBuffers.queue| > 0
        invariant destroyed + freeBuffers.queue == all
        decreases |freeBuffers.queue|
      {
        var item := freeBuffers.Pop();
        destroyed := destroyed + [item.value];
      }
    }
  }
}
