/** In which order the stages of a connection attempt follow each other, over every run of the signalling service.

    What is under way says which stages have succeeded before it: nothing is skipped, repeated or reordered, and where
    TLS is configured no WebSocket handshake begins without it. */
module ConnectionStages {
  import opened WebsocketService

  /** The stages of an attempt, in order. */
  function Plan(c: Config): seq<Op> {
    (if c.auto then [DiscoveryReceive] else []) + [Resolve, TcpConnect] +
    (if c.useTls then [TlsHandshake] else []) + [WsHandshake, Read]
  }

  /** The stages that have succeeded since the last attempt began: when the service was started or its timer fired. */
  function Done(steps: seq<Step>): seq<Op> {
    if steps == [] then []
    else
      var before, step := Done(steps[..|steps| - 1]), steps[|steps| - 1];
      if step.TimerFires? then []
      else if Succeeds(step) then before + [step.op]
      else before
  }

  /** A stage other than reading succeeds on the current attempt; discovery succeeds with a beacon. */
  predicate Succeeds(step: Step) {
    step.Complete? && !step.torn &&
    match step.op
    case DiscoveryReceive => step.outcome == Beacon
    case Resolve => step.outcome != Error
    case TcpConnect => step.outcome != Error
    case TlsHandshake => step.outcome != Error
    case WsHandshake => step.outcome != Error
    case Read => false
    case Write => false
    case PeerFailure => false
  }

  predicate IsStage(op: Op) {
    op != Write && op != PeerFailure
  }

  function Stages(m: multiset<Op>): nat {
    m[DiscoveryReceive] + Attempts(m) + m[Read]
  }

  /** At most one stage is under way, none when the timer is armed, and the stages before it are done. */
  ghost predicate InOrder(c: Config, s: State, done: seq<Op>) {
    && Stages(s.live) <= 1 && (s.timerArmed ==> s.live == multiset{})
    && Attempts(s.stale) == 0 && s.stale[DiscoveryReceive] == 0
    && forall op | op in s.live && IsStage(op) :: done + [op] <= Plan(c)
  }

  lemma NextStage(c: Config, done: seq<Op>, op: Op)
    requires done + [op] <= Plan(c)
    ensures |done| < |Plan(c)| && op == Plan(c)[|done|] && done == Plan(c)[..|done|]
  {
    assert (done + [op])[|done|] == op;
    assert (done + [op])[..|done|] == done;
  }

  lemma PlanStep(c: Config, done: seq<Op>, op: Op, next: Op)
    requires done + [op] <= Plan(c)
    requires op == DiscoveryReceive ==> next == Resolve
    requires op == Resolve ==> next == TcpConnect
    requires op == TcpConnect ==> next == if c.useTls then TlsHandshake else WsHandshake
    requires op == TlsHandshake ==> next == WsHandshake
    requires op == WsHandshake ==> next == Read
    requires op != Read && IsStage(op)
    ensures done + [op] + [next] <= Plan(c)
  {
    NextStage(c, done, op);
    var p, n := Plan(c), |done|;
    assert p[n] == op;
    assert n + 1 < |p| && p[n + 1] == next;
    assert done + [op] + [next] == p[..n + 2];
  }

  /** A failure begins no stage. */
  lemma FailureKeepsOrder(c: Config, s: State, done: seq<Op>, spread: int)
    requires InOrder(c, s, done) && Attempts(s.live) == 0 && s.live[DiscoveryReceive] == 0
    ensures InOrder(c, AfterFailure(s, spread), done)
  {
    hide DelayMs;
  }

  lemma ConnectCallKeepsOrder(c: Config, s: State, setupOk: bool, spread: int)
    requires InOrder(c, s, []) && s.live == multiset{} && !s.timerArmed
    ensures InOrder(c, AfterConnectCall(c, s, setupOk, spread), [])
  {
    hide AfterFailure;
    assert [] + [Resolve] == [Resolve] && [] + [DiscoveryReceive] == [DiscoveryReceive];
    FailureKeepsOrder(c, s.(entries := s.entries + 1), [], spread);
  }

  lemma WithoutOp(s: State, op: Op)
    requires op in s.live && Stages(s.live) <= 1 && IsStage(op)
    ensures var m := s.live - multiset{op}; Stages(m) == 0 && forall o | o in m :: !IsStage(o)
  {
    var m := s.live - multiset{op};
    assert m[op] == s.live[op] - 1;
    assert Stages(m) == 0;
    forall o | o in m ensures !IsStage(o) {
      assert m[o] > 0;
    }
  }

  /** A stage hands over to the next one. */
  lemma HandOverKeepsOrder(c: Config, s: State, done: seq<Op>, op: Op, next: Op, t: State)
    requires InOrder(c, s, done) && op in s.live && IsStage(op) && IsStage(next)
    requires done + [op] + [next] <= Plan(c)
    requires t.live == s.live - multiset{op} + multiset{next} && t.stale == s.stale && !t.timerArmed
    ensures InOrder(c, t, done + [op])
  {
    WithoutOp(s, op);
    hide Plan;
  }

  /** A stage ends the attempt, or is all that was under way. */
  lemma EndKeepsOrder(c: Config, s: State, done: seq<Op>, op: Op, t: State, done': seq<Op>)
    requires InOrder(c, s, done) && op in s.live && IsStage(op)
    requires t.live == s.live - multiset{op} && t.stale == s.stale && !t.timerArmed
    ensures InOrder(c, t, done')
  {
    WithoutOp(s, op);
    hide Plan;
  }

  lemma LiveStageKeepsOrder(c: Config, s: State, done: seq<Op>, op: Op, o: Outcome, spread: int)
    requires Inv(s) && InOrder(c, s, done) && op in s.live && IsStage(op) && op != Read && op != DiscoveryReceive
    ensures InOrder(c, Next(c, s, Complete(op, false, o, spread)), if o == Error then done else done + [op])
  {
    hide Inv, AfterFailure, Plan, InOrder, Begin;
    if o == Error {
      FailedStageKeepsOrder(c, s, done, op, spread);
    } else {
      StageFacts(c, s, done, op);
      var next := if op == Resolve then TcpConnect
                  else if op == TcpConnect && c.useTls then TlsHandshake
                  else if op == WsHandshake then Read else WsHandshake;
      PlanStep(c, done, op, next);
      StageHandsOver(c, s, op, next, o, spread);
      HandOverKeepsOrder(c, s, done, op, next, Next(c, s, Complete(op, false, o, spread)));
    }
  }

  lemma StageHandsOver(c: Config, s: State, op: Op, next: Op, o: Outcome, spread: int)
    requires op in s.live && IsStage(op) && op != Read && op != DiscoveryReceive && o != Error
    requires next == if op == Resolve then TcpConnect
                     else if op == TcpConnect && c.useTls then TlsHandshake
                     else if op == WsHandshake then Read else WsHandshake
    ensures var t := Next(c, s, Complete(op, false, o, spread));
            t.live == s.live - multiset{op} + multiset{next} && t.stale == s.stale && t.timerArmed == s.timerArmed
  {
  }

  lemma FailedStageKeepsOrder(c: Config, s: State, done: seq<Op>, op: Op, spread: int)
    requires InOrder(c, s, done) && op in s.live && IsStage(op)
    ensures InOrder(c, AfterFailure(s.(live := s.live - multiset{op}), spread), done)
  {
    hide AfterFailure, Plan, InOrder;
    StageFacts(c, s, done, op);
    var s1 := s.(live := s.live - multiset{op});
    EndKeepsOrder(c, s, done, op, s1, done);
    WithoutOp(s, op);
    FailureKeepsOrder(c, s1, done, spread);
  }

  lemma StageFacts(c: Config, s: State, done: seq<Op>, op: Op)
    requires InOrder(c, s, done) && op in s.live && IsStage(op)
    ensures done + [op] <= Plan(c) && Stages(s.live) <= 1 && !s.timerArmed
  {
  }

  lemma DiscoveryKeepsOrder(c: Config, s: State, done: seq<Op>, o: Outcome, spread: int)
    requires InOrder(c, s, done) && DiscoveryReceive in s.live
    ensures InOrder(c, Next(c, s, Complete(DiscoveryReceive, false, o, spread)),
                    if o == Beacon then done + [DiscoveryReceive] else done)
  {
    hide Plan, InOrder;
    StageFacts(c, s, done, DiscoveryReceive);
    var t := Next(c, s, Complete(DiscoveryReceive, false, o, spread));
    if !s.discoveryActive {
      EndKeepsOrder(c, s, done, DiscoveryReceive, t, if o == Beacon then done + [DiscoveryReceive] else done);
    } else if o == Beacon {
      PlanStep(c, done, DiscoveryReceive, Resolve);
      HandOverKeepsOrder(c, s, done, DiscoveryReceive, Resolve, t);
    } else {
      StaleFacts(c, s, done);
      assert t.live == s.live;
      SameLive(c, s, done, t);
    }
  }

  lemma SameLive(c: Config, s: State, done: seq<Op>, t: State)
    requires InOrder(c, s, done) && t.live == s.live && (t.timerArmed ==> s.timerArmed)
    requires Attempts(t.stale) == 0 && t.stale[DiscoveryReceive] == 0
    ensures InOrder(c, t, done)
  {
    hide Plan;
  }

  lemma StaleFacts(c: Config, s: State, done: seq<Op>)
    requires InOrder(c, s, done)
    ensures Attempts(s.stale) == 0 && s.stale[DiscoveryReceive] == 0
  {
  }

  lemma ReadKeepsOrder(c: Config, s: State, done: seq<Op>, o: Outcome, spread: int)
    requires InOrder(c, s, done) && Read in s.live
    ensures InOrder(c, Next(c, s, Complete(Read, false, o, spread)), done)
  {
    hide Plan, AfterFailure;
    StageFacts(c, s, done, Read);
    WithoutOp(s, Read);
    var s1 := s.(live := s.live - multiset{Read});
    assert s1.live + multiset{Read} == s.live;
    FailureKeepsOrder(c, s1, done, spread);
  }

  /** A write completes, or a peer's failure is handled. */
  lemma SideKeepsOrder(c: Config, s: State, done: seq<Op>, op: Op, o: Outcome, spread: int)
    requires Inv(s) && InOrder(c, s, done) && op in s.live && !IsStage(op)
    ensures InOrder(c, Next(c, s, Complete(op, false, o, spread)), done)
  {
    hide Plan, LogKept, AfterFailure, Inv;
    SideRunsBesideRead(s, op);
    var s1 := s.(live := s.live - multiset{op});
    WithoutSide(c, s, done, op);
    if s.stopping {
      assert AfterFailure(s1, spread) == s1 by { StoppedFailure(s1, spread); }
    } else {
      FailureKeepsOrder(c, s1, done, spread);
    }
  }

  lemma StoppedFailure(s: State, spread: int)
    requires s.stopping
    ensures AfterFailure(s, spread) == s
  {
  }

  lemma WithoutSide(c: Config, s: State, done: seq<Op>, op: Op)
    requires InOrder(c, s, done) && op in s.live && !IsStage(op) && !s.timerArmed
    ensures InOrder(c, s.(live := s.live - multiset{op}), done)
  {
    hide Plan;
    var m := s.live - multiset{op};
    assert forall x | x in m :: x in s.live;
    assert forall x | IsStage(x) :: m[x] == s.live[x];
    assert Stages(m) == Stages(s.live);
  }

  /** A session's operations run beside its read, or after a disconnect. */
  lemma SideRunsBesideRead(s: State, op: Op)
    requires Inv(s) && op in s.live && !IsStage(op)
    ensures !s.stopping ==> s.live[Read] == 1 && Attempts(s.live) == 0 && s.live[DiscoveryReceive] == 0
    ensures !s.timerArmed
  {
    hide LogKept;
  }

  lemma StaleFailureIsIgnored(s: State, op: Op, spread: int)
    requires Inv(s) && op in s.stale
    ensures AfterFailure(s.(stale := s.stale - multiset{op}), spread) == s.(stale := s.stale - multiset{op})
  {
    hide LogKept, AfterSchedule;
    assert s.stale != multiset{};
  }

  /** What is left of a session that was torn down begins nothing on the current one. */
  lemma StaleKeepsOrder(c: Config, s: State, done: seq<Op>, op: Op, o: Outcome, spread: int)
    requires Inv(s) && InOrder(c, s, done) && op in s.stale
    ensures InOrder(c, Next(c, s, Complete(op, true, o, spread)), done)
  {
    hide Plan, AfterFailure, InOrder, Inv;
    StaleFacts(c, s, done);
    StaleFailureIsIgnored(s, op, spread);
    StaleCompletionIsStale(c, s.(stale := s.stale - multiset{op}), op, o, spread);
    SameLive(c, s, done, Next(c, s, Complete(op, true, o, spread)));
  }

  lemma StaleCompletionIsStale(c: Config, s: State, op: Op, o: Outcome, spread: int)
    requires op == Read || !IsStage(op)
    requires Attempts(s.stale) == 0 && s.stale[DiscoveryReceive] == 0 && AfterFailure(s, spread) == s
    ensures var t := AfterCompletion(c, s, op, true, o, spread);
            t.live == s.live && (t.timerArmed ==> s.timerArmed) && Attempts(t.stale) == 0 &&
            t.stale[DiscoveryReceive] == 0
  {
    hide AfterFailure;
  }

  lemma NextKeepsOrder(c: Config, s: State, done: seq<Op>, step: Step)
    requires Inv(s) && InOrder(c, s, done) && Enabled(s, step)
    ensures InOrder(c, Next(c, s, step),
                    if step.TimerFires? then [] else if Succeeds(step) then done + [step.op] else done)
  {
    hide Plan, Inv, Next;
    match step
    case Complete(op, torn, o, spread) =>
      if torn {
        StaleKeepsOrder(c, s, done, op, o, spread);
      } else if op == DiscoveryReceive {
        DiscoveryKeepsOrder(c, s, done, o, spread);
      } else if op == Read {
        ReadKeepsOrder(c, s, done, o, spread);
      } else if IsStage(op) {
        LiveStageKeepsOrder(c, s, done, op, o, spread);
      } else {
        SideKeepsOrder(c, s, done, op, o, spread);
      }
    case TimerFires(setupOk, spread) => TimerKeepsOrder(c, s, done, setupOk, spread);
    case StartOp(op) => StartKeepsOrder(c, s, done, op);
    case Disconnect => DisconnectKeepsOrder(c, s, done);
  }

  lemma TimerKeepsOrder(c: Config, s: State, done: seq<Op>, setupOk: bool, spread: int)
    requires InOrder(c, s, done) && s.timerArmed
    ensures InOrder(c, Next(c, s, TimerFires(setupOk, spread)), [])
  {
    hide Plan, AfterConnectCall;
    ConnectCallKeepsOrder(c, s.(timerArmed := false, reconnecting := false), setupOk, spread);
  }

  lemma StartKeepsOrder(c: Config, s: State, done: seq<Op>, op: Op)
    requires InOrder(c, s, done) && Enabled(s, StartOp(op))
    ensures InOrder(c, Next(c, s, StartOp(op)), done)
  {
    hide Plan;
    var m := s.live + multiset{op};
    assert forall x | x in m && IsStage(x) :: x in s.live;
    assert Stages(m) == Stages(s.live);
  }

  lemma DisconnectKeepsOrder(c: Config, s: State, done: seq<Op>)
    requires InOrder(c, s, done)
    ensures InOrder(c, Next(c, s, Disconnect), done)
  {
    hide Plan;
  }

  lemma {:induction false} EveryRunKeepsOrder(c: Config, states: seq<State>, steps: seq<Step>, n: nat)
    requires IsRun(c, states, steps) && n < |states|
    ensures InOrder(c, states[n], Done(steps[..n]))
    decreases n
  {
    hide InOrder, Next, Enabled;
    if n == 0 {
      var setupOk, spread :| ValidSpread(spread) && states[0] == AfterConnectCall(c, FRESH, setupOk, spread);
      FreshIsInOrder(c);
      ConnectCallKeepsOrder(c, FRESH, setupOk, spread);
    } else {
      EveryRunKeepsOrder(c, states, steps, n - 1);
      EveryRunKeeps(c, states, steps, n - 1);
      StepFacts(c, states, steps, n - 1);
      NextKeepsOrder(c, states[n - 1], Done(steps[..n - 1]), steps[n - 1]);
      assert steps[..n][..n - 1] == steps[..n - 1];
    }
  }

  lemma FreshIsInOrder(c: Config)
    ensures InOrder(c, FRESH, [])
  {
  }

  /** In every run and at every moment: a stage is under way only when exactly the stages before it in the plan of the
      configuration have succeeded, in this order, since the attempt began. */
  lemma StagesInOrder(c: Config, states: seq<State>, steps: seq<Step>, n: nat, op: Op)
    requires IsRun(c, states, steps) && n < |states| && op in states[n].live && IsStage(op)
    ensures Done(steps[..n]) + [op] <= Plan(c)
  {
    EveryRunKeepsOrder(c, states, steps, n);
  }

  /** With TLS no WebSocket handshake and no reading without a TLS handshake that succeeded after the connection was
      made; without TLS none is begun; and no reading without a WebSocket handshake. */
  ghost predicate Shaken(c: Config, done: seq<Op>, live: multiset<Op>) {
    && (c.useTls && (WsHandshake in live || Read in live) ==>
          exists i, j :: 0 <= i < j < |done| && done[i] == TcpConnect && done[j] == TlsHandshake)
    && (!c.useTls ==> TlsHandshake !in live)
    && (Read in live ==> done != [] && done[|done| - 1] == WsHandshake)
    && (!c.auto ==> DiscoveryReceive !in live)
  }

  lemma NoSessionWithoutHandshakes(c: Config, states: seq<State>, steps: seq<Step>, n: nat)
    requires IsRun(c, states, steps) && n < |states|
    ensures Shaken(c, Done(steps[..n]), states[n].live)
  {
    EveryRunKeepsOrder(c, states, steps, n);
    OrderMeans(c, states[n], Done(steps[..n]));
  }

  lemma OrderMeans(c: Config, s: State, done: seq<Op>)
    requires InOrder(c, s, done)
    ensures Shaken(c, done, s.live)
  {
    PlanMeans(c, done);
    hide Plan;
  }

  /** What the plan says about how far an attempt has come. */
  lemma PlanMeans(c: Config, done: seq<Op>)
    ensures c.useTls && (done + [WsHandshake] <= Plan(c) || done + [Read] <= Plan(c)) ==>
              exists i, j :: 0 <= i < j < |done| && done[i] == TcpConnect && done[j] == TlsHandshake
    ensures !c.useTls ==> !(done + [TlsHandshake] <= Plan(c))
    ensures done + [Read] <= Plan(c) ==> done != [] && done[|done| - 1] == WsHandshake
    ensures !c.auto ==> !(done + [DiscoveryReceive] <= Plan(c))
  {
    var p, k := Plan(c), if c.auto then 1 else 0;
    forall op | done + [op] <= p ensures |done| < |p| && op == p[|done|] && done == p[..|done|] {
      NextStage(c, done, op);
    }
    assert p[k] == Resolve && p[k + 1] == TcpConnect;
    if c.useTls && (done + [WsHandshake] <= p || done + [Read] <= p) {
      assert p[k + 2] == TlsHandshake;
      assert k + 2 < |done|;
      assert done[k + 1] == TcpConnect && done[k + 2] == TlsHandshake;
    }
  }

  // ---- failures and what is logged ----

  /** Whatever fails on a live session or attempt, a write or a peer too, leads to a reconnect unless the service is
      stopping; a failing receive of discovery does not. */
  lemma FailureArmsTimer(c: Config, s: State, op: Op, o: Outcome, spread: int)
    requires Inv(s) && !s.stopping && Enabled(s, Complete(op, false, o, spread)) && op != DiscoveryReceive
    requires o == Error || op == PeerFailure
    ensures var t := Next(c, s, Complete(op, false, o, spread));
            t.timerArmed && t.live == multiset{} && t.attempts == s.attempts + 1
  {
    hide LogKept, DelayMs;
  }

  ghost predicate DelayLogged(before: seq<Mark>, after: seq<Mark>) {
    exists delay :: after == before + [Scheduled(delay)]
  }

  /** A handshake that succeeds is logged, and a delay whenever the timer is armed anew; nothing else is. */
  ghost predicate LogTells(s: State, step: Step, t: State) {
    if step.Complete? && step.op == WsHandshake && step.outcome != Error then t.log == s.log + [Connected]
    else if t.timerArmed && (!s.timerArmed || step.TimerFires?) then DelayLogged(s.log, t.log)
    else t.log == s.log
  }

  lemma LogTellsWhatHappened(c: Config, s: State, step: Step)
    requires Inv(s) && Enabled(s, step)
    ensures LogTells(s, step, Next(c, s, step))
  {
    ArmedTimer(s);
    hide Inv, AfterFailure, AfterCompletion, AfterConnectCall, DelayLogged;
    match step
    case Complete(op, torn, o, spread) =>
      CompletionLogs(c, if torn then s.(stale := s.stale - multiset{op}) else s.(live := s.live - multiset{op}),
                     op, torn, o, spread);
    case TimerFires(setupOk, spread) =>
      ConnectLogs(c, s.(timerArmed := false, reconnecting := false), setupOk, spread);
    case StartOp(_) =>
    case Disconnect =>
  }

  lemma ArmedTimer(s: State)
    requires Inv(s)
    ensures s.timerArmed ==> s.reconnecting && !s.stopping
  {
    hide LogKept;
  }

  lemma FailureLogs(s: State, spread: int)
    requires s.timerArmed ==> s.reconnecting
    ensures var t := AfterFailure(s, spread); t == s || (t.timerArmed && !s.timerArmed && DelayLogged(s.log, t.log))
  {
  }

  lemma CompletionLogs(c: Config, s: State, op: Op, torn: bool, o: Outcome, spread: int)
    requires s.timerArmed ==> s.reconnecting
    ensures var t := AfterCompletion(c, s, op, torn, o, spread);
            if op == WsHandshake && o != Error then t.log == s.log + [Connected]
            else if t.timerArmed && !s.timerArmed then DelayLogged(s.log, t.log)
            else t.log == s.log
  {
    FailureLogs(s, spread);
    hide AfterFailure, DelayLogged;
  }

  lemma ConnectLogs(c: Config, s: State, setupOk: bool, spread: int)
    requires !s.timerArmed
    ensures var t := AfterConnectCall(c, s, setupOk, spread);
            if t.timerArmed then DelayLogged(s.log, t.log) else t.log == s.log
  {
    FailureLogs(s.(entries := s.entries + 1), spread);
    hide AfterFailure, DelayLogged;
  }

  /** Reading goes on exactly as long as the stream is open: a read that brought a message is followed by another,
      unless the stream is closed by then. */
  lemma ReadingGoesOnWhileOpen(c: Config, s: State, torn: bool, o: Outcome, spread: int)
    requires Enabled(s, Complete(Read, torn, o, spread)) && o != Error
    ensures var t := Next(c, s, Complete(Read, torn, o, spread));
            if o == NotOpen || o == Leave(false) then
              t.live + t.stale == s.live + s.stale - multiset{Read}
            else t.live == s.live && t.stale == s.stale
  {
    if torn {
      assert s.stale - multiset{Read} + multiset{Read} == s.stale;
    } else {
      assert s.live - multiset{Read} + multiset{Read} == s.live;
    }
  }

  /** The delay is the backoff with `spread` per cent added. */
  lemma DelayIs(k: nat, spread: int)
    ensures DelayMs(k, spread) == 10 * (100 + spread) * BackoffSeconds(k)
  {
    assert Pow2(0) == 1 && Pow2(1) == 2 && Pow2(2) == 4 && Pow2(3) == 8;
    if k >= 3 {
      PowerGrows(3, k);
    }
  }
}
