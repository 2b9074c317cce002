/** The signalling connection: discovery, connection attempts, the session, and reconnecting with backoff.

    Completion handlers of asynchronous operations are the atomic steps. `live` holds the operations under way on
    the current session or attempt, `stale` those whose session has been torn down and that still have to
    complete. The environment is assumed to complete stale operations before the backoff timer fires, and a
    stream that has just been read successfully is assumed to be still open unless its session was torn down. */
module WebsocketService {

  datatype Op = DiscoveryReceive | Resolve | TcpConnect | TlsHandshake | WsHandshake | Read | Write | PeerFailure

  /** What happened on the wire, for the backoff. */
  datatype Mark = Connected | Scheduled(delayMs: int)

  datatype Config = Config(auto: bool, useTls: bool)

  datatype State = State(
    stopping: bool,
    reconnecting: bool,
    attempts: nat,
    discoveryActive: bool,
    timerArmed: bool,
    live: multiset<Op>,
    stale: multiset<Op>,
    entries: nat,                // how often Connect or ResolveAndConnect was entered
    log: seq<Mark>)

  const FRESH: State := State(false, false, 0, false, false, multiset{}, multiset{}, 0, [])

  // ---- backoff ----

  function Shift(attempts: nat): nat {
    if attempts < 3 then attempts else 3
  }

  function Pow2(k: nat): nat {
    if k == 0 then 1 else 2 * Pow2(k - 1)
  }

  /** (1000 << shift) * (100 + spread) / 100 */
  function DelayMs(attempts: nat, spread: int): int {
    1000 * Pow2(Shift(attempts)) * (100 + spread) / 100
  }

  predicate ValidSpread(spread: int) {
    -30 <= spread <= 30
  }

  /** Seconds to wait after k failures in a row. */
  function BackoffSeconds(k: nat): nat {
    if Pow2(k) < 8 then Pow2(k) else 8
  }

  lemma DelayWithinThirtyPercent(k: nat, spread: int)
    requires ValidSpread(spread)
    ensures 700 * BackoffSeconds(k) <= DelayMs(k, spread) <= 1300 * BackoffSeconds(k)
  {
    assert Pow2(0) == 1 && Pow2(1) == 2 && Pow2(2) == 4 && Pow2(3) == 8;
    if k >= 3 {
      PowerGrows(3, k);
    }
  }

  lemma {:induction false} PowerGrows(a: nat, b: nat)
    requires a <= b
    ensures Pow2(a) <= Pow2(b)
    decreases b
  {
    if a < b {
      PowerGrows(a, b - 1);
    }
  }

  // ---- handlers as functions ----

  /** Starts an operation; on a torn-down session it is stale from the beginning. */
  function Begin(s: State, op: Op, torn: bool): State {
    if torn then s.(stale := s.stale + multiset{op}) else s.(live := s.live + multiset{op})
  }

  function AfterSchedule(s: State, spread: int): State {
    s.(reconnecting := true, attempts := s.attempts + 1, timerArmed := true,
       live := multiset{}, stale := s.stale + s.live,
       log := s.log + [Scheduled(DelayMs(s.attempts, spread))])
  }

  function AfterFailure(s: State, spread: int): State {
    if s.stopping || s.reconnecting then s else AfterSchedule(s, spread)
  }

  function AfterResolveAndConnect(s: State): State {
    Begin(s.(entries := s.entries + 1), Resolve, false)
  }

  function AfterConnectCall(c: Config, s: State, setupOk: bool, spread: int): State {
    var s1 := s.(entries := s.entries + 1);
    if !c.auto then AfterResolveAndConnect(s1)
    else if s1.discoveryActive then s1
    else if !setupOk then AfterFailure(s1, spread)
    else Begin(s1.(discoveryActive := true), DiscoveryReceive, false)
  }

  function AfterDisconnect(s: State): State {
    s.(stopping := true, timerArmed := false, discoveryActive := false)
  }

  /** How an operation ended. */
  datatype Outcome =
    | Error
    | Ok
    | Beacon                     // a discovery datagram that names a server
    | Leave(open: bool)          // a message that asks to disconnect; whether the stream is open after that
    | NotOpen                    // read successfully, but the stream is no longer open

  /** Whether the next read is started. */
  predicate ReadsOn(o: Outcome) {
    o != NotOpen && (o.Leave? ==> o.open)
  }

  function AfterCompletion(c: Config, s: State, op: Op, torn: bool, o: Outcome, spread: int): State {
    match op
    case DiscoveryReceive =>
      if !s.discoveryActive then s
      else if o == Beacon then AfterResolveAndConnect(s.(discoveryActive := false))
      else Begin(s, DiscoveryReceive, torn)
    case Resolve => if o == Error then AfterFailure(s, spread) else Begin(s, TcpConnect, torn)
    case TcpConnect =>
      if o == Error then AfterFailure(s, spread) else Begin(s, if c.useTls then TlsHandshake else WsHandshake, torn)
    case TlsHandshake => if o == Error then AfterFailure(s, spread) else Begin(s, WsHandshake, torn)
    case WsHandshake =>
      if o == Error then AfterFailure(s, spread)
      else Begin(s.(reconnecting := false, attempts := 0, log := s.log + [Connected]), Read, torn)
    case Read =>
      if o == Error then AfterFailure(s, spread)
      else
        var s1 := if o.Leave? then AfterDisconnect(s) else s;
        if ReadsOn(o) then Begin(s1, Read, torn) else s1
    case Write => if o == Error then AfterFailure(s, spread) else s
    case PeerFailure => AfterFailure(s, spread)
  }

  // ---- the service ----

  class WebsocketService {
    const config: Config
    var stopping: bool
    var reconnecting: bool
    var reconnectAttempts: nat
    var discoveryActive: bool
    var timerArmed: bool
    ghost var live: multiset<Op>
    ghost var stale: multiset<Op>
    ghost var entries: nat
    ghost var log: seq<Mark>

    constructor (config: Config)
      ensures this.config == config && Abstract() == FRESH
    {
      this.config := config;
      stopping, reconnecting, reconnectAttempts, discoveryActive, timerArmed := false, false, 0, false, false;
      live, stale, entries, log := multiset{}, multiset{}, 0, [];
    }

    ghost function Abstract(): State
      reads this
    {
      State(stopping, reconnecting, reconnectAttempts, discoveryActive, timerArmed, live, stale, entries, log)
    }

    /** Hands an asynchronous operation to the io context. */
    ghost method Launch(op: Op, torn: bool)
      modifies this
      ensures Abstract() == Begin(old(Abstract()), op, torn)
    {
      if torn { stale := stale + multiset{op}; } else { live := live + multiset{op}; }
    }

    method Connect(setupOk: bool, spread: int)
      modifies this
      ensures Abstract() == AfterConnectCall(config, old(Abstract()), setupOk, spread)
    {
      hide AfterSchedule;
      entries := entries + 1;
      if config.auto {
        StartDiscovery(setupOk, spread);
        return;
      }
      ResolveAndConnect();
    }

    method ResolveAndConnect()
      modifies this
      ensures Abstract() == AfterResolveAndConnect(old(Abstract()))
    {
      entries := entries + 1;
      Launch(Resolve, false);
    }

    method StartDiscovery(setupOk: bool, spread: int)
      modifies this
      ensures var s := old(Abstract());
              Abstract() == if s.discoveryActive then s
                            else if !setupOk then AfterFailure(s, spread)
                            else Begin(s.(discoveryActive := true), DiscoveryReceive, false)
    {
      if discoveryActive { return; }
      if !setupOk {
        HandleFailure(spread);
        return;
      }
      discoveryActive := true;
      Launch(DiscoveryReceive, false);
    }

    method OnDiscoveryReceive(error: bool, beacon: bool, ghost torn: bool)
      modifies this
      ensures Abstract() == AfterCompletion(config, old(Abstract()), DiscoveryReceive, torn,
                                            if error then Error else if beacon then Beacon else Ok, 0)
    {
      if !discoveryActive { return; }
      if error {
        Launch(DiscoveryReceive, torn);
        return;
      }
      if beacon {
        discoveryActive := false;
        ResolveAndConnect();
        return;
      }
      Launch(DiscoveryReceive, torn);
    }

    method Disconnect()
      modifies this
      ensures Abstract() == AfterDisconnect(old(Abstract()))
    {
      stopping := true;
      timerArmed := false;
      if discoveryActive { discoveryActive := false; }
    }

    method HandleFailure(spread: int)
      modifies this
      ensures Abstract() == AfterFailure(old(Abstract()), spread)
    {
      if stopping { return; }
      if reconnecting { return; }
      ScheduleReconnect(spread);
    }

    /** Tears the session down and arms the timer. */
    method ScheduleReconnect(spread: int)
      modifies this
      ensures old(stopping) ==> Abstract() == old(Abstract())
      ensures !old(stopping) ==> Abstract() == AfterSchedule(old(Abstract()), spread)
    {
      hide DelayMs, Pow2;
      if stopping { return; }
      reconnecting := true;
      TearDown();
      var delayMs := ChooseDelay(spread);
      reconnectAttempts := reconnectAttempts + 1;
      log := log + [Scheduled(delayMs)];
      timerArmed := true;
    }

    /** Closes the stream: everything under way is left to complete with an error. */
    ghost method TearDown()
      modifies this`live, this`stale
      ensures live == multiset{} && stale == old(stale) + old(live)
    {
      live, stale := multiset{}, stale + live;
    }

    method ChooseDelay(spread: int) returns (delayMs: int)
      ensures delayMs == DelayMs(reconnectAttempts, spread)
    {
      var shift := if reconnectAttempts < 3 then reconnectAttempts else 3;
      delayMs := 1000 * Pow2(shift) * (100 + spread) / 100;
    }

    method OnReconnectTimer(setupOk: bool, spread: int)
      requires timerArmed
      modifies this
      ensures Abstract() == Next(config, old(Abstract()), TimerFires(setupOk, spread))
    {
      timerArmed := false;
      if stopping { return; }
      reconnecting := false;
      Connect(setupOk, spread);
    }

    method OnResolve(error: bool, ghost torn: bool, spread: int)
      modifies this
      ensures Abstract() == AfterCompletion(config, old(Abstract()), Resolve, torn, if error then Error else Ok, spread)
    {
      if error {
        HandleFailure(spread);
        return;
      }
      Launch(TcpConnect, torn);
    }

    /** `error` also when the name expected of the TLS peer cannot be set. */
    method OnConnect(error: bool, ghost torn: bool, spread: int)
      modifies this
      ensures Abstract() == AfterCompletion(config, old(Abstract()), TcpConnect, torn,
                                            if error then Error else Ok, spread)
    {
      if error {
        HandleFailure(spread);
        return;
      }
      Launch(if config.useTls then TlsHandshake else WsHandshake, torn);
    }

    method OnTlsHandshake(error: bool, ghost torn: bool, spread: int)
      modifies this
      ensures Abstract() == AfterCompletion(config, old(Abstract()), TlsHandshake, torn,
                                            if error then Error else Ok, spread)
    {
      if error {
        HandleFailure(spread);
        return;
      }
      Launch(WsHandshake, torn);
    }

    method OnHandshake(error: bool, ghost torn: bool, spread: int)
      modifies this
      ensures Abstract() == AfterCompletion(config, old(Abstract()), WsHandshake, torn,
                                            if error then Error else Ok, spread)
    {
      hide AfterFailure, Begin;
      if error {
        HandleFailure(spread);
        return;
      }
      reconnecting := false;
      reconnectAttempts := 0;
      log := log + [Connected];
      StartRead(true, torn);
    }

    method StartRead(open: bool, ghost torn: bool)
      modifies this
      ensures Abstract() == if open then Begin(old(Abstract()), Read, torn) else old(Abstract())
    {
      if !open { return; }
      Launch(Read, torn);
    }

    /** `leave`: the message asks to disconnect; `open`: the stream is open after it has been handled. */
    method OnRead(error: bool, leave: bool, open: bool, ghost torn: bool, spread: int)
      modifies this
      ensures Abstract() == AfterCompletion(config, old(Abstract()), Read, torn,
                                            if error then Error
                                            else if leave then Leave(open)
                                            else if !open then NotOpen else Ok, spread)
    {
      if error {
        HandleFailure(spread);
        return;
      }
      if leave { Disconnect(); }
      StartRead(open, torn);
    }

    method OnWrite(error: bool, ghost torn: bool, spread: int)
      modifies this
      ensures Abstract() == AfterCompletion(config, old(Abstract()), Write, torn, if error then Error else Ok, spread)
    {
      if error {
        HandleFailure(spread);
      }
    }
  }

  datatype Step =
    | Complete(op: Op, torn: bool, outcome: Outcome, spread: int)
    | TimerFires(setupOk: bool, spread: int)
    | StartOp(op: Op)            // a write begins, or a failed publisher peer posts its failure
    | Disconnect

  /** The steps the environment may take. */
  predicate Enabled(s: State, step: Step) {
    match step
    case Complete(op, torn, o, spread) =>
      ValidSpread(spread) && op in (if torn then s.stale else s.live) &&
      (o == NotOpen ==> op == Read && (torn || s.stopping))
    case TimerFires(_, spread) => ValidSpread(spread) && s.timerArmed && s.stale == multiset{}
    case StartOp(op) => (op == Write || op == PeerFailure) && Read in s.live
    case Disconnect => true
  }

  function Next(c: Config, s: State, step: Step): State {
    match step
    case Complete(op, torn, o, spread) =>
      AfterCompletion(c, if torn then s.(stale := s.stale - multiset{op}) else s.(live := s.live - multiset{op}),
                      op, torn, o, spread)
    case TimerFires(setupOk, spread) =>
      if s.stopping then s.(timerArmed := false)
      else AfterConnectCall(c, s.(timerArmed := false, reconnecting := false), setupOk, spread)
    case StartOp(op) => Begin(s, op, false)
    case Disconnect => AfterDisconnect(s)
  }

  /** A run from the first Connect on. */
  ghost predicate IsRun(c: Config, states: seq<State>, steps: seq<Step>) {
    && |states| == |steps| + 1
    && (exists setupOk, spread :: ValidSpread(spread) && states[0] == AfterConnectCall(c, FRESH, setupOk, spread))
    && (forall i | 0 <= i < |steps| :: Enabled(states[i], steps[i]) && states[i + 1] == Next(c, states[i], steps[i]))
  }

  // ---- exactly one thing is under way ----

  function Attempts(m: multiset<Op>): nat {
    m[Resolve] + m[TcpConnect] + m[TlsHandshake] + m[WsHandshake]
  }

  /** Discovery receives, connection attempts, live sessions and armed timers. */
  function Activities(s: State): nat {
    s.live[DiscoveryReceive] + Attempts(s.live) + s.live[Read] + (if s.timerArmed then 1 else 0)
  }

  ghost predicate Inv(s: State) {
    && (s.timerArmed ==> !s.stopping)
    && (s.discoveryActive ==> !s.stopping)
    && LogKept(s)
    && (!s.stopping ==>
          && Activities(s) == 1
          && (s.reconnecting <==> s.timerArmed)
          && (s.timerArmed ==> s.live == multiset{})
          && (s.discoveryActive <==> s.live[DiscoveryReceive] == 1)
          && ((Write in s.live || PeerFailure in s.live) ==> s.live[Read] == 1)
          && (!s.timerArmed ==> s.stale == multiset{})
          && s.stale[DiscoveryReceive] == 0 && Attempts(s.stale) == 0)
  }

  function ConsecutiveFailures(log: seq<Mark>): nat {
    if log == [] || log[|log| - 1] == Connected then 0 else 1 + ConsecutiveFailures(log[..|log| - 1])
  }

  /** Every delay is within 30% of min(2^k, 8) seconds, k being the failures in a row before it. */
  ghost predicate BackoffKept(log: seq<Mark>) {
    forall i | 0 <= i < |log| && log[i].Scheduled? ::
      var k := ConsecutiveFailures(log[..i]);
      700 * BackoffSeconds(k) <= log[i].delayMs <= 1300 * BackoffSeconds(k)
  }

  ghost predicate LogKept(s: State) {
    s.attempts == ConsecutiveFailures(s.log) && BackoffKept(s.log)
  }

  lemma SameLog(s: State, s': State)
    requires LogKept(s) && s'.attempts == s.attempts && s'.log == s.log
    ensures LogKept(s')
  {
  }

  lemma LogGrows(log: seq<Mark>, m: Mark)
    requires BackoffKept(log)
    requires m.Scheduled? ==> var k := ConsecutiveFailures(log);
                              700 * BackoffSeconds(k) <= m.delayMs <= 1300 * BackoffSeconds(k)
    ensures BackoffKept(log + [m])
    ensures ConsecutiveFailures(log + [m]) == if m == Connected then 0 else 1 + ConsecutiveFailures(log)
  {
    hide BackoffSeconds;
    var grown := log + [m];
    assert grown[..|log|] == log;
    forall i | 0 <= i < |grown| ensures grown[..i] == if i < |log| then log[..i] else log {
    }
  }

  lemma ScheduleKeepsLog(s: State, spread: int)
    requires ValidSpread(spread) && LogKept(s)
    ensures LogKept(AfterSchedule(s, spread))
  {
    DelayWithinThirtyPercent(s.attempts, spread);
    hide BackoffSeconds, DelayMs;
    LogGrows(s.log, Scheduled(DelayMs(s.attempts, spread)));
  }

  lemma FailureKeeps(s: State, spread: int)
    requires ValidSpread(spread) && LogKept(s)
    requires !s.timerArmed && !s.discoveryActive && !s.reconnecting && s.stale == multiset{}
    requires s.live[DiscoveryReceive] == 0 && Attempts(s.live) == 0
    ensures Inv(AfterFailure(s, spread))
  {
    hide LogKept, DelayMs;
    if !s.stopping {
      ScheduleKeepsLog(s, spread);
    }
  }

  lemma ConnectCallKeeps(c: Config, s: State, setupOk: bool, spread: int)
    requires ValidSpread(spread) && LogKept(s)
    requires !s.stopping && !s.timerArmed && !s.discoveryActive && !s.reconnecting
    requires s.live == multiset{} && s.stale == multiset{}
    ensures Inv(AfterConnectCall(c, s, setupOk, spread))
  {
    hide LogKept;
    var s1 := s.(entries := s.entries + 1);
    SameLog(s, s1);
    SameLog(s, AfterResolveAndConnect(s1));
    SameLog(s, Begin(s1.(discoveryActive := true), DiscoveryReceive, false));
    if c.auto && !setupOk {
      FailureKeeps(s1, spread);
    }
  }

  lemma StoppedCompletionKeeps(c: Config, s: State, op: Op, torn: bool, o: Outcome, spread: int)
    requires Inv(s) && s.stopping
    ensures var s' := AfterCompletion(c, s, op, torn, o, spread);
            Inv(s') && s'.stopping && s'.entries == s.entries
  {
    hide BackoffKept;
    if op == WsHandshake && o != Error {
      LogGrows(s.log, Connected);
    }
  }

  /** A completion of a torn-down session reschedules nothing. */
  lemma StaleCompletionKeeps(c: Config, s: State, op: Op, o: Outcome, spread: int)
    requires Inv(s) && !s.stopping && op in s.stale
    ensures Inv(Next(c, s, Complete(op, true, o, spread)))
  {
    hide LogKept, AfterSchedule;
    SameLog(s, Next(c, s, Complete(op, true, o, spread)));
  }

  lemma LiveFailureKeeps(c: Config, s: State, op: Op, spread: int)
    requires Inv(s) && !s.stopping && op in s.live && ValidSpread(spread) && op != DiscoveryReceive
    ensures Inv(AfterFailure(s.(live := s.live - multiset{op}), spread))
  {
    hide LogKept, AfterFailure;
    var s1 := s.(live := s.live - multiset{op});
    SameLog(s, s1);
    FailureKeeps(s1, spread);
  }

  /** One stage of a connection attempt hands over to the next. */
  lemma StageKeeps(s: State, op: Op, next: Op)
    requires Inv(s) && !s.stopping && op in s.live
    requires op in {Resolve, TcpConnect, TlsHandshake} && next in {TcpConnect, TlsHandshake, WsHandshake}
    ensures Inv(Begin(s.(live := s.live - multiset{op}), next, false))
  {
    hide LogKept;
    SameLog(s, Begin(s.(live := s.live - multiset{op}), next, false));
  }

  lemma LiveReadKeeps(s: State, o: Outcome)
    requires Inv(s) && !s.stopping && Read in s.live && o != NotOpen
    ensures var s1 := s.(live := s.live - multiset{Read});
            var s2 := if o.Leave? then AfterDisconnect(s1) else s1;
            Inv(if ReadsOn(o) then Begin(s2, Read, false) else s2)
  {
    hide LogKept;
    var s1 := s.(live := s.live - multiset{Read});
    SameLog(s, AfterDisconnect(s1));
    SameLog(s, Begin(AfterDisconnect(s1), Read, false));
    SameLog(s, Begin(s1, Read, false));
    assert Begin(s1, Read, false).live == s.live;
  }

  lemma LiveWriteKeeps(s: State)
    requires Inv(s) && !s.stopping && Write in s.live
    ensures Inv(s.(live := s.live - multiset{Write}))
  {
    hide LogKept;
    SameLog(s, s.(live := s.live - multiset{Write}));
  }

  lemma LiveCompletionKeeps(c: Config, s: State, op: Op, o: Outcome, spread: int)
    requires Inv(s) && !s.stopping && op in s.live && ValidSpread(spread) && (o == NotOpen ==> op != Read)
    ensures Inv(Next(c, s, Complete(op, false, o, spread)))
  {
    hide Inv, AfterFailure, Begin, AfterDisconnect;
    if op == DiscoveryReceive {
      DiscoveryCompletionKeeps(c, s, o, spread);
    } else if o == Error || op == PeerFailure {
      LiveFailureKeeps(c, s, op, spread);
    } else if op == WsHandshake {
      ConnectedKeeps(c, s, o, spread);
    } else if op == Read {
      LiveReadKeeps(s, o);
    } else if op == Write {
      LiveWriteKeeps(s);
    } else {
      StageKeeps(s, op, if op == Resolve then TcpConnect
                        else if op == TcpConnect && c.useTls then TlsHandshake else WsHandshake);
    }
  }

  lemma DiscoveryCompletionKeeps(c: Config, s: State, o: Outcome, spread: int)
    requires Inv(s) && !s.stopping && DiscoveryReceive in s.live
    ensures Inv(Next(c, s, Complete(DiscoveryReceive, false, o, spread)))
  {
    hide LogKept;
    SameLog(s, Next(c, s, Complete(DiscoveryReceive, false, o, spread)));
  }

  lemma ConnectedKeeps(c: Config, s: State, o: Outcome, spread: int)
    requires Inv(s) && !s.stopping && WsHandshake in s.live && o != Error
    ensures Inv(Next(c, s, Complete(WsHandshake, false, o, spread)))
  {
    LogGrows(s.log, Connected);
    hide BackoffKept, ConsecutiveFailures;
  }

  /** Every enabled step keeps the invariant, and a stopped service stays stopped and enters Connect no more. */
  lemma NextKeeps(c: Config, s: State, step: Step)
    requires Inv(s) && Enabled(s, step)
    ensures Inv(Next(c, s, step))
    ensures s.stopping ==> Next(c, s, step).stopping && Next(c, s, step).entries == s.entries
  {
    match step
    case Complete(op, torn, o, spread) =>
      hide LogKept;
      if s.stopping {
        var s1 := if torn then s.(stale := s.stale - multiset{op}) else s.(live := s.live - multiset{op});
        SameLog(s, s1);
        StoppedCompletionKeeps(c, s1, op, torn, o, spread);
      } else if torn {
        StaleCompletionKeeps(c, s, op, o, spread);
      } else {
        LiveCompletionKeeps(c, s, op, o, spread);
      }
    case TimerFires(setupOk, spread) =>
      hide LogKept;
      var s1 := s.(timerArmed := false, reconnecting := false);
      SameLog(s, s1);
      ConnectCallKeeps(c, s1, setupOk, spread);
    case StartOp(op) =>
    case Disconnect =>
  }

  // ---- every run ----

  lemma {:induction false} EveryRunKeeps(c: Config, states: seq<State>, steps: seq<Step>, n: nat)
    requires IsRun(c, states, steps) && n < |states|
    ensures Inv(states[n])
    decreases n
  {
    if n == 0 {
      var setupOk, spread :| ValidSpread(spread) && states[0] == AfterConnectCall(c, FRESH, setupOk, spread);
      ConnectCallKeeps(c, FRESH, setupOk, spread);
    } else {
      EveryRunKeeps(c, states, steps, n - 1);
      NextKeeps(c, states[n - 1], steps[n - 1]);
    }
  }

  /** Until it is stopped, the service always has exactly one thing under way: it is never stuck and never doubly
      scheduled. Every delay it chose is within 30% of min(2^k, 8) seconds after k failures in a row. */
  lemma NeverStuckNeverDoubled(c: Config, states: seq<State>, steps: seq<Step>, n: nat)
    requires IsRun(c, states, steps) && n < |states|
    ensures !states[n].stopping ==> Activities(states[n]) == 1
    ensures BackoffKept(states[n].log)
  {
    EveryRunKeeps(c, states, steps, n);
  }

  lemma StepFacts(c: Config, states: seq<State>, steps: seq<Step>, i: nat)
    requires IsRun(c, states, steps) && i < |steps|
    ensures Enabled(states[i], steps[i]) && states[i + 1] == Next(c, states[i], steps[i])
  {
  }

  /** The steps that disconnect for good: a shutdown, or a message that asks to leave. */
  predicate Disconnects(step: Step) {
    step == Disconnect || (step.Complete? && step.op == Read && step.outcome.Leave?)
  }

  lemma FailureStopsNothing(s: State, spread: int)
    ensures AfterFailure(s, spread).stopping == s.stopping && AfterFailure(s, spread).entries == s.entries
  {
  }

  lemma ConnectStopsNothing(c: Config, s: State, setupOk: bool, spread: int)
    ensures AfterConnectCall(c, s, setupOk, spread).stopping == s.stopping
  {
    hide AfterFailure;
    FailureStopsNothing(s.(entries := s.entries + 1), spread);
  }

  lemma CompletionStops(c: Config, s: State, op: Op, torn: bool, o: Outcome, spread: int)
    ensures var t := AfterCompletion(c, s, op, torn, o, spread);
            (t.stopping <==> s.stopping || (op == Read && o.Leave?)) && (op == Read ==> t.entries == s.entries)
  {
    hide AfterFailure;
    FailureStopsNothing(s, spread);
  }

  /** Only these stop the service. */
  lemma StopsExactlyByDisconnecting(c: Config, s: State, step: Step)
    requires Enabled(s, step)
    ensures Next(c, s, step).stopping <==> s.stopping || Disconnects(step)
    ensures Disconnects(step) ==> Next(c, s, step).entries == s.entries
  {
    hide AfterCompletion, AfterConnectCall;
    match step
    case Complete(op, torn, o, spread) =>
      var s1 := if torn then s.(stale := s.stale - multiset{op}) else s.(live := s.live - multiset{op});
      CompletionStops(c, s1, op, torn, o, spread);
    case TimerFires(setupOk, spread) =>
      ConnectStopsNothing(c, s.(timerArmed := false, reconnecting := false), setupOk, spread);
    case StartOp(op) =>
    case Disconnect =>
  }

  lemma StoppedIsIdle(s: State)
    requires Inv(s) && s.stopping
    ensures !s.timerArmed && !s.discoveryActive
  {
  }

  /** Once stopping, by whatever disconnect, neither Connect nor ResolveAndConnect is entered again, and no timer is
      armed again. */
  lemma {:induction false} NothingStartsAfterDisconnect(c: Config, states: seq<State>, steps: seq<Step>, i: nat, j: nat)
    requires IsRun(c, states, steps) && i <= j < |states| && states[i].stopping
    ensures states[j].stopping && !states[j].timerArmed && !states[j].discoveryActive
    ensures states[j].entries == states[i].entries
    decreases j
  {
    hide Inv, Next, Enabled;
    if i < j {
      NothingStartsAfterDisconnect(c, states, steps, i, j - 1);
      StepFacts(c, states, steps, j - 1);
      EveryRunKeeps(c, states, steps, j - 1);
      NextKeeps(c, states[j - 1], steps[j - 1]);
    }
    EveryRunKeeps(c, states, steps, j);
    StoppedIsIdle(states[j]);
  }
}
