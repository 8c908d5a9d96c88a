/**
 * Registration with the application heartbeat daemon (apphbd) and the two
 * timer callbacks that keep it alive: `logd_init_register_with_apphbd`,
 * `logd_reregister_with_apphbd` and `logd_apphb_hb`.
 *
 * The return codes of the apphb library calls are parameters; what the
 * callbacks do to the outside world (library calls made, lines logged) is
 * returned as a trace of events.
 */
module Apphb {

  /** apphbd's dead interval and warning interval, in milliseconds. */
  const DeadtimeMs: int := 10000
  const WarntimeMs: int := 5000

  /** Failed registrations are reported once every this many attempts. */
  const LogThrottle: nat := 60

  /** The instance name the daemon registers under. */
  const AppInstance: string := "logging daemon"

  /** The `useapphbd` setting, the `RegisteredWithApphbd` flag and the
      static `failcount` counter. */
  datatype MonitorState = MonitorState(useApphbd: bool, registered: bool, failCount: nat)

  /** The state at process start for a given `useapphbd` setting. */
  function Start(useApphbd: bool): MonitorState {
    MonitorState(useApphbd, false, 0)
  }

  /** What a callback does outside its own state, in order. */
  datatype Event =
    | CallRegister(instance: string)
    | CallSetInterval(ms: int)
    | CallSetWarn(ms: int)
    | CallUnregister
    | CallHb
    | LogUnableToRegister
    | LogContinuingToTry
    | LogRegistered
    | LogUnableToSetup
    | LogHbFailed

  /** The return codes `apphb_register`, `apphb_setinterval` and
      `apphb_setwarn` would give if called. */
  datatype RegisterReplies = RegisterReplies(register: int, setInterval: int, setWarn: int)

  /** A callback's effect: the new state and the events it caused. */
  datatype Step = Step(state: MonitorState, trace: seq<Event>)

  /** A timer callback's effect and its return value (FALSE cancels the
      timer). */
  datatype TimerStep = TimerStep(step: Step, keep: bool)

  /** `logd_init_register_with_apphbd`. */
  function InitRegister(s: MonitorState, replies: RegisterReplies): (r: Step)
    ensures r.state.useApphbd == s.useApphbd
    // disabled or already registered: nothing happens
    ensures !s.useApphbd || s.registered ==> r == Step(s, [])
    // otherwise the first thing done is the registration call
    ensures s.useApphbd && !s.registered ==> |r.trace| > 0 && r.trace[0] == CallRegister(AppInstance)
    // refused registration: one more failure, reported only when the count
    // before this attempt is a multiple of the throttle
    ensures s.useApphbd && !s.registered && replies.register != 0 ==>
              && !r.state.registered
              && r.state.failCount == s.failCount + 1
              && (LogUnableToRegister in r.trace <==> s.failCount % LogThrottle == 0)
              && CallSetInterval(DeadtimeMs) !in r.trace
    // accepted registration: registered exactly when both interval calls
    // succeed; a setup failure unregisters again and counts as a failure
    ensures s.useApphbd && !s.registered && replies.register == 0 ==>
              && (r.state.registered <==> replies.setInterval >= 0 && replies.setWarn >= 0)
              && (r.state.registered ==> r.state.failCount == 0 && CallUnregister !in r.trace)
              && (!r.state.registered ==> r.state.failCount == s.failCount + 1 && CallUnregister in r.trace)
              && CallSetInterval(DeadtimeMs) in r.trace
              && LogUnableToRegister !in r.trace
    // the warning interval is set only after the dead interval was set
    ensures CallSetWarn(WarntimeMs) in r.trace ==> replies.register == 0 && replies.setInterval >= 0
  {
    if !s.useApphbd || s.registered then Step(s, [])
    else if replies.register != 0 then
      var report := if s.failCount % LogThrottle == 0 then [LogUnableToRegister, LogContinuingToTry] else [];
      Step(s.(failCount := s.failCount + 1), [CallRegister(AppInstance)] + report)
    else
      var setup := [CallRegister(AppInstance), LogRegistered, CallSetInterval(DeadtimeMs)]
                   + (if replies.setInterval < 0 then [] else [CallSetWarn(WarntimeMs)]);
      if replies.setInterval < 0 || replies.setWarn < 0 then
        Step(s.(registered := false, failCount := s.failCount + 1), setup + [LogUnableToSetup, CallUnregister])
      else
        Step(s.(registered := true, failCount := 0), setup)
  }

  /** `logd_reregister_with_apphbd`: the 60-second timer. */
  function Reregister(s: MonitorState, replies: RegisterReplies): (r: TimerStep)
    ensures r.keep == s.useApphbd
    ensures !s.useApphbd ==> r.step == Step(s, [])
    ensures s.useApphbd ==> r.step == InitRegister(s, replies)
  {
    if s.useApphbd then TimerStep(InitRegister(s, replies), true)
    else TimerStep(Step(s, []), false)
  }

  /** `logd_apphb_hb`: the keepalive timer, given the return code
      `apphb_hb` would give. */
  function HeartbeatTick(s: MonitorState, hbReply: int): (r: TimerStep)
    ensures r.keep
    ensures r.step.state.useApphbd == s.useApphbd && r.step.state.failCount == s.failCount
    ensures r.step.state.registered <==> s.registered && (!s.useApphbd || hbReply >= 0)
    ensures CallHb in r.step.trace <==> s.useApphbd && s.registered
    ensures CallUnregister in r.step.trace <==> s.useApphbd && s.registered && hbReply < 0
  {
    if s.useApphbd && s.registered then
      if hbReply < 0 then
        TimerStep(Step(s.(registered := false), [CallHb, LogHbFailed, CallUnregister]), true)
      else
        TimerStep(Step(s, [CallHb]), true)
    else
      TimerStep(Step(s, []), true)
  }

  /** The invariant every callback keeps: only an enabled monitor is ever
      registered, and a registered monitor has no outstanding failures. */
  ghost predicate Consistent(s: MonitorState) {
    s.registered ==> s.useApphbd && s.failCount == 0
  }

  lemma ConsistentStart(useApphbd: bool)
    ensures Consistent(Start(useApphbd))
  {
  }

  /** Each of the three callbacks keeps the invariant, and none of them
      changes the `useapphbd` setting. */
  lemma CallbacksKeepConsistent(s: MonitorState, replies: RegisterReplies, hbReply: int)
    requires Consistent(s)
    ensures Consistent(InitRegister(s, replies).state)
    ensures Consistent(Reregister(s, replies).step.state)
    ensures Consistent(HeartbeatTick(s, hbReply).step.state)
  {
  }

  /** The steps of calling `InitRegister` once per element of `replies`,
      each from the state the previous call left. */
  function Attempts(s: MonitorState, replies: seq<RegisterReplies>): (steps: seq<Step>)
    ensures |steps| == |replies|
    decreases |replies|
  {
    if |replies| == 0 then []
    else
      var first := InitRegister(s, replies[0]);
      [first] + Attempts(first.state, replies[1..])
  }

  /** Consecutive refused registrations: the k-th one (counting from 0)
      leaves `failCount` at its start value plus k + 1 and is reported
      exactly when the start value plus k is a multiple of the throttle. */
  lemma {:induction false} ThrottledRetries(s: MonitorState, replies: seq<RegisterReplies>)
    requires s.useApphbd && !s.registered
    requires forall k :: 0 <= k < |replies| ==> replies[k].register != 0
    ensures forall k :: 0 <= k < |replies| ==>
              && !Attempts(s, replies)[k].state.registered
              && Attempts(s, replies)[k].state.failCount == s.failCount + k + 1
              && (LogUnableToRegister in Attempts(s, replies)[k].trace <==> (s.failCount + k) % LogThrottle == 0)
    decreases |replies|
  {
    if |replies| > 0 {
      var first := InitRegister(s, replies[0]);
      var rest := replies[1..];
      assert forall k :: 0 <= k < |rest| ==> rest[k] == replies[k + 1];
      ThrottledRetries(first.state, rest);
      var steps := Attempts(s, replies);
      assert forall k :: 1 <= k < |replies| ==> steps[k] == Attempts(first.state, rest)[k - 1];
    }
  }

  /** From a fresh start with apphbd enabled and unreachable, the attempts
      that are reported are the 1st, the 61st, the 121st, ...: the attempt
      at index k (the (k + 1)-th) is reported exactly when k is a multiple of
      60, so the 60th attempt is not. */
  lemma ReportedAttempts(replies: seq<RegisterReplies>)
    requires forall k :: 0 <= k < |replies| ==> replies[k].register != 0
    ensures forall k :: 0 <= k < |replies| ==>
              (LogUnableToRegister in Attempts(Start(true), replies)[k].trace <==> k % 60 == 0)
    ensures |replies| >= 61 ==>
              && LogUnableToRegister in Attempts(Start(true), replies)[0].trace
              && LogUnableToRegister !in Attempts(Start(true), replies)[59].trace
              && LogUnableToRegister in Attempts(Start(true), replies)[60].trace
  {
    ThrottledRetries(Start(true), replies);
  }

  /** A failed keepalive loses the registration but not the failure count;
      the next re-registration tick that apphbd accepts restores it. */
  lemma HeartbeatLossRecovered(s: MonitorState, hbReply: int, replies: RegisterReplies)
    requires Consistent(s) && s.registered && hbReply < 0
    requires replies.register == 0 && replies.setInterval >= 0 && replies.setWarn >= 0
    ensures !HeartbeatTick(s, hbReply).step.state.registered
    ensures Reregister(HeartbeatTick(s, hbReply).step.state, replies).step.state == s
  {
  }
}
