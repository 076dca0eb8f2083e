/**
 The life of the supervised services as a trace of events, and what a legal trace is.

 Replay folds a trace into the state of the world it leads to. Legal says that every event was
 allowed in the world its past leads to. The supervisor is proved elsewhere to produce legal traces
 only; here the promises about whole runs are proved of every legal trace.
 */
module Protocol {
  import opened Kernel

  const SERVICE_RESTART_DELAY: nat := 500
  const UINT_SIZE: nat := 0x1_0000_0000

  datatype Config = Config(
    isGroup: bool, sync: bool, respawn: bool, ignoreFailure: bool, shutdownOnTerminate: bool,
    minRunningTime: nat, readyTimeout: nat, interval: nat)

  /** The loaded services by index, their start order, and the time they get to terminate on shutdown. */
  datatype Plan = Plan(cfg: seq<Config>, order: seq<int>, gracetime: nat) {
    ghost predicate Valid() {
      && (forall i :: 0 <= i < |order| ==> 0 <= order[i] < |cfg|)
      && (forall i, j :: 0 <= i < j < |order| ==> order[i] != order[j])
    }
  }

  /** The product of the interval and 1000 is taken on 32 bits. */
  function IntervalMsec(interval: nat): (msec: nat) {
    interval * 1000 % UINT_SIZE
  }

  /** Who starts a service: position i of the start-up pass, or one of the two loops of the main loop. */
  datatype Cause = StartUp(i: nat) | ByInterval | ByRestart

  /** The latest readiness check since the service was started: its program's exit code, or that there is none. */
  datatype Check = NotChecked | Absent | Returned(code: int) {
    predicate Passes() { Absent? || (Returned? && code == 0) }
  }

  datatype Event =
    | Forked(sid: int, pid: int, time: nat, cause: Cause)
    | LoggerStarted(sid: int)
    | Checked(sid: int, check: Check)
    | Ready(sid: int, time: nat)
    | Reaped(pid: int, sid: int, status: Status)    // sid is -1 when no service has this pid
    | LoggerJoined(sid: int)
    | FdClosed(sid: int)
    | Judged(sid: int, status: Status, requested: bool, restarting: bool)   // should this death end the container?
    | ExitCodeSet(sid: int, code: int)
    | RestartSet(sid: int, on: bool)                // the restart flag of a service changes
    | StartUpThrew
    | ShutdownBegan
    | StopAsked(sid: int, i: int)                   // i is the position in the start order, -1 for a restart command
    | TermSent(sid: int, pid: int)
    | NoEntry(sid: int)                             // the service to be stopped has no directory that can be entered
    | TermAll(time: nat)                            // SIGTERM to every process
    | KillAll(time: nat)                            // SIGKILL to every process
    | Finished(exitStatus: int)

  datatype Trace = Begin | Then(past: Trace, last: Event)

  datatype Death = Undead | Died(status: Status)

  /** What the trace says about one service; forked is the time of its latest start. */
  datatype Svc = Svc(
    pid: int, logger: bool, fd: bool, forked: int, check: Check, ready: bool,
    death: Death, exitedZero: bool, asked: bool, restarting: bool)

  /**
   Nothing else happens between the reaping of a service and the judgement on it, and what it decides;
   or between asking a service to stop and sending it SIGTERM, or finding that its directory is gone.
   */
  datatype Phase = Quiet | Reaping(sid: int, status: Status) | Deciding(sid: int, code: int) | Stopping(sid: int)

  datatype Fork = Fork(sid: int, pid: int, cause: Cause)

  datatype World = World(
    svcs: seq<Svc>, now: nat, exitCode: int, decided: bool, threw: bool, stopping: bool,
    floor: int, termAll: int, killAll: int, over: bool, phase: Phase, forks: seq<Fork>)

  const NEVER: int := -1

  function Init(n: nat): World {
    World(seq(n, _ => Svc(0, false, false, NEVER, NotChecked, false, Undead, false, false, false)),
          0, 0, false, false, false, 0, NEVER, NEVER, false, Quiet, [])
  }

  predicate InRange(w: World, e: Event) {
    match e
    case Forked(s, _, _, _) => 0 <= s < |w.svcs|
    case LoggerStarted(s) => 0 <= s < |w.svcs|
    case Checked(s, _) => 0 <= s < |w.svcs|
    case Ready(s, _) => 0 <= s < |w.svcs|
    case Reaped(_, s, _) => -1 <= s < |w.svcs|
    case LoggerJoined(s) => 0 <= s < |w.svcs|
    case FdClosed(s) => 0 <= s < |w.svcs|
    case Judged(s, _, _, _) => 0 <= s < |w.svcs|
    case ExitCodeSet(s, _) => 0 <= s < |w.svcs|
    case RestartSet(s, _) => 0 <= s < |w.svcs|
    case StopAsked(s, _) => 0 <= s < |w.svcs|
    case TermSent(s, _) => 0 <= s < |w.svcs|
    case NoEntry(s) => 0 <= s < |w.svcs|
    case _ => true
  }

  function CodeOf(st: Status): int {
    match st
    case Exited(c) => c
    case Signaled(s) => 128 + s
    case Unknown => 1
  }

  /** The death of this service ends the container, unless a shutdown or its restart was requested. */
  predicate Decisive(plan: Plan, s: int, requested: bool, restarting: bool) {
    0 <= s < |plan.cfg| && plan.cfg[s].shutdownOnTerminate && !requested && !restarting
  }

  /** The service whose record the event changes, or -1. */
  function Concerned(e: Event): int {
    match e
    case Forked(s, _, _, _) => s
    case LoggerStarted(s) => s
    case Checked(s, _) => s
    case Ready(s, _) => s
    case Reaped(_, s, _) => s
    case LoggerJoined(s) => s
    case FdClosed(s) => s
    case RestartSet(s, _) => s
    case StopAsked(s, _) => s
    case _ => -1
  }

  function Touched(v: Svc, e: Event): Svc {
    match e
    case Forked(_, pid, t, _) => v.(pid := pid, fd := true, forked := t, check := NotChecked)
    case LoggerStarted(_) => v.(logger := true)
    case Checked(_, c) => v.(check := c)
    case Ready(_, _) => v.(ready := true)
    case Reaped(_, _, st) => v.(pid := 0, death := Died(st), exitedZero := v.exitedZero || st == Exited(0))
    case LoggerJoined(_) => v.(logger := false)
    case FdClosed(_) => v.(fd := false)
    case RestartSet(_, on) => v.(restarting := on)
    case StopAsked(_, i) => if i < 0 then v else v.(asked := true)
    case _ => v
  }

  function Services(svcs: seq<Svc>, e: Event): (svcs': seq<Svc>)
    ensures |svcs'| == |svcs|
    ensures forall s :: 0 <= s < |svcs| ==> svcs'[s] == if s == Concerned(e) then Touched(svcs[s], e) else svcs[s]
  {
    if 0 <= Concerned(e) < |svcs| then svcs[Concerned(e) := Touched(svcs[Concerned(e)], e)] else svcs
  }

  function Apply(plan: Plan, w: World, e: Event): (w': World)
    ensures w'.svcs == if InRange(w, e) then Services(w.svcs, e) else w.svcs
  {
    if !InRange(w, e) then w else
    var w1 := w.(svcs := Services(w.svcs, e));
    match e
    case Forked(s, pid, t, cause) => w1.(now := t, forks := w.forks + [Fork(s, pid, cause)])
    case Ready(_, t) => w1.(now := t)
    case Reaped(_, s, st) => if s == -1 then w1 else w1.(phase := Reaping(s, st))
    case Judged(s, st, requested, restarting) =>
      w1.(phase := if Decisive(plan, s, requested, restarting) then Deciding(s, CodeOf(st)) else Quiet)
    case ExitCodeSet(_, c) => w1.(exitCode := c, decided := true, phase := Quiet)
    case StartUpThrew => w1.(threw := true)
    case ShutdownBegan => w1.(stopping := true, floor := |plan.order|)
    case StopAsked(s, i) => w1.(phase := Stopping(s), floor := if i < 0 then w.floor else i)
    case TermSent(_, _) => w1.(phase := Quiet)
    case NoEntry(_) => w1.(phase := Quiet)
    case TermAll(t) => w1.(termAll := t, now := t)
    case KillAll(t) => w1.(killAll := t, now := t)
    case Finished(_) => w1.(over := true)
    case _ => w1
  }

  function Replay(plan: Plan, t: Trace): World {
    match t
    case Begin => Init(|plan.cfg|)
    case Then(past, e) => Apply(plan, Replay(plan, past), e)
  }

  // ---------------------------------------------------------------------------------------------
  // Legal traces
  // ---------------------------------------------------------------------------------------------

  function FinalStatus(w: World): int {
    if w.threw then 1 else if w.decided then w.exitCode else 0
  }

  /** The service at this place of the order does not hold back those after it. */
  predicate Cleared(plan: Plan, w: World, s: int)
    requires 0 <= s < |plan.cfg| == |w.svcs|
  {
    var c := plan.cfg[s];
    c.isGroup || c.ignoreFailure || c.interval > 0 || w.svcs[s].ready || (c.sync && w.svcs[s].exitedZero)
  }

  ghost predicate Timely(plan: Plan, w: World, s: int, time: nat, cause: Cause)
    requires plan.Valid() && 0 <= s < |plan.cfg| == |w.svcs|
  {
    match cause
    case StartUp(i) => i < |plan.order| && plan.order[i] == s && forall j :: 0 <= j < i ==> Cleared(plan, w, plan.order[j])
    case ByInterval => time - w.svcs[s].forked >= IntervalMsec(plan.cfg[s].interval)
    case ByRestart => time - w.svcs[s].forked > SERVICE_RESTART_DELAY
  }

  lemma TimelyLater(plan: Plan, w: World, s: int, time: nat, later: nat, cause: Cause)
    requires plan.Valid() && 0 <= s < |plan.cfg| == |w.svcs| && time <= later && Timely(plan, w, s, time, cause)
    ensures Timely(plan, w, s, later, cause)
  {}

  /** Of the services after position i of the order, only groups and services already asked may be alive. */
  ghost predicate LaterOnesAsked(plan: Plan, w: World, i: int)
    requires plan.Valid() && |plan.cfg| == |w.svcs|
  {
    forall j :: 0 <= j < |plan.order| && i < j ==>
      var s := plan.order[j]; plan.cfg[s].isGroup || w.svcs[s].pid == 0 || w.svcs[s].asked
  }

  /** Neither shutting down nor about to. */
  predicate Going(w: World) {
    !w.stopping && !w.threw && !w.decided
  }

  predicate InPhase(p: Phase, e: Event) {
    match p
    case Quiet => !e.LoggerJoined? && !e.FdClosed? && !e.Judged? && !e.ExitCodeSet? && !e.TermSent? && !e.NoEntry?
    case Reaping(s, st) => e == LoggerJoined(s) || e == FdClosed(s) || (e.Judged? && e.sid == s && e.status == st)
    case Deciding(s, code) => e == ExitCodeSet(s, code)
    case Stopping(s) => (e.TermSent? || e.NoEntry?) && e.sid == s
  }

  ghost predicate Allowed(plan: Plan, w: World, e: Event)
    requires plan.Valid() && |plan.cfg| == |w.svcs|
  {
    && InRange(w, e) && !w.over && InPhase(w.phase, e)
    && match e
       case Forked(s, pid, t, cause) =>
         && Going(w) && pid > 0 && w.now <= t
         && w.svcs[s].pid == 0 && !w.svcs[s].logger && !w.svcs[s].fd
         && (forall x :: 0 <= x < |w.svcs| ==> w.svcs[x].pid != pid)
         && Timely(plan, w, s, t, cause)
       case LoggerStarted(s) => w.svcs[s].pid != 0 && !w.svcs[s].logger
       case Checked(s, _) => !w.stopping && w.svcs[s].pid != 0
       case Ready(s, t) =>
         && !w.stopping && w.now <= t && w.svcs[s].pid != 0 && w.svcs[s].check.Passes()
         && t - w.svcs[s].forked >= plan.cfg[s].minRunningTime
       case Reaped(pid, s, _) =>
         && pid > 0
         && if s == -1 then forall x :: 0 <= x < |w.svcs| ==> w.svcs[x].pid != pid else w.svcs[s].pid == pid
       case LoggerJoined(s) => w.svcs[s].logger && w.svcs[s].pid == 0
       case FdClosed(s) => w.svcs[s].fd && !w.svcs[s].logger && w.svcs[s].pid == 0
       case Judged(s, st, requested, restarting) =>
         && w.svcs[s].pid == 0 && !w.svcs[s].logger && !w.svcs[s].fd && w.svcs[s].death == Died(st)
         && restarting == w.svcs[s].restarting && (!Going(w) ==> requested)
       case RestartSet(s, _) => !w.stopping
       case ExitCodeSet(s, _) => Going(w) && w.svcs[s].pid == 0
       case StartUpThrew => !w.threw && !w.stopping
       case ShutdownBegan => !w.stopping
       case StopAsked(s, i) =>
         && w.svcs[s].pid != 0
         && (i >= 0 ==> w.stopping && i < w.floor && i < |plan.order| && plan.order[i] == s && LaterOnesAsked(plan, w, i))
       case TermSent(s, pid) => w.svcs[s].pid == pid > 0
       case NoEntry(s) => w.svcs[s].pid != 0
       case TermAll(t) => w.stopping && w.termAll == NEVER && w.now <= t && LaterOnesAsked(plan, w, -1)
       case KillAll(t) =>
         w.stopping && w.killAll == NEVER && w.now <= t && w.termAll != NEVER && t - w.termAll >= plan.gracetime
       case Finished(status) =>
         && w.stopping && status == FinalStatus(w)
         && forall x :: 0 <= x < |w.svcs| ==> w.svcs[x].pid == 0 && !w.svcs[x].logger && !w.svcs[x].fd
  }

  ghost predicate Legal(plan: Plan, t: Trace)
    requires plan.Valid()
    ensures Legal(plan, t) ==> |Replay(plan, t).svcs| == |plan.cfg|
  {
    match t
    case Begin => true
    case Then(past, e) => Legal(plan, past) && Allowed(plan, Replay(plan, past), e)
  }

  // ---------------------------------------------------------------------------------------------
  // The steps of the supervisor, as extensions of a legal trace
  // ---------------------------------------------------------------------------------------------

  function Buried(v: Svc, st: Status): Svc {
    v.(pid := 0, logger := false, fd := false, death := Died(st), exitedZero := v.exitedZero || st == Exited(0))
  }

  /** A service is reaped, its logger is joined if it runs, and then its descriptor is closed. */
  lemma BuriedInSteps(plan: Plan, w: World, s: int, pid: int, st: Status)
    requires 0 <= s < |w.svcs|
    ensures var w1 := Apply(plan, w, Reaped(pid, s, st));
            var w2 := if w.svcs[s].logger then Apply(plan, w1, LoggerJoined(s)) else w1;
            Apply(plan, w2, FdClosed(s)) == w.(svcs := w.svcs[s := Buried(w.svcs[s], st)], phase := Reaping(s, st))
  {}

  lemma Extend(plan: Plan, t: Trace, w: World, e: Event)
    requires plan.Valid() && Legal(plan, t) && Replay(plan, t) == w && Allowed(plan, w, e)
    ensures Legal(plan, Then(t, e)) && Replay(plan, Then(t, e)) == Apply(plan, w, e)
  {}
}
