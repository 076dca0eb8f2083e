/**
 What is promised about whole runs, for every legal trace and every moment in it.

 A moment is written as an extension: Then(p, e) is the moment at which e happens after p.
 */
module Runs {
  import opened Kernel
  import opened Protocol

  /** The moment p lies on the way to t. */
  ghost predicate Prefix(p: Trace, t: Trace) {
    p == t || (t.Then? && Prefix(p, t.past))
  }

  lemma {:induction false} PrefixIsLegal(plan: Plan, p: Trace, t: Trace)
    requires plan.Valid() && Legal(plan, t) && Prefix(p, t)
    ensures Legal(plan, p)
  {
    if p != t { PrefixIsLegal(plan, p, t.past); }
  }

  // ---------------------------------------------------------------------------------------------
  // The table at every moment
  // ---------------------------------------------------------------------------------------------

  ghost predicate Sane(w: World) {
    && (forall s :: 0 <= s < |w.svcs| ==>
          && w.svcs[s].forked <= w.now && w.svcs[s].pid >= 0
          && (w.svcs[s].pid != 0 ==> w.svcs[s].fd) && (w.svcs[s].logger ==> w.svcs[s].fd))
    && (forall s, x :: 0 <= s < x < |w.svcs| && w.svcs[s].pid != 0 ==> w.svcs[s].pid != w.svcs[x].pid)
  }

  lemma StepKeepsSane(plan: Plan, w: World, e: Event)
    requires plan.Valid() && |plan.cfg| == |w.svcs| && Sane(w) && Allowed(plan, w, e)
    ensures Sane(Apply(plan, w, e))
  {
    hide Services, InPhase, Timely, LaterOnesAsked, FinalStatus, CodeOf;
  }

  /** What one more event never undoes, and what only certain events do. */
  lemma StepFacts(plan: Plan, w: World, e: Event)
    requires plan.Valid() && |plan.cfg| == |w.svcs| && Allowed(plan, w, e)
    ensures var w' := Apply(plan, w, e);
            && (w'.decided <==> w.decided || e.ExitCodeSet?)
            && w'.exitCode == (if e.ExitCodeSet? then e.code else w.exitCode)
            && (w'.threw <==> w.threw || e == StartUpThrew)
            && (w'.stopping <==> w.stopping || e == ShutdownBegan)
            && (w'.termAll != w.termAll ==> e == TermAll(w'.termAll))
            && (w'.killAll != w.killAll ==> e == KillAll(w'.killAll))
            && w'.forks == w.forks + (if e.Forked? then [Fork(e.sid, e.pid, e.cause)] else [])
  {
    assert InRange(w, e);
    StepEffects(plan, w, e);
    StepLeavesMarks(plan, w, e);
  }

  lemma StepEffects(plan: Plan, w: World, e: Event)
    requires InRange(w, e)
    ensures var w' := Apply(plan, w, e);
            && (w'.decided <==> w.decided || e.ExitCodeSet?)
            && w'.exitCode == (if e.ExitCodeSet? then e.code else w.exitCode)
            && (w'.threw <==> w.threw || e == StartUpThrew)
            && (w'.stopping <==> w.stopping || e == ShutdownBegan)
  {
    hide Services, Decisive, CodeOf;
  }

  lemma StepLeavesMarks(plan: Plan, w: World, e: Event)
    requires InRange(w, e)
    ensures var w' := Apply(plan, w, e);
            && (w'.termAll != w.termAll ==> e == TermAll(w'.termAll))
            && (w'.killAll != w.killAll ==> e == KillAll(w'.killAll))
            && w'.forks == w.forks + (if e.Forked? then [Fork(e.sid, e.pid, e.cause)] else [])
  {
    hide Services, Decisive, CodeOf;
  }

  /** What one more event keeps in order: no second exit code, the position of the stops, the times of the starts. */
  lemma StepOrder(plan: Plan, w: World, e: Event)
    requires plan.Valid() && |plan.cfg| == |w.svcs| && Allowed(plan, w, e)
    ensures var w' := Apply(plan, w, e);
            && (e.ExitCodeSet? ==> !w.decided) && (w.stopping ==> w'.floor <= w.floor)
            && (Sane(w) ==> forall s :: 0 <= s < |w.svcs| ==> w.svcs[s].forked <= w'.svcs[s].forked)
  {
    hide Timely, LaterOnesAsked, FinalStatus, CodeOf;
  }

  /** The record of a service changes only by an event about it. */
  lemma Effect(plan: Plan, w: World, e: Event, s: int)
    requires 0 <= s < |w.svcs|
    ensures var v, v' := w.svcs[s], Apply(plan, w, e).svcs[s]; v' == v || (v' == Touched(v, e) && Concerned(e) == s)
  {
    hide Apply, Touched, Concerned;
  }

  /** Which event a change of a pid comes from. */
  lemma StepCauses(plan: Plan, w: World, e: Event, s: int)
    requires plan.Valid() && |plan.cfg| == |w.svcs| && Allowed(plan, w, e) && 0 <= s < |w.svcs|
    ensures var v, v' := w.svcs[s], Apply(plan, w, e).svcs[s];
            v'.pid != v.pid ==> if v.pid == 0 then e.Forked? && e.sid == s else e == Reaped(v.pid, s, e.status)
  {
    hide Apply, Services, InPhase, Timely, LaterOnesAsked, FinalStatus;
    Effect(plan, w, e, s);
  }

  /** Which event a mark on a service comes from; it stays. */
  lemma AskedCauses(plan: Plan, w: World, e: Event, s: int)
    requires 0 <= s < |w.svcs|
    ensures var v, v' := w.svcs[s], Apply(plan, w, e).svcs[s];
            (v'.asked != v.asked ==> e.StopAsked? && e.sid == s && e.i >= 0) && (v.asked ==> v'.asked)
  {
    hide Apply, Services;
    Effect(plan, w, e, s);
  }

  lemma ExitCauses(plan: Plan, w: World, e: Event, s: int)
    requires 0 <= s < |w.svcs|
    ensures var v, v' := w.svcs[s], Apply(plan, w, e).svcs[s];
            (v'.exitedZero != v.exitedZero ==> e == Reaped(e.pid, s, Exited(0))) && (v.exitedZero ==> v'.exitedZero)
  {
    hide Apply, Services;
    Effect(plan, w, e, s);
  }

  lemma CheckCauses(plan: Plan, w: World, e: Event, s: int)
    requires 0 <= s < |w.svcs|
    ensures var v, v' := w.svcs[s], Apply(plan, w, e).svcs[s];
            && (v'.check != v.check && v'.check != NotChecked ==> e == Checked(s, v'.check))
            && (e.Forked? && e.sid == s ==> v'.check == NotChecked)
  {
    hide Apply;
    Effect(plan, w, e, s);
    assert e.Forked? ==> InRange(w, e) == (0 <= e.sid < |w.svcs|);
  }

  lemma ReadyCauses(plan: Plan, w: World, e: Event, s: int)
    requires plan.Valid() && |plan.cfg| == |w.svcs| && Allowed(plan, w, e) && 0 <= s < |w.svcs|
    ensures var v, v' := w.svcs[s], Apply(plan, w, e).svcs[s];
            v'.ready != v.ready ==>
              e == Ready(s, e.time) && v.pid != 0 && v.check.Passes() && e.time - v.forked >= plan.cfg[s].minRunningTime
  {
    hide Apply, Services, Timely, LaterOnesAsked, FinalStatus, InPhase;
    Effect(plan, w, e, s);
  }

  /**
   At every moment live services have distinct pids, and a service that is live or whose logger still
   runs has its descriptor open: a descriptor is closed only after the logger was joined.
   */
  lemma {:induction false} AlwaysSane(plan: Plan, t: Trace)
    requires plan.Valid() && Legal(plan, t)
    ensures Sane(Replay(plan, t))
  {
    if t.Then? {
      AlwaysSane(plan, t.past);
      StepKeepsSane(plan, Replay(plan, t.past), t.last);
    }
  }

  /** If the pid set by a fork is no longer the pid of the service, the process was reaped since. */
  lemma {:induction false} GoneMeansReaped(plan: Plan, p: Trace, t: Trace, s: int, pid: int, time: nat, cause: Cause)
    requires plan.Valid() && Legal(plan, t) && Prefix(Then(p, Forked(s, pid, time, cause)), t)
    requires 0 <= s < |plan.cfg| && Replay(plan, t).svcs[s].pid != pid
    ensures exists q, st :: Prefix(Then(q, Reaped(pid, s, st)), t) && Prefix(Then(p, Forked(s, pid, time, cause)), q)
  {
    if t != Then(p, Forked(s, pid, time, cause)) {
      StepCauses(plan, Replay(plan, t.past), t.last, s);
      if Replay(plan, t.past).svcs[s].pid != pid {
        GoneMeansReaped(plan, p, t.past, s, pid, time, cause);
        var q, st :| Prefix(Then(q, Reaped(pid, s, st)), t.past) && Prefix(Then(p, Forked(s, pid, time, cause)), q);
        assert Prefix(Then(q, Reaped(pid, s, st)), t);
      } else {
        PrefixIsLegal(plan, Then(p, Forked(s, pid, time, cause)), t);
        assert t == Then(t.past, Reaped(pid, s, t.last.status));
      }
    }
  }

  /** Between two starts of a service, the process of the first one was reaped. */
  lemma StartsAlternateWithReaps(plan: Plan, p: Trace, t: Trace, s: int,
                                 pid: int, time: nat, cause: Cause, pid': int, time': nat, cause': Cause)
    requires plan.Valid() && Legal(plan, Then(t, Forked(s, pid', time', cause')))
    requires Prefix(Then(p, Forked(s, pid, time, cause)), t)
    ensures exists q, st :: Prefix(Then(q, Reaped(pid, s, st)), t) && Prefix(Then(p, Forked(s, pid, time, cause)), q)
  {
    PrefixIsLegal(plan, Then(p, Forked(s, pid, time, cause)), t);
    GoneMeansReaped(plan, p, t, s, pid, time, cause);
  }

  /** Between two reaps of a service, it was started. */
  lemma {:induction false} ReapsAlternateWithStarts(plan: Plan, p: Trace, t: Trace, s: int, pid: int, st: Status)
    requires plan.Valid() && Legal(plan, t) && 0 <= s < |plan.cfg| && Prefix(Then(p, Reaped(pid, s, st)), t)
    requires Replay(plan, t).svcs[s].pid != 0
    ensures exists q, pid', time, cause :: Prefix(Then(q, Forked(s, pid', time, cause)), t) && Prefix(Then(p, Reaped(pid, s, st)), q)
  {
    if t != Then(p, Reaped(pid, s, st)) {
      StepCauses(plan, Replay(plan, t.past), t.last, s);
      if Replay(plan, t.past).svcs[s].pid != 0 {
        ReapsAlternateWithStarts(plan, p, t.past, s, pid, st);
        var q, pid', time, cause :| Prefix(Then(q, Forked(s, pid', time, cause)), t.past) && Prefix(Then(p, Reaped(pid, s, st)), q);
        assert Prefix(Then(q, Forked(s, pid', time, cause)), t);
      } else {
        assert Prefix(Then(t.past, Forked(s, t.last.pid, t.last.time, t.last.cause)), t);
      }
    }
  }

  // ---------------------------------------------------------------------------------------------
  // The start-up barrier
  // ---------------------------------------------------------------------------------------------

  /** From p on to t the service is not started again. */
  ghost predicate SameLife(p: Trace, t: Trace, s: int) {
    p == t || (t.Then? && !(t.last.Forked? && t.last.sid == s) && SameLife(p, t.past, s))
  }

  /** Since its latest start, a readiness check of the service passed, or it was found to have none. */
  ghost predicate CheckPassed(t: Trace, s: int) {
    exists p, c: Check :: SameLife(Then(p, Checked(s, c)), t, s) && c.Passes()
  }

  /** On the way to t the service became ready: it had run for its minimum time, and its check had passed. */
  ghost predicate WasReady(plan: Plan, t: Trace, s: int)
    requires 0 <= s < |plan.cfg|
  {
    exists q, time: nat ::
      && Prefix(Then(q, Ready(s, time)), t) && |Replay(plan, q).svcs| == |plan.cfg|
      && Replay(plan, q).svcs[s].pid != 0 && CheckPassed(q, s)
      && time - Replay(plan, q).svcs[s].forked >= plan.cfg[s].minRunningTime
  }

  ghost predicate ExitedWithZero(t: Trace, s: int) {
    exists q, pid :: Prefix(Then(q, Reaped(pid, s, Exited(0))), t)
  }

  lemma {:induction false} CheckHappened(plan: Plan, t: Trace, s: int)
    requires plan.Valid() && Legal(plan, t) && 0 <= s < |plan.cfg| && Replay(plan, t).svcs[s].check.Passes()
    ensures CheckPassed(t, s)
  {
    if t.Then? {
      hide Allowed, Apply;
      CheckCauses(plan, Replay(plan, t.past), t.last, s);
      var c := Replay(plan, t).svcs[s].check;
      if Replay(plan, t.past).svcs[s].check == c {
        assert !(t.last.Forked? && t.last.sid == s);
        CheckHappened(plan, t.past, s);
        var p, d: Check :| SameLife(Then(p, Checked(s, d)), t.past, s) && d.Passes();
        assert SameLife(Then(p, Checked(s, d)), t, s);
      } else {
        assert SameLife(Then(t.past, Checked(s, c)), t, s);
      }
    }
  }

  lemma {:induction false} ReadyHappened(plan: Plan, t: Trace, s: int)
    requires plan.Valid() && Legal(plan, t) && 0 <= s < |plan.cfg| && Replay(plan, t).svcs[s].ready
    ensures WasReady(plan, t, s)
  {
    if t.Then? {
      hide Allowed, Apply;
      ReadyCauses(plan, Replay(plan, t.past), t.last, s);
      if Replay(plan, t.past).svcs[s].ready {
        ReadyHappened(plan, t.past, s);
        var q, time: nat :|
          && Prefix(Then(q, Ready(s, time)), t.past) && |Replay(plan, q).svcs| == |plan.cfg|
          && Replay(plan, q).svcs[s].pid != 0 && CheckPassed(q, s)
          && time - Replay(plan, q).svcs[s].forked >= plan.cfg[s].minRunningTime;
        assert Prefix(Then(q, Ready(s, time)), t);
      } else {
        CheckHappened(plan, t.past, s);
        assert t == Then(t.past, Ready(s, t.last.time));
      }
    }
  }

  lemma {:induction false} ExitHappened(plan: Plan, t: Trace, s: int)
    requires plan.Valid() && Legal(plan, t) && 0 <= s < |plan.cfg| && Replay(plan, t).svcs[s].exitedZero
    ensures ExitedWithZero(t, s)
  {
    if t.Then? {
      hide Allowed, Apply;
      ExitCauses(plan, Replay(plan, t.past), t.last, s);
      if Replay(plan, t.past).svcs[s].exitedZero {
        ExitHappened(plan, t.past, s);
        var q, pid :| Prefix(Then(q, Reaped(pid, s, Exited(0))), t.past);
        assert Prefix(Then(q, Reaped(pid, s, Exited(0))), t);
      } else {
        assert t == Then(t.past, Reaped(t.last.pid, s, Exited(0)));
      }
    }
  }

  /** The entry does not hold back later ones, or it became ready, or it was sync and exited with 0. */
  ghost predicate Passed(plan: Plan, t: Trace, s: int)
    requires 0 <= s < |plan.cfg|
  {
    var c := plan.cfg[s];
    c.isGroup || c.ignoreFailure || c.interval > 0 || WasReady(plan, t, s) || (c.sync && ExitedWithZero(t, s))
  }

  /** When the start-up pass starts the service at position i, every earlier entry has passed. */
  lemma StartUpBarrier(plan: Plan, t: Trace, s: int, pid: int, time: nat, i: nat, j: nat)
    requires plan.Valid() && Legal(plan, Then(t, Forked(s, pid, time, StartUp(i)))) && j < i
    ensures i < |plan.order| && plan.order[i] == s && Passed(plan, t, plan.order[j])
  {
    var d := plan.order[j];
    assert Cleared(plan, Replay(plan, t), d);
    if Replay(plan, t).svcs[d].ready {
      ReadyHappened(plan, t, d);
    } else if Replay(plan, t).svcs[d].exitedZero {
      ExitHappened(plan, t, d);
    }
  }

  // ---------------------------------------------------------------------------------------------
  // The time between starts
  // ---------------------------------------------------------------------------------------------

  lemma {:induction false} ForkTimeRemembered(plan: Plan, p: Trace, t: Trace, s: int, pid: int, time: nat, cause: Cause)
    requires plan.Valid() && Legal(plan, t) && Prefix(Then(p, Forked(s, pid, time, cause)), t)
    ensures 0 <= s < |plan.cfg| && time <= Replay(plan, t).svcs[s].forked
  {
    if t != Then(p, Forked(s, pid, time, cause)) {
      hide Allowed, Apply;
      ForkTimeRemembered(plan, p, t.past, s, pid, time, cause);
      AlwaysSane(plan, t.past);
      StepOrder(plan, Replay(plan, t.past), t.last);
    }
  }

  /**
   A start comes after every earlier start of the same service: more than 500 ms later when it is a
   restart, and at least the interval, as the program multiplies it, when the interval is the cause.
   */
  lemma StartsAreSpaced(plan: Plan, p: Trace, t: Trace, s: int,
                        pid: int, time: nat, cause: Cause, pid': int, time': nat, cause': Cause)
    requires plan.Valid() && Legal(plan, Then(t, Forked(s, pid', time', cause')))
    requires Prefix(Then(p, Forked(s, pid, time, cause)), t)
    ensures 0 <= s < |plan.cfg| && time <= time'
    ensures cause'.ByRestart? ==> time' - time > SERVICE_RESTART_DELAY
    ensures cause'.ByInterval? ==> time' - time >= IntervalMsec(plan.cfg[s].interval)
  {
    ForkTimeRemembered(plan, p, t, s, pid, time, cause);
    AlwaysSane(plan, t);
  }

  /** The 32-bit product is the interval in milliseconds exactly up to this bound. */
  lemma IntervalIsExact(interval: nat)
    ensures IntervalMsec(interval) == interval * 1000 <==> interval <= 4294967
  {}

  function ToLower(s: string): (t: string)
    ensures |t| == |s|
  {
    seq(|s|, i requires 0 <= i < |s| => if 'A' <= s[i] <= 'Z' then s[i] + 32 as char else s[i])
  }

  /** The interval keywords, compared without regard to case; 0 stands for any other text. */
  function KeywordInterval(s: string): nat {
    var l := ToLower(s);
    if l == "yearly" then 60 * 60 * 24 * 365
    else if l == "monthly" then 60 * 60 * 24 * 30
    else if l == "weekly" then 60 * 60 * 24 * 7
    else if l == "daily" then 60 * 60 * 24
    else if l == "hourly" then 60 * 60
    else 0
  }

  /** Every keyword means its interval, but 'yearly', which means 1471228928 ms: a little over 17 days. */
  lemma KeywordsAreExactButYearly(s: string)
    requires KeywordInterval(s) > 0
    ensures IntervalMsec(KeywordInterval(s)) == KeywordInterval(s) * 1000 <==> ToLower(s) != "yearly"
    ensures ToLower(s) == "yearly" ==> IntervalMsec(KeywordInterval(s)) == 1471228928
  {
    IntervalIsExact(KeywordInterval(s));
  }

  lemma KeywordsMean(s: string)
    ensures ToLower(s) == "hourly" ==> KeywordInterval(s) == 3600
    ensures ToLower(s) == "daily" ==> KeywordInterval(s) == 86_400
    ensures ToLower(s) == "weekly" ==> KeywordInterval(s) == 604_800
    ensures ToLower(s) == "monthly" ==> KeywordInterval(s) == 2_592_000
    ensures ToLower(s) == "yearly" ==> KeywordInterval(s) == 31_536_000
  {}

  // ---------------------------------------------------------------------------------------------
  // The exit status
  // ---------------------------------------------------------------------------------------------

  lemma {:induction false} DecidedIsFinal(plan: Plan, p: Trace, t: Trace, s: int, code: int)
    requires plan.Valid() && Legal(plan, t) && Prefix(Then(p, ExitCodeSet(s, code)), t)
    ensures Replay(plan, t).decided && Replay(plan, t).exitCode == code
  {
    if t != Then(p, ExitCodeSet(s, code)) {
      hide Allowed, Apply;
      DecidedIsFinal(plan, p, t.past, s, code);
      StepFacts(plan, Replay(plan, t.past), t.last);
      StepOrder(plan, Replay(plan, t.past), t.last);
    }
  }

  /** The exit code is written at most once. */
  lemma ExitCodeWrittenOnce(plan: Plan, p: Trace, t: Trace, s: int, code: int, s': int, code': int)
    requires plan.Valid() && Prefix(Then(p, ExitCodeSet(s, code)), t)
    ensures !Legal(plan, Then(t, ExitCodeSet(s', code')))
  {
    if Legal(plan, t) { DecidedIsFinal(plan, p, t, s, code); }
  }

  datatype Reap = NoReap | Reap(sid: int, status: Status)

  /** The latest service that was reaped, and how it had ended. */
  ghost function LatestReap(t: Trace): Reap {
    match t
    case Begin => NoReap
    case Then(past, e) => if e.Reaped? && e.sid >= 0 then Reap(e.sid, e.status) else LatestReap(past)
  }

  lemma {:induction false} PhaseOfTheLatestReap(plan: Plan, t: Trace)
    requires plan.Valid() && Legal(plan, t)
    ensures var p := Replay(plan, t).phase; p.Reaping? ==> LatestReap(t) == Reap(p.sid, p.status)
    ensures var p := Replay(plan, t).phase; p.Deciding? ==>
              t.Then? && t.last.Judged? && t.last.sid == p.sid && p.code == CodeOf(t.last.status)
              && Decisive(plan, p.sid, t.last.requested, t.last.restarting)
  {
    if t.Then? {
      hide Allowed, Apply;
      PhaseOfTheLatestReap(plan, t.past);
      StepPhase(plan, Replay(plan, t.past), t.last);
    }
  }

  /** How an event changes the phase, and which one it needs. */
  lemma StepPhase(plan: Plan, w: World, e: Event)
    requires plan.Valid() && |plan.cfg| == |w.svcs| && Allowed(plan, w, e)
    ensures var p, p' := w.phase, Apply(plan, w, e).phase;
            && (e.Reaped? && e.sid >= 0 ==> p.Quiet? && p' == Reaping(e.sid, e.status))
            && (e.Judged? ==> 0 <= e.sid < |w.svcs| && p == Reaping(e.sid, e.status) && (!Going(w) ==> e.requested)
                              && p' == if Decisive(plan, e.sid, e.requested, e.restarting)
                                      then Deciding(e.sid, CodeOf(e.status)) else Quiet)
            && (e.ExitCodeSet? ==> p == Deciding(e.sid, e.code) && p' == Quiet && Going(w))
            && (e.StopAsked? ==> p.Quiet? && p' == Stopping(e.sid))
            && (e.TermSent? || e.NoEntry? ==> p == Stopping(e.sid) && p' == Quiet)
            && (!(e.Reaped? && e.sid >= 0) && !e.Judged? && !e.ExitCodeSet? && !e.StopAsked? && !e.TermSent? && !e.NoEntry? ==>
                  p' == p && !p.Deciding? && !p.Stopping?)
            && (p.Reaping? ==> e.LoggerJoined? || e.FdClosed? || e.Judged?)
            && (e.Finished? || e.TermAll? ==> p.Quiet?)
  {
    hide Timely, LaterOnesAsked, FinalStatus, CodeOf;
  }

  /** What is judged is the latest death, so no death goes unjudged before the next one. */
  lemma JudgedIsTheLatestDeath(plan: Plan, t: Trace, s: int, st: Status, requested: bool, restarting: bool)
    requires plan.Valid() && Legal(plan, Then(t, Judged(s, st, requested, restarting)))
    ensures LatestReap(t) == Reap(s, st)
  {
    PhaseOfTheLatestReap(plan, t);
    StepPhase(plan, Replay(plan, t), Judged(s, st, requested, restarting));
  }

  /** Every death of a service is judged before another service is reaped, started or stopped, and before the end. */
  lemma {:induction false} EveryDeathIsJudged(plan: Plan, p: Trace, t: Trace, s: int, pid: int, st: Status)
    requires plan.Valid() && Legal(plan, t) && s >= 0 && Prefix(Then(p, Reaped(pid, s, st)), t)
    ensures Replay(plan, t).phase == Reaping(s, st) || exists q, a, b ::
              Prefix(Then(q, Judged(s, st, a, b)), t) && Prefix(Then(p, Reaped(pid, s, st)), q)
  {
    hide Allowed, Apply;
    StepPhase(plan, Replay(plan, t.past), t.last);
    if t != Then(p, Reaped(pid, s, st)) {
      EveryDeathIsJudged(plan, p, t.past, s, pid, st);
      if Replay(plan, t.past).phase == Reaping(s, st) {
        if t.last.Judged? {
          assert Prefix(Then(t.past, Judged(s, st, t.last.requested, t.last.restarting)), t);
        }
      } else {
        var q, a, b :| Prefix(Then(q, Judged(s, st, a, b)), t.past) && Prefix(Then(p, Reaped(pid, s, st)), q);
        assert Prefix(Then(q, Judged(s, st, a, b)), t);
      }
    }
  }

  /** The exit status of a process, 128 more than the signal that ended it, or 1 when neither is known. */
  ghost predicate ExitsWith(code: int, st: Status) {
    && (forall c :: st == Exited(c) ==> code == c)
    && (forall sig :: st == Signaled(sig) ==> code == 128 + sig)
    && (st == Unknown ==> code == 1)
  }

  /** A decisive judgement is followed by the exit code at once, and by nothing else. */
  lemma DecisiveMeansExitCode(plan: Plan, t: Trace, s: int, st: Status, requested: bool, restarting: bool, e: Event)
    requires plan.Valid() && Legal(plan, Then(Then(t, Judged(s, st, requested, restarting)), e))
    ensures 0 <= s < |plan.cfg| && (e.ExitCodeSet? <==> plan.cfg[s].shutdownOnTerminate && !requested && !restarting)
    ensures e.ExitCodeSet? ==> e.sid == s && ExitsWith(e.code, st)
  {
    hide Allowed, Apply;
    var j := Judged(s, st, requested, restarting);
    StepPhase(plan, Replay(plan, t), j);
    StepPhase(plan, Replay(plan, Then(t, j)), e);
  }

  /**
   The exit code is written right after a decisive judgement on the latest death: that of a service whose
   termination asks for a shutdown, that was not being restarted, when no shutdown was requested.
   */
  lemma ExitCodeIsThatOfTheLatestDeath(plan: Plan, t: Trace, s: int, code: int)
    requires plan.Valid() && Legal(plan, Then(t, ExitCodeSet(s, code)))
    ensures 0 <= s < |plan.cfg| && plan.cfg[s].shutdownOnTerminate
    ensures t.Then? && LatestReap(t.past).Reap? && LatestReap(t.past).sid == s && ExitsWith(code, LatestReap(t.past).status)
    ensures t.last == Judged(s, LatestReap(t.past).status, false, false)
  {
    StepPhase(plan, Replay(plan, t), ExitCodeSet(s, code));
    PhaseOfTheLatestReap(plan, t);
    JudgedIsTheLatestDeath(plan, t.past, s, t.last.status, t.last.requested, t.last.restarting);
  }

  /** The first death that was decisive when it was judged. */
  ghost function FirstDecisive(plan: Plan, t: Trace): Reap {
    match t
    case Begin => NoReap
    case Then(past, e) =>
      if FirstDecisive(plan, past).Reap? then FirstDecisive(plan, past)
      else if e.Judged? && Decisive(plan, e.sid, e.requested, e.restarting) then Reap(e.sid, e.status)
      else NoReap
  }

  lemma {:induction false} DecidedByTheFirst(plan: Plan, t: Trace)
    requires plan.Valid() && Legal(plan, t)
    ensures var w, f := Replay(plan, t), FirstDecisive(plan, t);
            && (w.decided ==> f.Reap? && w.exitCode == CodeOf(f.status) && !w.phase.Deciding?)
            && (w.phase.Deciding? ==> f == Reap(w.phase.sid, f.status) && w.phase.code == CodeOf(f.status))
            && (!w.decided && !w.phase.Deciding? ==> f == NoReap)
  {
    if t.Then? {
      hide Allowed, Apply;
      DecidedByTheFirst(plan, t.past);
      StepPhase(plan, Replay(plan, t.past), t.last);
      StepFacts(plan, Replay(plan, t.past), t.last);
    }
  }

  /**
   A program whose start-up did not throw exits with the code of the first service whose death, when it
   was judged, called for a shutdown; with 0 when there was none. Whatever dies later does not matter.
   */
  lemma FirstDecisiveDeathDecides(plan: Plan, t: Trace, status: int)
    requires plan.Valid() && Legal(plan, Then(t, Finished(status))) && !Happened(t, StartUpThrew)
    ensures if FirstDecisive(plan, t).Reap? then ExitsWith(status, FirstDecisive(plan, t).status) else status == 0
  {
    DecidedByTheFirst(plan, t);
    ThrewIffItHappened(plan, t);
    StepPhase(plan, Replay(plan, t), Finished(status));
  }

  ghost predicate Happened(t: Trace, e: Event) {
    exists q :: Prefix(Then(q, e), t)
  }

  lemma HappenedBefore(t: Trace, e: Event)
    requires t.Then? && Happened(t.past, e)
    ensures Happened(t, e)
  {
    var q :| Prefix(Then(q, e), t.past);
    assert Prefix(Then(q, e), t);
  }

  lemma {:induction false} ThrewIffItHappened(plan: Plan, t: Trace)
    requires plan.Valid() && Legal(plan, t)
    ensures Replay(plan, t).threw <==> Happened(t, StartUpThrew)
  {
    if t.Then? {
      hide Allowed, Apply;
      ThrewIffItHappened(plan, t.past);
      StepFacts(plan, Replay(plan, t.past), t.last);
      if t.last == StartUpThrew {
        assert Prefix(Then(t.past, StartUpThrew), t);
      } else if Happened(t.past, StartUpThrew) {
        HappenedBefore(t, StartUpThrew);
      }
    }
  }

  lemma {:induction false} DecidedHappened(plan: Plan, t: Trace) returns (s: int)
    requires plan.Valid() && Legal(plan, t) && Replay(plan, t).decided
    ensures Happened(t, ExitCodeSet(s, Replay(plan, t).exitCode))
  {
    assert t.Then?;
    hide Allowed, Apply;
    StepFacts(plan, Replay(plan, t.past), t.last);
    if !Replay(plan, t.past).decided {
      s := t.last.sid;
      assert Prefix(Then(t.past, t.last), t);
    } else {
      s := DecidedHappened(plan, t.past);
      HappenedBefore(t, ExitCodeSet(s, Replay(plan, t).exitCode));
    }
  }

  /**
   The status of the program: 1 if start-up threw, otherwise the code that was written, otherwise 0.
   Whatever dies during the shutdown does not change it.
   */
  lemma FinalStatusExplained(plan: Plan, t: Trace, status: int)
    requires plan.Valid() && Legal(plan, Then(t, Finished(status)))
    ensures Happened(t, StartUpThrew) ==> status == 1
    ensures !Happened(t, StartUpThrew) ==>
              || (exists s :: Happened(t, ExitCodeSet(s, status)))
              || (status == 0 && forall s, c :: !Happened(t, ExitCodeSet(s, c)))
  {
    ThrewIffItHappened(plan, t);
    if !Replay(plan, t).threw {
      if Replay(plan, t).decided {
        var s := DecidedHappened(plan, t);
      } else {
        forall s, c ensures !Happened(t, ExitCodeSet(s, c)) {
          if q :| Prefix(Then(q, ExitCodeSet(s, c)), t) { DecidedIsFinal(plan, q, t, s, c); }
        }
      }
    }
  }

  // ---------------------------------------------------------------------------------------------
  // Shutdown
  // ---------------------------------------------------------------------------------------------

  lemma {:induction false} StillStopping(plan: Plan, p: Trace, t: Trace)
    requires plan.Valid() && Legal(plan, t) && Prefix(Then(p, ShutdownBegan), t)
    ensures Replay(plan, t).stopping
  {
    if t != Then(p, ShutdownBegan) {
      hide Allowed, Apply;
      StillStopping(plan, p, t.past);
      StepFacts(plan, Replay(plan, t.past), t.last);
    }
  }

  lemma {:induction false} ForksAreCounted(plan: Plan, t: Trace, q: Trace, s: int, pid: int, time: nat, cause: Cause)
    requires plan.Valid() && Legal(plan, t) && Prefix(Then(q, Forked(s, pid, time, cause)), t)
    ensures Fork(s, pid, cause) in Replay(plan, t).forks
  {
    hide Allowed, Apply;
    StepFacts(plan, Replay(plan, t.past), t.last);
    if t != Then(q, Forked(s, pid, time, cause)) { ForksAreCounted(plan, t.past, q, s, pid, time, cause); }
  }

  lemma {:induction false} NeverGoingAgain(plan: Plan, p: Trace, t: Trace)
    requires plan.Valid() && Legal(plan, t) && Legal(plan, p) && Prefix(p, t) && !Going(Replay(plan, p))
    ensures !Going(Replay(plan, t))
  {
    if t != p {
      hide Allowed, Apply;
      NeverGoingAgain(plan, p, t.past);
      StepFacts(plan, Replay(plan, t.past), t.last);
    }
  }

  /** Once the exit code is written, the start-up threw or the shutdown began, no service is started. */
  lemma NothingStartsAfterTheEnd(plan: Plan, p: Trace, end: Event, t: Trace, s: int, pid: int, time: nat, cause: Cause)
    requires plan.Valid() && Prefix(Then(p, end), t) && (end.ExitCodeSet? || end.StartUpThrew? || end.ShutdownBegan?)
    ensures !Legal(plan, Then(t, Forked(s, pid, time, cause)))
  {
    if Legal(plan, t) {
      PrefixIsLegal(plan, Then(p, end), t);
      NeverGoingAgain(plan, Then(p, end), t);
    }
  }

  /** Once the shutdown has begun, no service is started and no exit code is written. */
  lemma NothingStartsInShutdown(plan: Plan, p: Trace, t: Trace, e: Event)
    requires plan.Valid() && Prefix(Then(p, ShutdownBegan), t) && (e.Forked? || e.ExitCodeSet? || e.Ready?)
    ensures !Legal(plan, Then(t, e))
  {
    if Legal(plan, t) { StillStopping(plan, p, t); }
  }

  lemma {:induction false} FloorOnlySinks(plan: Plan, p: Trace, t: Trace, s: int, i: nat)
    requires plan.Valid() && Legal(plan, t) && Prefix(Then(p, StopAsked(s, i)), t)
    ensures Replay(plan, t).stopping && Replay(plan, t).floor <= i
  {
    if t != Then(p, StopAsked(s, i)) {
      hide Allowed, Apply;
      FloorOnlySinks(plan, p, t.past, s, i);
      StepFacts(plan, Replay(plan, t.past), t.last);
      StepOrder(plan, Replay(plan, t.past), t.last);
    }
  }

  lemma {:induction false} TermAllHappened(plan: Plan, t: Trace) returns (q: Trace)
    requires plan.Valid() && Legal(plan, t) && Replay(plan, t).termAll != NEVER
    ensures Replay(plan, t).termAll >= 0 && Prefix(Then(q, TermAll(Replay(plan, t).termAll)), t)
  {
    assert t.Then?;
    hide Allowed, Apply;
    StepFacts(plan, Replay(plan, t.past), t.last);
    if Replay(plan, t.past).termAll == Replay(plan, t).termAll {
      q := TermAllHappened(plan, t.past);
    } else {
      q := t.past;
    }
  }

  /**
   SIGKILL goes to everyone only when the grace time has passed since SIGTERM went to everyone.
   */
  lemma KillingComesLast(plan: Plan, t: Trace, time: nat) returns (q: Trace, told: nat)
    requires plan.Valid() && Legal(plan, Then(t, KillAll(time)))
    ensures Prefix(Then(q, TermAll(told)), t) && time - told >= plan.gracetime
  {
    hide Apply, InPhase, LaterOnesAsked, Prefix;
    q := TermAllHappened(plan, t);
    told := Replay(plan, t).termAll;
    PrefixIsLegal(plan, Then(q, TermAll(told)), t);
  }

  /** SIGTERM goes to everyone only when each service still alive then, groups aside, had been told to stop on its own. */
  lemma EachIsToldFirst(plan: Plan, t: Trace, time: nat, j: nat)
    requires plan.Valid() && Legal(plan, Then(t, TermAll(time))) && j < |plan.order|
    ensures var x := plan.order[j]; plan.cfg[x].isGroup || Replay(plan, t).svcs[x].pid == 0 || Told(plan, t, x)
  {
    var x := plan.order[j];
    if Replay(plan, t).svcs[x].asked {
      StepPhase(plan, Replay(plan, t), TermAll(time));
      AskedMeansTold(plan, t, x);
    }
  }

  /** The services are stopped along the reversed start order: a subsequence of it, without repetition. */
  lemma StopsGoBackwards(plan: Plan, p: Trace, t: Trace, s: int, i: nat, s': int, i': nat)
    requires plan.Valid() && Legal(plan, Then(t, StopAsked(s', i'))) && Prefix(Then(p, StopAsked(s, i)), t)
    ensures i' < i < |plan.order| && plan.order[i] == s && plan.order[i'] == s'
  {
    FloorOnlySinks(plan, p, t, s, i);
    PrefixIsLegal(plan, Then(p, StopAsked(s, i)), t);
  }

  lemma {:induction false} AskedHappened(plan: Plan, t: Trace, s: int)
    requires plan.Valid() && Legal(plan, t) && 0 <= s < |plan.cfg| && Replay(plan, t).svcs[s].asked
    ensures exists i: nat :: Happened(t, StopAsked(s, i))
  {
    if t.Then? {
      hide Allowed, Apply;
      AskedCauses(plan, Replay(plan, t.past), t.last, s);
      if Replay(plan, t.past).svcs[s].asked {
        AskedHappened(plan, t.past, s);
        var i: nat :| Happened(t.past, StopAsked(s, i));
        HappenedBefore(t, StopAsked(s, i));
      } else {
        assert Prefix(Then(t.past, StopAsked(s, t.last.i)), t);
        assert Happened(t, StopAsked(s, t.last.i));
      }
    }
  }

  /**
   Asking a live service to stop means that SIGTERM goes to its pid at once, unless its directory cannot be
   entered; nothing else happens in between.
   */
  lemma AskedIsTold(plan: Plan, t: Trace, s: int, i: int, e: Event)
    requires plan.Valid() && Legal(plan, Then(Then(t, StopAsked(s, i)), e))
    ensures 0 <= s < |plan.cfg| == |Replay(plan, t).svcs|
    ensures e == NoEntry(s) || (e == TermSent(s, Replay(plan, t).svcs[s].pid) && e.pid > 0)
  {
    hide Timely, LaterOnesAsked, Services;
    var w := Replay(plan, t);
    StepPhase(plan, w, StopAsked(s, i));
    StepPhase(plan, Replay(plan, Then(t, StopAsked(s, i))), e);
    Effect(plan, w, StopAsked(s, i), s);
  }

  lemma {:induction false} StoppingWasAsked(plan: Plan, t: Trace)
    requires plan.Valid() && Legal(plan, t) && Replay(plan, t).phase.Stopping?
    ensures t.Then? && t.last.StopAsked? && t.last.sid == Replay(plan, t).phase.sid
  {
    assert t.Then?;
    hide Allowed, Apply;
    StepPhase(plan, Replay(plan, t.past), t.last);
  }

  /** SIGTERM goes to a single service only when it was just asked to stop. */
  lemma OnlyTheAskedAreTold(plan: Plan, t: Trace, s: int, pid: int)
    requires plan.Valid() && Legal(plan, Then(t, TermSent(s, pid)))
    ensures t.Then? && t.last.StopAsked? && t.last.sid == s
    ensures 0 <= s < |plan.cfg| == |Replay(plan, t).svcs| && pid == Replay(plan, t).svcs[s].pid > 0
  {
    StepPhase(plan, Replay(plan, t), TermSent(s, pid));
    StoppingWasAsked(plan, t);
  }

  /** On the way to t the live service was asked to stop by the shutdown, and told so if its directory could be entered. */
  ghost predicate Told(plan: Plan, t: Trace, s: int)
    requires 0 <= s < |plan.cfg|
  {
    exists q, i: nat, e ::
      && Prefix(Then(Then(q, StopAsked(s, i)), e), t) && |Replay(plan, q).svcs| == |plan.cfg|
      && (e == NoEntry(s) || (e == TermSent(s, Replay(plan, q).svcs[s].pid) && e.pid > 0))
  }

  lemma {:induction false} AskedThenTold(plan: Plan, q: Trace, t: Trace, s: int, i: nat)
    requires plan.Valid() && Legal(plan, t) && Prefix(Then(q, StopAsked(s, i)), t) && 0 <= s < |plan.cfg|
    requires !Replay(plan, t).phase.Stopping?
    ensures Told(plan, t, s)
  {
    hide Allowed, Apply;
    var asked := Then(q, StopAsked(s, i));
    PrefixIsLegal(plan, asked, t);
    StepPhase(plan, Replay(plan, q), StopAsked(s, i));
    assert t != asked;
    var next := NextAfter(asked, t);
    PrefixIsLegal(plan, next, t);
    AskedIsTold(plan, q, s, i, next.last);
    assert next == Then(asked, next.last);
  }

  /** The moment right after p on the way to t. */
  lemma {:induction false} NextAfter(p: Trace, t: Trace) returns (next: Trace)
    requires Prefix(p, t) && p != t
    ensures next.Then? && next.past == p && Prefix(next, t)
  {
    if t.past == p { next := t; } else { next := NextAfter(p, t.past); }
  }

  /** When a service is stopped, those that come later in the order are dead or were told to stop before. */
  lemma LaterOnesAreAskedFirst(plan: Plan, t: Trace, s: int, i: nat, j: nat)
    requires plan.Valid() && Legal(plan, Then(t, StopAsked(s, i))) && i < j < |plan.order|
    ensures var x := plan.order[j]; plan.cfg[x].isGroup || Replay(plan, t).svcs[x].pid == 0 || Told(plan, t, x)
  {
    var x := plan.order[j];
    if Replay(plan, t).svcs[x].asked {
      StepPhase(plan, Replay(plan, t), StopAsked(s, i));
      AskedMeansTold(plan, t, x);
    }
  }

  lemma AskedMeansTold(plan: Plan, t: Trace, x: int)
    requires plan.Valid() && Legal(plan, t) && 0 <= x < |plan.cfg| && Replay(plan, t).svcs[x].asked
    requires Replay(plan, t).phase.Quiet?
    ensures Told(plan, t, x)
  {
    hide Allowed, Apply, Legal, Replay, Told;
    AskedHappened(plan, t, x);
    var k: nat :| Happened(t, StopAsked(x, k));
    var q :| Prefix(Then(q, StopAsked(x, k)), t);
    AskedThenTold(plan, q, t, x, k);
  }
}
