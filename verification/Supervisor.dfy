/**
 The supervisor: start-up pass, reaping, restarts, shutdown. Every method keeps Inv, also when the
 run is cut inside it, so Inv holds at every system call of every run.
 */
module Supervisor {
  import opened Kernel
  import opened Protocol

  const SERVICE_READINESS_CHECK_INTERVAL: nat := 250
  const INT_MAX: nat := 0x7FFF_FFFF

  /** The part of a service's table entry that changes while services run. */
  datatype Service = Service(pid: int, startTime: nat, outputFd: bool, loggerStarted: bool, restartRequested: bool)

  const STOPPED := Service(0, 0, false, false, false)

  /** A table entry and what the trace says about the service. */
  predicate Matches(s: Service, v: Svc, clock: nat) {
    && s.pid == v.pid && s.loggerStarted == v.logger && s.outputFd == v.fd && s.restartRequested == v.restarting
    && v.forked <= s.startTime <= clock
    && 0 <= s.pid && (s.pid != 0 <==> s.outputFd) && (s.loggerStarted ==> s.pid != 0)
  }

  /**
   Live services have distinct pids, all unreaped; an open descriptor means a live service and the
   other way round; a started logger implies a live service; and the table agrees with the trace.
   */
  ghost predicate Sound(srv: seq<Service>, svcs: seq<Svc>, kids: set<int>, clock: nat) {
    && |srv| == |svcs|
    && (forall s :: 0 <= s < |srv| ==> Matches(srv[s], svcs[s], clock))
    && (forall s :: 0 <= s < |srv| && srv[s].pid != 0 ==> srv[s].pid in kids)
    && (forall s, x :: 0 <= s < x < |srv| && srv[s].pid != 0 ==> srv[s].pid != srv[x].pid)
  }

  lemma SoundLater(srv: seq<Service>, svcs: seq<Svc>, kids: set<int>, clock: nat, kids': set<int>, clock': nat)
    requires Sound(srv, svcs, kids, clock) && kids <= kids' && clock <= clock'
    ensures Sound(srv, svcs, kids', clock')
  {}

  lemma SoundAt(srv: seq<Service>, svcs: seq<Svc>, kids: set<int>, clock: nat, s: int)
    requires Sound(srv, svcs, kids, clock) && 0 <= s < |srv|
    ensures |svcs| == |srv| && Matches(srv[s], svcs[s], clock)
  {}

  lemma OneOwner(srv: seq<Service>, svcs: seq<Svc>, kids: set<int>, clock: nat, s: int)
    requires Sound(srv, svcs, kids, clock) && 0 <= s < |srv| && srv[s].pid != 0
    ensures forall x :: 0 <= x < |srv| && srv[x].pid == srv[s].pid ==> x == s
  {}

  /** One service changes and agrees with the trace again; its pid is its own. */
  lemma OneChanged(srv: seq<Service>, svcs: seq<Svc>, kids: set<int>, clock: nat, s: int, new': Service, v: Svc)
    requires Sound(srv, svcs, kids, clock) && 0 <= s < |srv| && Matches(new', v, clock) && new'.pid == srv[s].pid
    ensures Sound(srv[s := new'], svcs[s := v], kids, clock)
  {}

  /** A stopped service is down in the trace as well, and a new child's pid is nobody's. */
  lemma SoundForFork(srv: seq<Service>, svcs: seq<Svc>, kids: set<int>, clock: nat, s: int, pid: int)
    requires Sound(srv, svcs, kids - {pid}, clock) && 0 <= s < |srv| && srv[s].pid == 0 && pid > 0
    ensures |svcs| == |srv| && Matches(srv[s], svcs[s], clock) && forall x :: 0 <= x < |svcs| ==> svcs[x].pid != pid
  {
    forall x | 0 <= x < |svcs| ensures svcs[x].pid != pid { assert Matches(srv[x], svcs[x], clock); }
  }

  lemma OneForked(srv: seq<Service>, svcs: seq<Svc>, kids: set<int>, clock: nat, s: int, new': Service, v: Svc)
    requires 0 <= s < |srv| && Sound(srv, svcs, kids - {new'.pid}, clock) && Matches(new', v, clock)
    requires new'.pid != 0 && new'.pid in kids
    ensures Sound(srv[s := new'], svcs[s := v], kids, clock)
  {}

  function Stopped(s: Service): Service {
    s.(pid := 0, outputFd := false, loggerStarted := false)
  }

  lemma BuryKeepsSound(srv: seq<Service>, svcs: seq<Svc>, kids: set<int>, clock: nat, sid: int, st: Status)
    requires 0 <= sid < |srv| && srv[sid].pid > 0 && Sound(srv, svcs, kids + {srv[sid].pid}, clock)
    ensures Sound(srv[sid := Stopped(srv[sid])], svcs[sid := Buried(svcs[sid], st)], kids, clock)
  {
    var killed := srv[sid].pid;
    forall s | 0 <= s < |srv| && s != sid && srv[s].pid != 0 ensures srv[s].pid in kids {
      assert srv[s].pid != killed by { if s < sid {} else {} }
    }
  }

  /** What a call that only reaps or starts leaves as it was; flag tells whether shutdown was requested before it. */
  ghost predicate Keeps(w: World, w': World, flag: bool) {
    && |w'.svcs| == |w.svcs| && w'.threw == w.threw && w'.stopping == w.stopping && w'.floor == w.floor
    && w'.termAll == w.termAll && w'.killAll == w.killAll
    && (flag ==> w'.exitCode == w.exitCode && w'.decided == w.decided)
    && (forall s :: 0 <= s < |w.svcs| ==>
          && w'.svcs[s].asked == w.svcs[s].asked
          && (w.svcs[s].ready ==> w'.svcs[s].ready) && (w.svcs[s].exitedZero ==> w'.svcs[s].exitedZero))
  }

  lemma KeepsTwice(w: World, w': World, w'': World, flag: bool, flag': bool)
    requires Keeps(w, w', flag) && Keeps(w', w'', flag') && (flag ==> flag')
    ensures Keeps(w, w'', flag) && w''.stopping == w.stopping && w''.threw == w.threw && (flag' ==> w''.decided == w'.decided)
  {}

  lemma KeepsItself(w: World, flag: bool)
    ensures Keeps(w, w, flag)
  {}

  // ---------------------------------------------------------------------------------------------
  // What the system answered
  // ---------------------------------------------------------------------------------------------

  predicate Said(r: Reply, what: Request) {
    r.Answered? && r.what == what
  }

  /** From the first n answers on there was no pause. */
  predicate NoPause(rs: seq<Reply>, n: nat) {
    forall i :: n <= i < |rs| ==> !rs[i].Slept?
  }

  predicate Refused(rs: seq<Reply>, what: Request) {
    |rs| == 1 && Said(rs[0], what) && rs[0].result != 0
  }

  /** After the first n answers came one to the question for a command. */
  predicate CommandRead(rs: seq<Reply>, n: nat) {
    n < |rs| && exists i :: n <= i < |rs| && Said(rs[i], NextCommand)
  }

  /**
   From the first n answers on, the first of which is the time, each pause is as short as can be and comes only
   while the period is not over, which was read off the clock right before, or has no end.
   */
  ghost predicate PausesInTime(rs: seq<Reply>, n: nat, period: int) {
    forall i :: n < i < |rs| && rs[i].Slept? ==>
      && rs[i].msec == 50 && period != 0 && rs[n].ReadTime?
      && (period > 0 ==> rs[i - 1].ReadTime? && rs[i - 1].time - rs[n].time < period)
  }

  lemma PausesMore(rs: seq<Reply>, more: seq<Reply>, n: nat, period: int)
    requires rs <= more && (n < |rs| ==> PausesInTime(rs, n, period)) && NoPause(more, if n < |rs| then |rs| else n)
    ensures PausesInTime(more, n, period)
  {
    forall i | n < i < |more| && more[i].Slept? ensures n < i < |rs| && rs[i] == more[i] {}
  }

  lemma PauseInTime(rs: seq<Reply>, n: nat, period: int)
    requires PausesInTime(rs, n, period) && n < |rs| && rs[n].ReadTime? && period != 0
    requires period > 0 ==> var last := rs[|rs| - 1]; last.ReadTime? && last.time - rs[n].time < period
    ensures PausesInTime(rs + [Slept(50)], n, period)
  {
    var more := rs + [Slept(50)];
    forall i | n < i < |more| && more[i].Slept? ensures
      && more[i].msec == 50 && (period > 0 ==> more[i - 1].ReadTime? && more[i - 1].time - more[n].time < period)
    {
      assert i < |rs| ==> rs[i] == more[i] && rs[i - 1] == more[i - 1];
    }
  }

  /** A program of the current directory was run if it was found. */
  predicate RanIfFound(rs: seq<Reply>, sid: int, program: Program, arg: int) {
    || Refused(rs, FindProgram(program))
    || (|rs| == 2 && rs[0] == Answered(FindProgram(program), 0) && Said(rs[1], RunProgram(sid, program, arg)))
  }

  /** The directory of the service was entered first. */
  predicate Entered(rs: seq<Reply>, sid: int) {
    rs != [] && rs[0] == Answered(EnterDirectory(sid), 0)
  }

  /** The finish script of the service was run if its directory and the script are there. */
  predicate FinishAnswers(rs: seq<Reply>, sid: int, arg: int) {
    Refused(rs, EnterDirectory(sid)) || (Entered(rs, sid) && RanIfFound(rs[1..], sid, Finish, arg))
  }

  /** What the finish script learns of the death. */
  function FinishArg(st: Status): int {
    match st
    case Exited(c) => c
    case Signaled(s) => 128 + s
    case Unknown => 126
  }

  /** The kill program was run if it is there, and SIGTERM was sent. */
  predicate StopAnswers(rs: seq<Reply>, sid: int, pid: int) {
    && |rs| >= 2 && Entered(rs, sid)
    && RanIfFound(rs[1..|rs| - 1], sid, Kill, pid) && Said(rs[|rs| - 1], SignalTerm(pid))
  }

  /** A fork that made no process is followed by a pause. */
  function NoProcess(n: nat): (rs: seq<Reply>)
    ensures |rs| == 2 * n
  {
    if n == 0 then [] else NoProcess(n - 1) + [NewProcess(0), Slept(500)]
  }

  /** The answers to the creation of a logger thread: up tells whether it runs. */
  predicate LoggerAnswers(rs: seq<Reply>, sid: int, up: bool) {
    || (!up && Refused(rs, AllocateMemory))
    || (|rs| == 2 && rs[0] == Answered(AllocateMemory, 0) && Said(rs[1], CreateThread(sid)) && (up <==> rs[1].result == 0))
  }

  /** A try that made a process. */
  predicate ProcessAnswers(rs: seq<Reply>, sid: int, pid: int, up: bool) {
    rs != [] && rs[0] == NewProcess(pid) && pid > 0 && LoggerAnswers(rs[1..], sid, up)
  }

  /**
   The answers to the start of a service: its directory cannot be entered; or four forks make no process; or
   one of the four does, of this pid, and then the logger was created or not, which is what up tells.
   */
  ghost predicate StartAnswers(rs: seq<Reply>, sid: int, pid: int, up: bool) {
    || (pid == 0 && !up && Refused(rs, EnterDirectory(sid)))
    || (pid == 0 && !up && Entered(rs, sid) && rs[1..] == NoProcess(4))
    || (Entered(rs, sid) && exists n: nat :: n < 4 && Forks(rs[1..], n, sid, pid, up))
  }

  /** After n forks without a process comes one that makes it. */
  predicate Forks(rs: seq<Reply>, n: nat, sid: int, pid: int, up: bool) {
    NoProcess(n) <= rs && ProcessAnswers(rs[2 * n..], sid, pid, up)
  }

  /** The last answer is to a wait for any child, and names this one. */
  predicate FoundDead(rs: seq<Reply>, pid: int) {
    rs != [] && var last := rs[|rs| - 1]; last.WaitedFor? && last.pid == 0 && last.wait.pid == pid
  }

  predicate InterruptedWait(rs: seq<Reply>, pid: int) {
    rs != [] && var last := rs[|rs| - 1]; last.WaitedFor? && last.pid == pid && last.wait.pid == EINTR
  }

  predicate FoundAlive(rs: seq<Reply>, pid: int) {
    rs != [] && var last := rs[|rs| - 1]; last.WaitedFor? && last.pid == pid && last.wait.pid == 0
  }

  /** From the first n answers on, each pause is of half a second, and the process was found alive right before it. */
  predicate WatchedWhileWaiting(rs: seq<Reply>, n: nat, pid: int) {
    forall i :: n <= i < |rs| && rs[i].Slept? ==>
      rs[i].msec == 500 && i > n && rs[i - 1].WaitedFor? && rs[i - 1].pid == pid && rs[i - 1].wait.pid == 0
  }

  lemma WatchedNot(rs: seq<Reply>, pid: int)
    ensures WatchedWhileWaiting(rs, |rs|, pid)
  {}

  lemma WatchedMore(rs: seq<Reply>, more: seq<Reply>, n: nat, pid: int)
    requires rs <= more && n <= |rs| && WatchedWhileWaiting(rs, n, pid) && NoPause(more, |rs|)
    ensures WatchedWhileWaiting(more, n, pid)
  {
    forall i | n <= i < |more| && more[i].Slept? ensures i < |rs| && rs[i] == more[i] {}
  }

  lemma WatchedPause(rs: seq<Reply>, n: nat, pid: int)
    requires n < |rs| && WatchedWhileWaiting(rs, n, pid) && FoundAlive(rs, pid)
    ensures WatchedWhileWaiting(rs + [Slept(500)], n, pid)
  {
    var more := rs + [Slept(500)];
    forall i | n <= i < |more| && more[i].Slept? ensures
      more[i].msec == 500 && i > n && more[i - 1].WaitedFor? && more[i - 1].pid == pid && more[i - 1].wait.pid == 0
    {
      assert i < |rs| ==> rs[i] == more[i] && (i > 0 ==> rs[i - 1] == more[i - 1]);
    }
  }

  lemma CheckedNot(rs: seq<Reply>, sid: int, pid: int, startTime: nat, timeout: nat)
    ensures CheckedInTime(rs, |rs|, sid, pid, startTime, timeout)
  {}

  lemma CheckedMore(rs: seq<Reply>, more: seq<Reply>, n: nat, sid: int, pid: int, startTime: nat, timeout: nat)
    requires rs <= more && n <= |rs| && CheckedInTime(rs, n, sid, pid, startTime, timeout)
    requires forall i :: |rs| <= i < |more| ==> !Said(more[i], RunProgram(sid, IsReady, pid))
    ensures CheckedInTime(more, n, sid, pid, startTime, timeout)
  {
    forall i | n <= i < |more| && Said(more[i], RunProgram(sid, IsReady, pid)) ensures i < |rs| && rs[i] == more[i] {}
  }

  lemma CheckedAgain(rs: seq<Reply>, n: nat, sid: int, pid: int, startTime: nat, timeout: nat, time: nat, code: int)
    requires n <= |rs| && CheckedInTime(rs, n, sid, pid, startTime, timeout) && time - startTime < timeout
    ensures var more := rs + [ReadTime(time)] + [Answered(ProbeProcess(pid), 0)] + [Answered(RunProgram(sid, IsReady, pid), code)];
            CheckedInTime(more, n, sid, pid, startTime, timeout)
  {
    var more := rs + [ReadTime(time)] + [Answered(ProbeProcess(pid), 0)] + [Answered(RunProgram(sid, IsReady, pid), code)];
    forall i | n <= i < |more| && Said(more[i], RunProgram(sid, IsReady, pid)) ensures
      && i >= n + 2 && more[i - 1] == Answered(ProbeProcess(pid), 0)
      && more[i - 2].ReadTime? && more[i - 2].time - startTime < timeout
    {
      if i < |rs| { assert rs[i] == more[i] && rs[i - 1] == more[i - 1] && rs[i - 2] == more[i - 2]; }
    }
  }

  /**
   From the first n answers on, the readiness check was run only before its time was up, which was read off
   the clock, and while the process existed, which was found out in between.
   */
  predicate CheckedInTime(rs: seq<Reply>, n: nat, sid: int, pid: int, startTime: nat, timeout: nat) {
    forall i :: n <= i < |rs| && Said(rs[i], RunProgram(sid, IsReady, pid)) ==>
      && i >= n + 2 && rs[i - 1] == Answered(ProbeProcess(pid), 0)
      && rs[i - 2].ReadTime? && rs[i - 2].time - startTime < timeout
  }

  /** The last answer says that the process could not be waited for; patient tells that an interruption does not count. */
  predicate WaitError(rs: seq<Reply>, pid: int, patient: bool) {
    && rs != [] && var last := rs[|rs| - 1];
       last.WaitedFor? && last.pid == pid && last.wait.pid < 0 && (patient ==> last.wait.pid != EINTR)
  }

  /** The last answer says that the directory is gone, that the process is, or that its time is up. */
  predicate NotReady(rs: seq<Reply>, sid: int, pid: int, startTime: nat, timeout: nat) {
    && rs != [] && var last := rs[|rs| - 1];
       || (last.Answered? && last.result != 0 && (last.what == EnterDirectory(sid) || last.what == ProbeProcess(pid)))
       || (last.ReadTime? && last.time - startTime >= timeout)
  }

  /** A start that is over: the process it made, or 0, and whether its logger runs. */
  datatype Start = Start(sid: int, cause: Cause, pid: int, up: bool, replies: seq<Reply>)

  /** The forks that the starts amount to. */
  ghost function ForksOf(starts: seq<Start>): seq<Fork> {
    if starts == [] then []
    else
      var last := starts[|starts| - 1];
      ForksOf(starts[..|starts| - 1]) + if last.pid != 0 then [Fork(last.sid, last.pid, last.cause)] else []
  }

  /** Every attempt is over, ended as the system's answers say, and made the processes there are in the trace. */
  ghost predicate Booked(tried: seq<(int, Cause)>, starts: seq<Start>, forks: seq<Fork>) {
    && |starts| == |tried| && forks == ForksOf(starts)
    && forall i :: 0 <= i < |tried| ==>
         && tried[i] == (starts[i].sid, starts[i].cause)
         && StartAnswers(starts[i].replies, starts[i].sid, starts[i].pid, starts[i].up)
  }

  /** The last attempt is not over; forked tells whether its process was made. */
  ghost predicate Underway(tried: seq<(int, Cause)>, starts: seq<Start>, forks: seq<Fork>, forked: bool) {
    && tried != [] && (forked ==> forks != [])
    && Booked(tried[..|tried| - 1], starts, if forked then forks[..|forks| - 1] else forks)
    && (forked ==> var f := forks[|forks| - 1]; f.pid > 0 && (f.sid, f.cause) == tried[|tried| - 1])
  }

  function Made(sid: int, pid: int, cause: Cause): Fork {
    Fork(sid, pid, cause)
  }

  /** The answers of a start one of whose forks made a process. */
  lemma AnswersOfFork(start: seq<Reply>, before: seq<Reply>, after: seq<Reply>, sid: int, n: nat, pid: int, up: bool)
    requires before == start + [Answered(EnterDirectory(sid), 0)] + NoProcess(n) && before <= after && n < 4
    requires ProcessAnswers(after[|before|..], sid, pid, up)
    ensures start <= after && StartAnswers(after[|start|..], sid, pid, up)
  {
    var rs := after[|start|..];
    assert rs[0] == before[|start|];
    assert rs[1..][..2 * n] == NoProcess(n);
    assert rs[1..][2 * n..] == after[|before|..];
    assert Forks(rs[1..], n, sid, pid, up);
  }

  lemma AnswersOfRefusal(start: seq<Reply>, after: seq<Reply>, sid: int, x: int)
    requires after == start + [Answered(EnterDirectory(sid), x)] && x != 0
    ensures start <= after && StartAnswers(after[|start|..], sid, 0, false)
  {}

  lemma AnswersOfNone(start: seq<Reply>, after: seq<Reply>, sid: int)
    requires after == start + [Answered(EnterDirectory(sid), 0)] + NoProcess(4)
    ensures start <= after && StartAnswers(after[|start|..], sid, 0, false)
  {
    assert after[|start|..][1..] == NoProcess(4);
  }

  lemma AnswersOfStop(start: seq<Reply>, killed: seq<Reply>, after: seq<Reply>, sid: int, pid: int)
    requires start + [Answered(EnterDirectory(sid), 0)] <= killed && RanIfFound(killed[|start| + 1..], sid, Kill, pid)
    requires exists x :: after == killed + [Answered(SignalTerm(pid), x)]
    ensures StopAnswers(after[|start|..], sid, pid)
  {
    var answers := after[|start|..];
    assert answers[0] == killed[|start|];
    assert after[|start| + 1..|after| - 1] == killed[|start| + 1..];
    assert answers[1..|answers| - 1] == after[|start| + 1..|after| - 1];
  }

  lemma NoForkYet(rs: seq<Reply>)
    ensures rs == rs + NoProcess(0)
  {}

  lemma OneMoreFork(start: seq<Reply>, after: seq<Reply>, n: nat)
    requires after == start + NoProcess(n) + [NewProcess(0)] + [Slept(500)]
    ensures after == start + NoProcess(n + 1)
  {}

  lemma Begun(tried: seq<(int, Cause)>, starts: seq<Start>, forks: seq<Fork>, x: (int, Cause))
    requires Booked(tried, starts, forks)
    ensures Underway(tried + [x], starts, forks, false)
  {
    assert (tried + [x])[..|tried|] == tried;
  }

  lemma MadeProcess(tried: seq<(int, Cause)>, starts: seq<Start>, forks: seq<Fork>, pid: int)
    requires Underway(tried, starts, forks, false) && pid > 0
    ensures var (sid, cause) := tried[|tried| - 1]; Underway(tried, starts, forks + [Fork(sid, pid, cause)], true)
  {
    var (sid, cause) := tried[|tried| - 1];
    assert (forks + [Fork(sid, pid, cause)])[..|forks|] == forks;
  }

  /** An attempt ends. */
  lemma BookOne(tried: seq<(int, Cause)>, starts: seq<Start>, forks: seq<Fork>, s: Start)
    requires Underway(tried, starts, forks, s.pid != 0) && tried[|tried| - 1] == (s.sid, s.cause)
    requires StartAnswers(s.replies, s.sid, s.pid, s.up) && (s.pid != 0 ==> forks[|forks| - 1].pid == s.pid)
    ensures Booked(tried, starts + [s], forks)
  {
    var more := starts + [s];
    assert more[..|starts|] == starts;
    var before := tried[..|tried| - 1];
    forall i | 0 <= i < |tried| ensures
      && tried[i] == (more[i].sid, more[i].cause)
      && StartAnswers(more[i].replies, more[i].sid, more[i].pid, more[i].up)
    {
      if i < |tried| - 1 { assert tried[i] == before[i]; }
    }
    if s.pid != 0 {
      assert forks == forks[..|forks| - 1] + [forks[|forks| - 1]];
    } else {
      assert forks + [] == forks;
    }
  }

  /** The judgement on a death comes last, but for the exit code when it is decisive. */
  ghost predicate EndsJudged(plan: Plan, t: Trace, s: int, status: Status, requested: bool, restarting: bool) {
    t.Then? &&
    if Decisive(plan, s, requested, restarting)
    then t.last == ExitCodeSet(s, CodeOf(status)) && t.past.Then? && t.past.last == Judged(s, status, requested, restarting)
    else t.last == Judged(s, status, requested, restarting)
  }

  /** The restart of a service is noted right after SIGTERM went to its pid, when it had one. */
  ghost predicate Requested(t: Trace, s: int, pid: int) {
    && t.Then? && t.last == RestartSet(s, true)
    && (pid != 0 ==> t.past.Then? && t.past.last == TermSent(s, pid))
  }

  /** No service was started, and a table entry changed only when its service was reaped. */
  ghost predicate OnlyReaped(srv: seq<Service>, srv': seq<Service>) {
    |srv'| == |srv| && forall s :: 0 <= s < |srv| ==> srv'[s] == srv[s] || srv'[s] == Stopped(srv[s])
  }

  /** None of the first n services of the order holds back the others. */
  ghost predicate AllCleared(plan: Plan, w: World, n: nat)
    requires plan.Valid() && n <= |plan.order| && |plan.cfg| == |w.svcs|
  {
    forall j :: 0 <= j < n ==> Cleared(plan, w, plan.order[j])
  }

  lemma AllStayCleared(plan: Plan, w: World, w': World, flag: bool, n: nat)
    requires plan.Valid() && n <= |plan.order| && |plan.cfg| == |w.svcs| && AllCleared(plan, w, n) && Keeps(w, w', flag)
    ensures AllCleared(plan, w', n)
  {
    forall j | 0 <= j < n ensures Cleared(plan, w', plan.order[j]) {
      assert Cleared(plan, w, plan.order[j]);
    }
  }

  lemma AllClearedTimely(plan: Plan, w: World, n: nat, time: nat)
    requires plan.Valid() && n < |plan.order| && |plan.cfg| == |w.svcs|
    ensures AllCleared(plan, w, n) ==> Timely(plan, w, plan.order[n], time, StartUp(n))
  {}

  lemma AllClearedNext(plan: Plan, w: World, n: nat)
    requires plan.Valid() && n < |plan.order| && |plan.cfg| == |w.svcs|
    ensures AllCleared(plan, w, n) && Cleared(plan, w, plan.order[n]) ==> AllCleared(plan, w, n + 1)
  {}

  ghost function StartUpOf(plan: Plan, i: nat): seq<(int, Cause)>
    requires plan.Valid() && i < |plan.order|
  {
    if plan.cfg[plan.order[i]].isGroup then [] else [(plan.order[i], StartUp(i))]
  }

  lemma PassBegins(plan: Plan, w: World, srv: seq<Service>)
    requires plan.Valid() && |plan.cfg| == |w.svcs| == |srv| && forall s :: 0 <= s < |srv| ==> srv[s].pid == 0
    ensures StartUps(plan, 0) == [] && AllCleared(plan, w, 0) && RestDown(plan, srv, 0)
  {}

  /** The attempts of the start-up pass up to position n. */
  ghost function StartUps(plan: Plan, n: nat): seq<(int, Cause)>
    requires plan.Valid() && n <= |plan.order|
  {
    if n == 0 then [] else StartUps(plan, n - 1) + StartUpOf(plan, n - 1)
  }

  /** They are the entries that are no groups, each once and in order. */
  lemma {:induction false} StartUpsAre(plan: Plan, n: nat)
    requires plan.Valid() && n <= |plan.order|
    ensures forall x :: x in StartUps(plan, n) <==>
              x.1.StartUp? && x.1.i < n && plan.order[x.1.i] == x.0 && !plan.cfg[x.0].isGroup
    ensures var ups := StartUps(plan, n); forall j, k :: 0 <= j < k < |ups| ==> ups[j].1.i < ups[k].1.i
  {
    if n > 0 {
      StartUpsAre(plan, n - 1);
      var before, ups, last := StartUps(plan, n - 1), StartUps(plan, n), StartUpOf(plan, n - 1);
      assert ups == before + last;
      forall j, k | 0 <= j < k < |ups| ensures ups[j].1.i < ups[k].1.i {
        var x := before[j];
        assert ups[j] == x && x in StartUps(plan, n - 1);
        if k < |before| {
          assert ups[k] == before[k];
          assert before[j].1.i < before[k].1.i;
        } else {
          assert ups[k] == last[k - |before|] && k == |before|;
          assert ups[k].1 == StartUp(n - 1);
          assert x.1.i < n - 1;
        }
      }
    }
  }

  lemma StartUpsNext(plan: Plan, tried: seq<(int, Cause)>, n: nat)
    requires plan.Valid() && n < |plan.order|
    ensures tried + StartUps(plan, n + 1) == tried + StartUps(plan, n) + StartUpOf(plan, n)
  {}

  lemma NoneLater(plan: Plan, w: World, i: int)
    requires plan.Valid() && |plan.cfg| == |w.svcs| && i == |plan.order| - 1
    ensures LaterOnesAsked(plan, w, i)
  {}

  /** No service from position i of the order on is live. */
  ghost predicate RestDown(plan: Plan, srv: seq<Service>, i: nat)
    requires plan.Valid()
  {
    |srv| == |plan.cfg| && forall j :: i <= j < |plan.order| ==> srv[plan.order[j]].pid == 0
  }

  lemma GroupIsCleared(plan: Plan, w: World, s: int)
    requires 0 <= s < |plan.cfg| == |w.svcs| && (plan.cfg[s].isGroup || plan.cfg[s].ignoreFailure)
    ensures Cleared(plan, w, s)
  {}

  ghost predicate IntervalElapsed(c: Config, s: Service, clock: nat) {
    c.interval > 0 && clock - s.startTime >= IntervalMsec(c.interval)
  }

  ghost predicate RestartDue(c: Config, s: Service, clock: nat) {
    (c.respawn || s.restartRequested) && s.pid == 0 && clock - s.startTime > SERVICE_RESTART_DELAY
  }

  lemma ElapsedLater(c: Config, s: Service, clock: nat, clock': nat)
    requires clock <= clock'
    ensures IntervalElapsed(c, s, clock) ==> IntervalElapsed(c, s, clock')
  {}

  lemma DueLater(c: Config, s: Service, clock: nat, clock': nat)
    requires clock <= clock'
    ensures RestartDue(c, s, clock) ==> RestartDue(c, s, clock')
  {}

  /** The attempt was made after the first n. */
  ghost predicate Attempted(tried: seq<(int, Cause)>, n: nat, x: (int, Cause)) {
    exists i :: n <= i < |tried| && tried[i] == x
  }

  lemma AttemptedIsIn(tried: seq<(int, Cause)>, n: nat, x: (int, Cause))
    requires n <= |tried| && Attempted(tried, n, x)
    ensures x in tried[n..]
  {
    var i :| n <= i < |tried| && tried[i] == x;
    assert tried[n..][i - n] == x;
  }

  lemma DueMeans()
    ensures forall c, s, clock: nat :: IntervalElapsed(c, s, clock) <==> c.interval > 0 && clock - s.startTime >= c.interval * 1000 % UINT_SIZE
    ensures forall c, s, clock: nat :: RestartDue(c, s, clock) <==>
              (c.respawn || s.restartRequested) && s.pid == 0 && clock - s.startTime > 500
  {}

  lemma AttemptedMore(tried: seq<(int, Cause)>, n: nat, x: (int, Cause))
    requires n <= |tried|
    ensures Attempted(tried + [x], n, x)
    ensures forall y :: Attempted(tried, n, y) ==> Attempted(tried + [x], n, y)
  {
    var more := tried + [x];
    assert more[|tried|] == x;
    forall y | Attempted(tried, n, y) ensures Attempted(more, n, y) {
      var i :| n <= i < |tried| && tried[i] == y;
      assert more[i] == y;
    }
  }

  lemma AttemptedStays(tried: seq<(int, Cause)>, more: seq<(int, Cause)>, n: nat, m: nat, x: (int, Cause))
    requires tried <= more && m <= n
    ensures Attempted(tried, n, x) ==> Attempted(more, m, x)
  {
    if Attempted(tried, n, x) {
      var i :| n <= i < |tried| && tried[i] == x;
      assert more[i] == x;
    }
  }

  /** Reaping twice. */
  lemma ReapsTwice(srv: seq<Service>, w: World, srv': seq<Service>, w': World, srv'': seq<Service>, w'': World, flag: bool, flag': bool)
    requires OnlyReaped(srv, srv') && OnlyReaped(srv', srv'') && Keeps(w, w', flag) && Keeps(w', w'', flag') && (flag ==> flag')
    ensures OnlyReaped(srv, srv'') && Keeps(w, w'', flag)
  {}

  lemma ReapsNobody(srv: seq<Service>, w: World, flag: bool)
    ensures OnlyReaped(srv, srv) && Keeps(w, w, flag)
  {}

  class Init {
    const plan: Plan
    const k: System
    var srv: seq<Service>
    var exitCode: int
    ghost var trace: Trace
    ghost var tried: seq<(int, Cause)>   // the starts attempted
    ghost var starts: seq<Start>         // how they ended
    ghost var waits: seq<(int, bool)>    // the periods of reaping: how long, and whether no child was left
    ghost var rounds: nat                // the rounds of the main loop
    ghost var idle: bool                 // the main loop found no child left and nothing to restart

    ghost function W(): World
      reads this`trace
    {
      Replay(plan, trace)
    }

    ghost predicate InvWith(kids: set<int>)
      reads this`srv, this`exitCode, this`trace, this`tried, this`starts, this`idle, k
    {
      && plan.Valid() && plan.gracetime < UINT_SIZE && |srv| == |plan.cfg| && Legal(plan, trace)
      && Sound(srv, W().svcs, kids, k.clock)
      && W().now <= k.clock && !W().over
      && exitCode == (if W().decided then W().exitCode else 0)
      && (Booked(tried, starts, W().forks) || Underway(tried, starts, W().forks, false) || Underway(tried, starts, W().forks, true))
      && (!Going(W()) ==> k.doShutdown)
      && (k.doShutdown ==> k.signaled || W().decided || W().threw || idle) && (idle || k.signaled ==> k.doShutdown)
    }

    /**
     The invariant at any call, also between the reaping of a service and the judgement on it, between
     asking a service to stop and telling it, and while a service is being started.
     */
    ghost predicate Mid()
      reads this`srv, this`exitCode, this`trace, this`tried, this`starts, this`idle, k
    {
      InvWith(k.children)
    }

    /** The invariant when none of that is underway. */
    ghost predicate Inv()
      reads this`srv, this`exitCode, this`trace, this`tried, this`starts, this`idle, k
    {
      Mid() && Calm()
    }

    /** No judgement is pending, no service is being stopped, and every start is over. */
    ghost predicate Calm()
      reads this`trace, this`tried, this`starts
    {
      W().phase.Quiet? && AllBooked()
    }

    ghost predicate AllBooked()
      reads this`trace, this`tried, this`starts
    {
      Booked(tried, starts, W().forks)
    }

    /** The invariant at the end of a call that was cut or not. */
    ghost predicate InvUnless(cut: bool)
      reads this`srv, this`exitCode, this`trace, this`tried, this`starts, this`idle, k
    {
      Mid() && (!cut ==> Calm())
    }

    constructor (plan: Plan, k: System)
      requires plan.Valid() && plan.gracetime < UINT_SIZE && !k.doShutdown && !k.signaled
      ensures Inv() && this.plan == plan && this.k == k && trace == Begin && tried == [] && starts == [] && !idle
    {
      this.plan, this.k := plan, k;
      srv := seq(|plan.cfg|, _ => STOPPED);
      exitCode, trace, tried, starts, waits, rounds, idle := 0, Begin, [], [], [], 0, false;
    }

    method FindByPid(pid: int) returns (sid: int)
      requires pid > 0
      ensures -1 <= sid < |srv|
      ensures if sid >= 0 then srv[sid].pid == pid else forall s :: 0 <= s < |srv| ==> srv[s].pid != pid
    {
      for i := 0 to |srv|
        invariant forall s :: 0 <= s < i ==> srv[s].pid != pid
      {
        if srv[i].pid == pid { return i; }
      }
      return -1;
    }

    ghost predicate Passed(answers: nat, time: nat, flag: bool, sig: bool)
      reads k
    {
      |k.script| <= answers && time <= k.clock && (flag ==> k.doShutdown) && (sig ==> k.signaled)
    }

    /** A call of which only the number it returns matters: access, chdir, a program run in the service directory. */
    method Ask(what: Request) returns (r: Outcome<int>)
      requires Mid()
      modifies k
      ensures Mid() && Passed(|old(k.script)|, old(k.clock), old(k.doShutdown), old(k.signaled))
      ensures !r.Thrown? && (r.Done? ==> |k.script| < |old(k.script)|)
      ensures k.replies == if r.Done? then old(k.replies) + [Answered(what, r.value)] else old(k.replies)
    {
      hide Legal, Replay, Booked, Underway, Sound;
      ghost var kids, clock := k.children, k.clock;
      r := k.Ask(what);
      SoundLater(srv, W().svcs, kids, clock, k.children, k.clock);
    }

    /** The monotonic clock. */
    method GetTime() returns (r: Outcome<nat>)
      requires Mid()
      modifies k
      ensures Mid() && Passed(|old(k.script)|, old(k.clock), old(k.doShutdown), old(k.signaled))
      ensures !r.Thrown? && (r.Done? ==> |k.script| < |old(k.script)| && r.value == k.clock)
      ensures k.replies == if r.Done? then old(k.replies) + [ReadTime(r.value)] else old(k.replies)
    {
      hide Legal, Replay, Booked, Underway, Sound;
      ghost var kids, clock := k.children, k.clock;
      r := k.GetTime();
      SoundLater(srv, W().svcs, kids, clock, k.children, k.clock);
    }

    /** Sleeps at least the given time. */
    method Sleep(msec: nat) returns (r: Outcome<()>)
      requires Mid()
      modifies k
      ensures Mid() && Passed(|old(k.script)|, old(k.clock), old(k.doShutdown), old(k.signaled))
      ensures !r.Thrown? && (r.Done? ==> |k.script| < |old(k.script)| && k.clock >= old(k.clock) + msec)
      ensures k.replies == if r.Done? then old(k.replies) + [Slept(msec)] else old(k.replies)
    {
      hide Legal, Replay, Booked, Underway, Sound;
      ghost var kids, clock := k.children, k.clock;
      r := k.Sleep(msec);
      SoundLater(srv, W().svcs, kids, clock, k.children, k.clock);
    }

    /** Waits for any child without blocking. A reaped child is still in the table. */
    method WaitAny() returns (r: Outcome<Wait>)
      requires Mid()
      modifies k
      ensures InvWith(k.children + ReapedNow(r)) && Passed(|old(k.script)|, old(k.clock), old(k.doShutdown), old(k.signaled))
      ensures ReapedNow(r) == {} ==> Mid()
      ensures !r.Thrown? && (r.Done? ==> |k.script| < |old(k.script)| && r.value.pid >= ECHILD)
      ensures r.Done? && r.value.pid == ECHILD ==> k.children == {}
      ensures k.replies == if r.Done? then old(k.replies) + [WaitedFor(0, r.value)] else old(k.replies)
    {
      hide Legal, Replay, Booked, Underway, Sound;
      ghost var kids, clock := k.children, k.clock;
      r := k.WaitAny();
      SoundLater(srv, W().svcs, kids, clock, k.children + ReapedNow(r), k.clock);
      if ReapedNow(r) == {} { assert k.children + ReapedNow(r) == k.children; }
    }

    /** Waits for the child of a live service. */
    method WaitFor(sid: int, block: bool) returns (r: Outcome<Wait>)
      requires Mid() && 0 <= sid < |srv| && srv[sid].pid != 0
      modifies k
      ensures InvWith(k.children + ReapedNow(r)) && Passed(|old(k.script)|, old(k.clock), old(k.doShutdown), old(k.signaled))
      ensures ReapedNow(r) == {} ==> Mid()
      ensures !r.Thrown? && (r.Done? ==> |k.script| < |old(k.script)|)
      ensures r.Done? ==> (r.value.pid <= 0 || r.value.pid == srv[sid].pid) && (r.value.pid == 0 ==> !block)
      ensures k.replies == if r.Done? then old(k.replies) + [WaitedFor(srv[sid].pid, r.value)] else old(k.replies)
    {
      hide Legal, Replay, Booked, Underway, Sound;
      ghost var kids, clock := k.children, k.clock;
      SoundAt(srv, W().svcs, kids, clock, sid);
      r := k.WaitFor(srv[sid].pid, block);
      SoundLater(srv, W().svcs, kids, clock, k.children + ReapedNow(r), k.clock);
      if ReapedNow(r) == {} { assert k.children + ReapedNow(r) == k.children; }
    }

    /** Changes to the service directory; throws when it cannot. */
    method Chdir(sid: int) returns (r: Outcome<()>)
      requires Mid()
      modifies k
      ensures Mid() && Passed(|old(k.script)|, old(k.clock), old(k.doShutdown), old(k.signaled))
      ensures match r
              case Done(_) => |k.script| < |old(k.script)| && k.replies == old(k.replies) + [Answered(EnterDirectory(sid), 0)]
              case Thrown => exists x :: x != 0 && k.replies == old(k.replies) + [Answered(EnterDirectory(sid), x)]
              case Cut => k.replies == old(k.replies)
    {
      hide Mid;
      var a :- Ask(EnterDirectory(sid));
      if a != 0 { return Thrown; }
      return Done(());
    }

    /** Runs a program of the service directory if it is there. */
    method RunIfPresent(sid: int, program: Program, arg: int) returns (r: Outcome<()>)
      requires Mid()
      modifies k
      ensures Mid() && Passed(|old(k.script)|, old(k.clock), old(k.doShutdown), old(k.signaled)) && !r.Thrown?
      ensures old(k.replies) <= k.replies && (r.Done? ==> RanIfFound(k.replies[|old(k.replies)|..], sid, program, arg))
      ensures NoPause(k.replies, |old(k.replies)|)
    {
      hide Mid;
      var a :- Ask(FindProgram(program));
      if a == 0 { var _ :- Ask(RunProgram(sid, program, arg)); }
      return Done(());
    }

    /** The finish script runs under Try; its failure is only logged. */
    method RunFinish(sid: int, status: Status) returns (r: Outcome<()>)
      requires Mid()
      modifies k
      ensures Mid() && Passed(|old(k.script)|, old(k.clock), old(k.doShutdown), old(k.signaled)) && !r.Thrown?
      ensures old(k.replies) <= k.replies && (r.Done? ==> FinishAnswers(k.replies[|old(k.replies)|..], sid, FinishArg(status)))
      ensures NoPause(k.replies, |old(k.replies)|)
    {
      hide Mid, RanIfFound;
      var c := Chdir(sid);
      if c.Cut? { return Cut; }
      if c.Done? {
        var arg: int := 126;
        match status {
          case Exited(code) => arg := code;
          case Signaled(sig) => arg := 128 + sig;
          case Unknown =>
        }
        var _ :- RunIfPresent(sid, Finish, arg);
        assert k.replies[|old(k.replies)|..][1..] == k.replies[|old(k.replies)| + 1..];
      }
      return Done(());
    }

    /** One more event of the trace. */
    ghost method Record(e: Event)
      requires plan.Valid() && Legal(plan, trace) && |plan.cfg| == |W().svcs| && Allowed(plan, W(), e)
      modifies this`trace
      ensures Legal(plan, trace) && trace == Then(old(trace), e) && W() == Apply(plan, old(W()), e)
    {
      hide Allowed, Apply;
      Extend(plan, trace, W(), e);
      trace := Then(trace, e);
    }

    /** The table and the trace agree on one service. The bookkeeping of a death passes through such states. */
    ghost predicate Agrees(sid: int)
      reads this`srv, this`trace
    {
      && plan.Valid() && |srv| == |plan.cfg| && Legal(plan, trace) && !W().over && 0 <= sid < |srv|
      && var v := W().svcs[sid]; srv[sid].pid == v.pid && srv[sid].loggerStarted == v.logger && srv[sid].outputFd == v.fd
    }

    method MarkReaped(sid: int, status: Status)
      requires Agrees(sid) && W().phase.Quiet? && srv[sid].pid > 0
      modifies this`srv, this`trace
      ensures Agrees(sid) && srv == old(srv)[sid := old(srv)[sid].(pid := 0)]
      ensures W().phase == Reaping(sid, status)
      ensures W() == Apply(plan, old(W()), Reaped(old(srv)[sid].pid, sid, status))
    {
      hide Legal, Replay;
      Record(Reaped(srv[sid].pid, sid, status));
      srv := srv[sid := srv[sid].(pid := 0)];
    }

    method JoinLogger(sid: int)
      requires Agrees(sid) && W().phase.Reaping? && W().phase.sid == sid && srv[sid].pid == 0 && srv[sid].loggerStarted
      modifies this`srv, this`trace
      ensures Agrees(sid) && srv == old(srv)[sid := old(srv)[sid].(loggerStarted := false)]
      ensures W().phase == old(W()).phase
      ensures W() == Apply(plan, old(W()), LoggerJoined(sid))
    {
      hide Legal, Replay;
      Record(LoggerJoined(sid));
      srv := srv[sid := srv[sid].(loggerStarted := false)];
    }

    /** A descriptor may be closed only when no logger reads from it. */
    method CloseFd(sid: int)
      requires Agrees(sid) && W().phase.Reaping? && W().phase.sid == sid
      requires srv[sid].pid == 0 && !srv[sid].loggerStarted && srv[sid].outputFd
      modifies this`srv, this`trace
      ensures Agrees(sid) && srv == old(srv)[sid := old(srv)[sid].(outputFd := false)]
      ensures W().phase == old(W()).phase
      ensures W() == Apply(plan, old(W()), FdClosed(sid))
    {
      hide Legal, Replay;
      Record(FdClosed(sid));
      srv := srv[sid := srv[sid].(outputFd := false)];
    }

    /** The bookkeeping of a reaped service, up to the closing of its descriptor. */
    method Bury(sid: int, killed: int, status: Status)
      requires killed > 0 && InvWith(k.children + {killed}) && W().phase.Quiet? && 0 <= sid < |srv| && srv[sid].pid == killed
      modifies this`srv, this`trace
      ensures Mid() && srv == old(srv)[sid := Stopped(old(srv)[sid])]
      ensures W() == old(W()).(svcs := old(W()).svcs[sid := Buried(old(W()).svcs[sid], status)], phase := Reaping(sid, status))
    {
      hide Legal, Replay, Allowed, Sound, Apply, Booked, Underway;
      SoundAt(srv, W().svcs, k.children + {killed}, k.clock, sid);
      BuryKeepsSound(srv, W().svcs, k.children, k.clock, sid, status);
      BuriedInSteps(plan, W(), sid, killed, status);
      MarkReaped(sid, status);
      if srv[sid].loggerStarted { JoinLogger(sid); }
      CloseFd(sid);
      assert srv == old(srv)[sid := Stopped(old(srv)[sid])];
    }

    /** A child that no service owns is reaped. */
    method ForgetStranger(killed: int, status: Status)
      requires killed > 0 && InvWith(k.children + {killed}) && Calm()
      requires forall s :: 0 <= s < |srv| ==> srv[s].pid != killed
      modifies this`trace
      ensures Inv() && W() == old(W())
    {
      hide Legal, Replay, Booked, Underway;
      forall s | 0 <= s < |srv| ensures W().svcs[s].pid == srv[s].pid {
        assert Matches(srv[s], W().svcs[s], k.clock);
      }
      assert forall s :: 0 <= s < |srv| && srv[s].pid != 0 ==> srv[s].pid in k.children;
      Record(Reaped(killed, -1, status));
    }

    /** Whether the death of the service ends the container is judged once, when its bookkeeping is done. */
    method Judge(sid: int, status: Status)
      requires Mid() && W().phase == Reaping(sid, status) && 0 <= sid < |srv| && srv[sid].pid == 0
      requires W().svcs[sid].death == Died(status)
      modifies this`trace
      ensures Mid() && trace == Then(old(trace), Judged(sid, status, k.doShutdown, srv[sid].restartRequested))
      ensures W() == Apply(plan, old(W()), Judged(sid, status, k.doShutdown, srv[sid].restartRequested))
    {
      hide Legal, Replay, Sound, Booked, Underway;
      SoundAt(srv, W().svcs, k.children, k.clock, sid);
      Record(Judged(sid, status, k.doShutdown, srv[sid].restartRequested));
    }

    /** The first service whose death asks for a shutdown decides the exit code. */
    method Decide(sid: int, status: Status)
      requires Mid() && AllBooked() && W().phase == Deciding(sid, CodeOf(status)) && 0 <= sid < |srv| && srv[sid].pid == 0
      requires !k.doShutdown
      modifies this`exitCode, this`trace, k`doShutdown
      ensures Inv() && k.doShutdown && exitCode == CodeOf(status)
      ensures trace == Then(old(trace), ExitCodeSet(sid, CodeOf(status)))
      ensures W() == old(W()).(exitCode := exitCode, decided := true, phase := Quiet)
    {
      hide Legal, Replay, Sound, Booked, Underway;
      SoundAt(srv, W().svcs, k.children, k.clock, sid);
      Record(ExitCodeSet(sid, CodeOf(status)));
      k.doShutdown := true;
      match status
      case Exited(code) => exitCode := code;
      case Signaled(sig) => exitCode := 128 + sig;
      case Unknown => exitCode := 1;
    }

    /**
     The service is stopped, and, unless the run was cut, its death was judged and decided what it decides.
     Before, a shutdown was requested or not, the exit code written or not, the service being restarted or not.
     */
    ghost predicate Handled(s: int, status: Status, judged: bool, requested0: bool, decided0: bool, restarting: bool)
      reads this, k
    {
      && 0 <= s < |srv| == |W().svcs| && srv[s].pid == 0 && W().svcs[s].death == Died(status)
      && (status == Exited(0) ==> W().svcs[s].exitedZero)
      && (judged ==> exists requested :: Judgement(s, status, requested, requested0, decided0, restarting))
    }

    ghost predicate Judgement(s: int, status: Status, requested: bool, requested0: bool, decided0: bool, restarting: bool)
      reads this, k
    {
      && EndsJudged(plan, trace, s, status, requested, restarting)
      && (requested <==> requested0 || k.signaled)
      && if Decisive(plan, s, requested, restarting)
         then W().decided && exitCode == CodeOf(status) && k.doShutdown
         else W().decided == decided0
    }

    method HandleDeath(sid: int, killed: int, status: Status) returns (r: Outcome<()>)
      requires killed > 0 && InvWith(k.children + {killed}) && Calm() && 0 <= sid < |srv| && srv[sid].pid == killed
      modifies this`srv, this`exitCode, this`trace, k
      ensures InvUnless(r.Cut?) && Passed(|old(k.script)|, old(k.clock), old(k.doShutdown), old(k.signaled)) && !r.Thrown?
      ensures OnlyReaped(old(srv), srv) && Keeps(old(W()), W(), old(k.doShutdown))
      ensures Handled(sid, status, r.Done?, old(k.doShutdown), old(W()).decided, old(srv)[sid].restartRequested)
      ensures old(k.replies) <= k.replies && (r.Done? ==> FinishAnswers(k.replies[|old(k.replies)|..], sid, FinishArg(status)))
      ensures NoPause(k.replies, |old(k.replies)|)
    {
      hide Legal, Replay, Allowed, Sound, EndsJudged, Booked, Underway, FinishAnswers;
      Bury(sid, killed, status);
      var _ :- RunFinish(sid, status);
      ghost var requested := k.doShutdown;
      Settle(sid, status);
      assert Judgement(sid, status, requested, old(k.doShutdown), old(W()).decided, old(srv)[sid].restartRequested);
      return Done(());
    }

    /**
     Everything that follows from the result of a wait: -1 all processes terminated, 0 none killed. The
     death of a service is judged, and written as the exit code exactly when it is decisive. A request
     counts at the judgement exactly when it was there before, or a signal arrived by the end of the finish script.
     */
    method HandleKilled(killed: int, status: Status) returns (r: Outcome<()>)
      requires InvWith(k.children + if killed > 0 then {killed} else {}) && Calm()
      modifies this`srv, this`exitCode, this`trace, k
      ensures InvUnless(r.Cut?) && Passed(|old(k.script)|, old(k.clock), old(k.doShutdown), old(k.signaled)) && !r.Thrown?
      ensures OnlyReaped(old(srv), srv) && Keeps(old(W()), W(), old(k.doShutdown))
      ensures killed <= 0 ==> r.Done? && unchanged(this) && unchanged(k)
      ensures (forall s :: 0 <= s < |srv| ==> old(srv)[s].pid != killed) ==> W() == old(W())
      ensures old(k.replies) <= k.replies && NoPause(k.replies, |old(k.replies)|)
      ensures forall s :: 0 <= s < |srv| && killed > 0 && old(srv)[s].pid == killed ==>
                && Handled(s, status, r.Done?, old(k.doShutdown), old(W()).decided, old(srv)[s].restartRequested)
                && (r.Done? ==> FinishAnswers(k.replies[|old(k.replies)|..], s, FinishArg(status)))
    {
      hide Legal, Replay, Allowed, Sound, Keeps, Handled, Booked, Underway, FinishAnswers;
      if killed <= 0 {
        assert k.children + {} == k.children;
        KeepsItself(W(), k.doShutdown);
        return Done(());
      }
      var sid := FindByPid(killed);
      if sid < 0 {
        ForgetStranger(killed, status);
        KeepsItself(W(), k.doShutdown);
        return Done(());
      }
      OneOwner(srv, W().svcs, k.children + {killed}, k.clock, sid);
      r := HandleDeath(sid, killed, status);
    }

    /** The end of the bookkeeping of a death. */
    method Settle(sid: int, status: Status)
      requires Mid() && AllBooked() && W().phase == Reaping(sid, status) && 0 <= sid < |srv| && srv[sid].pid == 0
      requires W().svcs[sid].death == Died(status)
      modifies this`exitCode, this`trace, k`doShutdown
      ensures Inv() && Keeps(old(W()), W(), old(k.doShutdown))
      ensures EndsJudged(plan, trace, sid, status, old(k.doShutdown), srv[sid].restartRequested)
      ensures W().svcs == old(W()).svcs
      ensures if Decisive(plan, sid, old(k.doShutdown), srv[sid].restartRequested)
              then W().decided && exitCode == CodeOf(status) && k.doShutdown
              else W().decided == old(W()).decided && k.doShutdown == old(k.doShutdown)
    {
      hide Legal, Replay, Allowed, Sound, Booked, Underway;
      Judge(sid, status);
      if !k.doShutdown && !srv[sid].restartRequested && plan.cfg[sid].shutdownOnTerminate {
        Decide(sid, status);
      }
    }

    /** Reaps every child that has already died. */
    method ReapTheDead() returns (r: Outcome<int>)
      requires Inv()
      modifies this`srv, this`exitCode, this`trace, k
      ensures InvUnless(r.Cut?) && Passed(|old(k.script)|, old(k.clock), old(k.doShutdown), old(k.signaled)) && !r.Thrown?
      ensures OnlyReaped(old(srv), srv) && Keeps(old(W()), W(), old(k.doShutdown))
      ensures r.Done? ==> |k.script| < |old(k.script)| && (r.value == 0 || (r.value == ECHILD && k.children == {}))
      ensures old(k.replies) <= k.replies && NoPause(k.replies, |old(k.replies)|)
      ensures r.Done? ==> FoundDead(k.replies, r.value)
    {
      hide Legal, Replay, Allowed, Sound, OnlyReaped, Keeps, Booked, Underway;
      var killed := 1;
      ReapsNobody(srv, W(), k.doShutdown);
      while killed != 0 && killed != ECHILD
        invariant Inv() && Passed(|old(k.script)|, old(k.clock), old(k.doShutdown), old(k.signaled))
        invariant OnlyReaped(old(srv), srv) && Keeps(old(W()), W(), old(k.doShutdown))
        invariant killed == ECHILD ==> k.children == {}
        invariant killed <= 0 ==> |k.script| < |old(k.script)|
        invariant old(k.replies) <= k.replies && NoPause(k.replies, |old(k.replies)|)
        invariant killed <= 0 ==> FoundDead(k.replies, killed)
        decreases |k.script|, killed
      {
        ghost var srv0, w0, flag := srv, W(), k.doShutdown;
        var w :- WaitAny();
        killed := w.pid;
        ghost var flag' := k.doShutdown;
        var h := HandleKilled(killed, w.status);
        ReapsTwice(old(srv), old(W()), srv0, w0, srv, W(), old(k.doShutdown), flag');
        if h.Cut? { return Cut; }
      }
      return Done(killed);
    }

    /**
     Reaps for at least period milliseconds, or until no child is left when the period is negative.
     True exactly when no child is left. A service, when given, does not end the wait: no child is
     left unhandled where the table is consulted, so the condition on it never holds.
     */
    method ChildHandler(period: int, service: int) returns (r: Outcome<bool>)
      requires Inv()
      modifies this`srv, this`exitCode, this`trace, this`waits, k
      ensures InvUnless(r.Cut?) && Passed(|old(k.script)|, old(k.clock), old(k.doShutdown), old(k.signaled)) && !r.Thrown?
      ensures OnlyReaped(old(srv), srv) && Keeps(old(W()), W(), old(k.doShutdown))
      ensures waits == if r.Done? then old(waits) + [(period, r.value)] else old(waits)
      ensures r == Done(true) ==> k.children == {}
      ensures r == Done(false) ==> period >= 0 && k.clock - old(k.clock) >= period
      ensures old(k.replies) <= k.replies && PausesInTime(k.replies, |old(k.replies)|, period)
      ensures r.Done? ==> |k.script| < |old(k.script)|
    {
      hide Legal, Replay, Allowed, Sound, OnlyReaped, Keeps, Booked, Underway, PausesInTime, FoundDead;
      ReapsNobody(srv, W(), k.doShutdown);
      PausesMore([], k.replies, |k.replies|, period);
      var now :- GetTime();
      PausesMore([], k.replies, |old(k.replies)|, period);
      var killed: int;
      while true
        invariant Inv() && Passed(|old(k.script)|, now, old(k.doShutdown), old(k.signaled))
        invariant OnlyReaped(old(srv), srv) && Keeps(old(W()), W(), old(k.doShutdown)) && waits == old(waits)
        invariant |old(k.replies)| < |k.replies| && old(k.replies) <= k.replies
        invariant k.replies[|old(k.replies)|] == ReadTime(now) && PausesInTime(k.replies, |old(k.replies)|, period)
        decreases |k.script|
      {
        ghost var srv0, w0, flag, before := srv, W(), k.doShutdown, k.replies;
        var dead := ReapTheDead();
        ReapsTwice(old(srv), old(W()), srv0, w0, srv, W(), old(k.doShutdown), flag);
        PausesMore(before, k.replies, |old(k.replies)|, period);
        killed :- dead;
        if killed == ECHILD { break; }
        var more :- GoOnReaping(period, now, service, killed, |old(k.replies)|);
        if !more { break; }
      }
      waits := waits + [(period, killed == ECHILD)];
      return Done(killed == ECHILD);
    }

    /** The end of one round of that loop: a short pause, unless the period is over. From n answers on, all is as it should. */
    method GoOnReaping(period: int, now: nat, service: int, killed: int, ghost n: nat) returns (more: Outcome<bool>)
      requires killed == 0 && Mid() && n < |k.replies| && k.replies[n] == ReadTime(now) && PausesInTime(k.replies, n, period) && now <= k.clock
      modifies k
      ensures Mid() && Passed(|old(k.script)|, old(k.clock), old(k.doShutdown), old(k.signaled)) && !more.Thrown?
      ensures old(k.replies) <= k.replies && PausesInTime(k.replies, n, period)
      ensures more == Done(true) ==> |k.script| < |old(k.script)|
      ensures more == Done(false) ==> period >= 0 && k.clock - now >= period
    {
      hide InvWith, PausesInTime;
      if period == 0 { return Done(false); }
      if period > 0 {
        var t := GetTime();
        PausesMore(old(k.replies), k.replies, n, period);
        var time :- t;
        if time - now >= period { return Done(false); }
      }
      if service >= 0 && killed != 0 { assert false; }
      PauseInTime(k.replies, n, period);
      var _ :- Sleep(50);
      return Done(true);
    }

    /** Forks: the pid, which no service has, and the time. A new child is not yet in the table. */
    method Fork() returns (r: Outcome<(int, nat)>)
      requires Mid()
      modifies k
      ensures Passed(|old(k.script)|, old(k.clock), old(k.doShutdown), old(k.signaled)) && !r.Thrown?
      ensures r.Done? && r.value.0 > 0 ==> InvWith(k.children - {r.value.0}) && r.value.0 in k.children
      ensures !(r.Done? && r.value.0 > 0) ==> Mid()
      ensures r.Done? ==> |k.script| < |old(k.script)| && r.value.0 >= 0 && old(k.clock) <= r.value.1 <= k.clock
      ensures k.replies == if r.Done? then old(k.replies) + [NewProcess(r.value.0)] else old(k.replies)
    {
      hide Legal, Replay, Sound, Booked, Underway;
      ghost var kids, clock := k.children, k.clock;
      r := k.Fork();
      ghost var made := if r.Done? && r.value.0 > 0 then {r.value.0} else {};
      SoundLater(srv, W().svcs, kids, clock, k.children - made, k.clock);
      if made == {} { assert k.children - made == k.children; }
    }

    /** A start is underway whose process is made, or not. */
    ghost predicate InStart(sid: int, cause: Cause, forked: bool)
      reads this`trace, this`tried, this`starts
    {
      W().phase.Quiet? && Underway(tried, starts, W().forks, forked) && tried[|tried| - 1] == (sid, cause)
    }

    /** The fork succeeded: pid, descriptor and start time enter the table. */
    method RecordFork(sid: int, pid: int, time: nat, cause: Cause)
      requires InvWith(k.children - {pid}) && InStart(sid, cause, false) && 0 <= sid < |srv| && srv[sid].pid == 0
      requires pid > 0 && pid in k.children && W().now <= time <= k.clock
      requires Going(W()) && Timely(plan, W(), sid, time, cause)
      modifies this`srv, this`trace
      ensures Mid() && InStart(sid, cause, true) && W().forks == old(W()).forks + [Made(sid, pid, cause)]
      ensures srv == old(srv)[sid := old(srv)[sid].(pid := pid, outputFd := true, startTime := k.clock)]
      ensures Keeps(old(W()), W(), true)
    {
      hide Legal, Replay, Sound, Booked, Underway;
      ghost var new', v := srv[sid].(pid := pid, outputFd := true, startTime := k.clock), W().svcs[sid];
      SoundForFork(srv, W().svcs, k.children, k.clock, sid, pid);
      OneForked(srv, W().svcs, k.children, k.clock, sid, new', v.(pid := pid, fd := true, forked := time, check := NotChecked));
      MadeProcess(tried, starts, W().forks, pid);
      Record(Forked(sid, pid, time, cause));
      srv := srv[sid := srv[sid].(pid := pid, outputFd := true, startTime := k.clock)];
    }

    /** Creates the logger thread of a service that was just forked; it cannot have one already. */
    method StartLogger(sid: int) returns (r: Outcome<()>)
      requires Mid() && W().phase.Quiet? && 0 <= sid < |srv| && srv[sid].pid != 0 && !srv[sid].loggerStarted
      modifies this`srv, this`trace, k
      ensures Mid() && Passed(|old(k.script)|, old(k.clock), old(k.doShutdown), old(k.signaled))
      ensures srv == old(srv)[sid := old(srv)[sid].(loggerStarted := r.Done?)]
      ensures Keeps(old(W()), W(), true) && W().phase.Quiet? && W().forks == old(W()).forks
      ensures old(k.replies) <= k.replies && (!r.Cut? ==> LoggerAnswers(k.replies[|old(k.replies)|..], sid, r.Done?))
    {
      hide Legal, Replay, Allowed, Booked, Underway, Sound;
      var memory :- Ask(AllocateMemory);
      if memory != 0 { return Thrown; }
      var rc :- Ask(CreateThread(sid));
      if rc != 0 { return Thrown; }
      RecordLogger(sid);
      return Done(());
    }

    method RecordLogger(sid: int)
      requires Mid() && W().phase.Quiet? && 0 <= sid < |srv| && srv[sid].pid != 0 && !srv[sid].loggerStarted
      modifies this`srv, this`trace
      ensures Mid() && Keeps(old(W()), W(), true) && W().phase.Quiet? && W().forks == old(W()).forks
      ensures srv == old(srv)[sid := old(srv)[sid].(loggerStarted := true)]
    {
      hide Legal, Replay, Sound, Booked, Underway;
      SoundAt(srv, W().svcs, k.children, k.clock, sid);
      OneChanged(srv, W().svcs, k.children, k.clock, sid, srv[sid].(loggerStarted := true), W().svcs[sid].(logger := true));
      Record(LoggerStarted(sid));
      srv := srv[sid := srv[sid].(loggerStarted := true)];
    }

    /** One try to fork: true when process and logger run, false when no process could be made. */
    method TryFork(sid: int, cause: Cause, ghost from: nat) returns (r: Outcome<bool>)
      requires Mid() && InStart(sid, cause, false) && 0 <= sid < |srv| && srv[sid].pid == 0 && !srv[sid].loggerStarted
      requires Going(W()) && from <= k.clock && W().now <= k.clock && Timely(plan, W(), sid, from, cause)
      modifies this`srv, this`trace, k
      ensures Mid() && Passed(|old(k.script)|, old(k.clock), old(k.doShutdown), old(k.signaled))
      ensures |srv| == |old(srv)| && Keeps(old(W()), W(), true)
      ensures forall s :: 0 <= s < |srv| && s != sid ==> srv[s] == old(srv)[s]
      ensures srv[sid].restartRequested == old(srv[sid].restartRequested)
      ensures if r == Done(true) then srv[sid].pid != 0 && srv[sid].loggerStarted else !srv[sid].loggerStarted
      ensures r == Done(false) ==>
                srv == old(srv) && W() == old(W()) && InStart(sid, cause, false) && k.replies == old(k.replies) + [NewProcess(0)]
      ensures old(k.replies) <= k.replies
      ensures r == Done(true) || r.Thrown? ==>
                && ProcessAnswers(k.replies[|old(k.replies)|..], sid, srv[sid].pid, r.Done?) && srv[sid].pid != 0
                && InStart(sid, cause, true) && W().forks == old(W()).forks + [Made(sid, srv[sid].pid, cause)]
    {
      hide Legal, Replay, Allowed, Timely, Sound, Keeps, Booked, Underway, LoggerAnswers;
      KeepsItself(W(), true);
      ghost var w := W();
      var f :- Fork();
      if f.0 == 0 { return Done(false); }
      TimelyLater(plan, W(), sid, from, f.1, cause);
      RecordFork(sid, f.0, f.1, cause);
      ghost var w', before := W(), k.replies;
      var started := StartLogger(sid);
      KeepsTwice(w, w', W(), true, true);
      assert k.replies[|old(k.replies)|..][1..] == k.replies[|before|..];
      var _ :- started;
      return Done(true);
    }

    /** The start is in the books as the answers since then say: a process was made or not, and its logger runs or not. */
    ghost predicate StartEnded(sid: int, cause: Cause, up: bool, since: seq<Reply>, starts0: seq<Start>, forks0: seq<Fork>)
      reads this`srv, this`trace, this`starts, k
    {
      && since <= k.replies && 0 <= sid < |srv|
      && var answers, pid := k.replies[|since|..], srv[sid].pid;
         && StartAnswers(answers, sid, pid, up)
         && starts == starts0 + [Start(sid, cause, pid, up, answers)]
         && W().forks == forks0 + if pid != 0 then [Made(sid, pid, cause)] else []
    }

    /**
     Forks at most four times. Throws when the directory cannot be entered, when no process could be made,
     or when its logger could not, as the answers show.
     */
    method StartService(sid: int, cause: Cause) returns (r: Outcome<()>)
      requires Inv() && 0 <= sid < |srv|
      requires Going(W()) && Timely(plan, W(), sid, k.clock, cause)
      modifies this`srv, this`trace, this`tried, this`starts, k
      ensures InvUnless(r.Cut?) && Passed(|old(k.script)|, old(k.clock), old(k.doShutdown), old(k.signaled))
      ensures |srv| == |old(srv)| && Keeps(old(W()), W(), true) && old(k.replies) <= k.replies
      ensures forall s :: 0 <= s < |srv| && s != sid ==> srv[s] == old(srv)[s]
      ensures srv[sid].restartRequested == old(srv[sid].restartRequested)
      ensures tried == if old(srv[sid].pid) != 0 then old(tried) else old(tried) + [(sid, cause)]
      ensures if old(srv[sid].pid) != 0 then r.Done? && srv == old(srv) && k.replies == old(k.replies)
              else srv[sid].loggerStarted <==> r.Done?
      ensures r.Done? ==> srv[sid].pid != 0
      ensures old(srv[sid].pid) == 0 && !r.Cut? ==>
                StartEnded(sid, cause, r.Done?, old(k.replies), old(starts), old(W()).forks)
    {
      hide Legal, Replay, Allowed, Timely, Sound, Keeps, Booked, Underway, ProcessAnswers, StartAnswers, NoProcess, StartEnded;
      KeepsItself(W(), true);
      if srv[sid].pid != 0 { return Done(()); }
      SoundAt(srv, W().svcs, k.children, k.clock, sid);
      Begun(tried, starts, W().forks, (sid, cause));
      tried := tried + [(sid, cause)];
      ghost var start := k.replies;
      var entered := Chdir(sid);
      if entered.Thrown? {
        ghost var x :| x != 0 && k.replies == start + [Answered(EnterDirectory(sid), x)];
        AnswersOfRefusal(start, k.replies, sid, x);
        EndStart(sid, cause, false, start, W().forks);
      }
      var _ :- entered;
      r := ForkSeveralTimes(sid, cause, old(k.clock), start);
    }

    /** The loop over the forks of a start, which ends the start. */
    method ForkSeveralTimes(sid: int, cause: Cause, ghost from: nat, ghost start: seq<Reply>) returns (r: Outcome<()>)
      requires Mid() && InStart(sid, cause, false) && 0 <= sid < |srv| && srv[sid].pid == 0 && !srv[sid].loggerStarted
      requires Going(W()) && from <= k.clock && W().now <= from && Timely(plan, W(), sid, from, cause)
      requires k.replies == start + [Answered(EnterDirectory(sid), 0)]
      modifies this`srv, this`trace, this`starts, k
      ensures InvUnless(r.Cut?) && Passed(|old(k.script)|, old(k.clock), old(k.doShutdown), old(k.signaled))
      ensures |srv| == |old(srv)| && Keeps(old(W()), W(), true) && start <= k.replies
      ensures forall s :: 0 <= s < |srv| && s != sid ==> srv[s] == old(srv)[s]
      ensures srv[sid].restartRequested == old(srv[sid].restartRequested)
      ensures (srv[sid].loggerStarted <==> r.Done?) && (r.Done? ==> srv[sid].pid != 0)
      ensures !r.Cut? ==> StartEnded(sid, cause, r.Done?, start, old(starts), old(W()).forks)
    {
      hide Legal, Replay, Allowed, Timely, Sound, Keeps, Booked, Underway, StartAnswers, NoProcess, InStart, StartEnded;
      KeepsItself(W(), true);
      ghost var entered := k.replies;
      NoForkYet(entered);
      var count := 0;
      while count < 4
        invariant Mid() && InStart(sid, cause, false) && Passed(|old(k.script)|, old(k.clock), old(k.doShutdown), old(k.signaled))
        invariant srv == old(srv) && W() == old(W()) && starts == old(starts) && 0 <= count <= 4
        invariant k.replies == entered + NoProcess(count)
      {
        var up :- ForkOnce(sid, cause, from, start, count);
        if up { return Done(()); }
        OneMoreFork(entered, k.replies, count);
        count := count + 1;
      }
      AnswersOfNone(start, k.replies, sid);
      EndStart(sid, cause, false, start, W().forks);
      return Thrown;
    }

    /** One round of that loop: a try, which ends the start when a process was made, or a pause. */
    method ForkOnce(sid: int, cause: Cause, ghost from: nat, ghost start: seq<Reply>, ghost n: nat) returns (r: Outcome<bool>)
      requires Mid() && InStart(sid, cause, false) && 0 <= sid < |srv| && srv[sid].pid == 0 && !srv[sid].loggerStarted
      requires Going(W()) && from <= k.clock && W().now <= from && Timely(plan, W(), sid, from, cause)
      requires n < 4 && k.replies == start + [Answered(EnterDirectory(sid), 0)] + NoProcess(n)
      modifies this`srv, this`trace, this`starts, k
      ensures Mid() && Passed(|old(k.script)|, old(k.clock), old(k.doShutdown), old(k.signaled))
      ensures |srv| == |old(srv)| && Keeps(old(W()), W(), true) && old(k.replies) <= k.replies
      ensures forall s :: 0 <= s < |srv| && s != sid ==> srv[s] == old(srv)[s]
      ensures srv[sid].restartRequested == old(srv[sid].restartRequested)
      ensures if r == Done(true) then srv[sid].pid != 0 && srv[sid].loggerStarted else !srv[sid].loggerStarted
      ensures r == Done(false) ==>
                && srv == old(srv) && W() == old(W()) && starts == old(starts) && InStart(sid, cause, false)
                && k.replies == old(k.replies) + [NewProcess(0)] + [Slept(500)]
      ensures r.Thrown? || r == Done(true) ==> Inv() && StartEnded(sid, cause, r.Done?, start, old(starts), old(W()).forks)
    {
      hide Legal, Replay, Allowed, Timely, Sound, Keeps, Booked, Underway, ProcessAnswers, StartAnswers, NoProcess, InStart, StartEnded;
      var tries := TryFork(sid, cause, from);
      if tries.Thrown? || tries == Done(true) {
        AnswersOfFork(start, old(k.replies), k.replies, sid, n, srv[sid].pid, tries.Done?);
        EndStart(sid, cause, tries.Done?, start, old(W()).forks);
      }
      if tries != Done(false) { return tries; }
      var _ :- Sleep(500);
      return Done(false);
    }

    /** The start is over and enters the books. */
    ghost method EndStart(sid: int, cause: Cause, up: bool, since: seq<Reply>, forks0: seq<Fork>)
      requires Mid() && 0 <= sid < |srv| && since <= k.replies && InStart(sid, cause, srv[sid].pid != 0)
      requires W().forks == forks0 + if srv[sid].pid != 0 then [Made(sid, srv[sid].pid, cause)] else []
      requires StartAnswers(k.replies[|since|..], sid, srv[sid].pid, up)
      modifies this`starts
      ensures Inv() && StartEnded(sid, cause, up, since, old(starts), forks0)
    {
      hide Legal, Replay, Sound, StartAnswers;
      var s := Start(sid, cause, srv[sid].pid, up, k.replies[|since|..]);
      BookOne(tried, starts, W().forks, s);
      starts := starts + [s];
    }

    // -------------------------------------------------------------------------------------------
    // The start-up pass
    // -------------------------------------------------------------------------------------------

    /** The service died. */
    ghost predicate Dead(sid: int)
      reads this`srv, this`trace
    {
      0 <= sid < |srv| == |W().svcs| && srv[sid].pid == 0 && W().svcs[sid].death.Died?
    }

    /** Waits for a sync service to terminate; it must exit with 0. A shutdown request ends the wait. */
    method RunSync(sid: int) returns (r: Outcome<()>)
      requires Inv() && 0 <= sid < |srv| && srv[sid].pid != 0
      modifies this`srv, this`exitCode, this`trace, k
      ensures InvUnless(r.Cut?) && Passed(|old(k.script)|, old(k.clock), old(k.doShutdown), old(k.signaled))
      ensures OnlyReaped(old(srv), srv) && Keeps(old(W()), W(), old(k.doShutdown))
      ensures r.Done? ==> k.doShutdown || W().svcs[sid].exitedZero
      ensures r.Done? ==> (Dead(sid) && W().svcs[sid].death == Died(Exited(0))) || (k.doShutdown && InterruptedWait(k.replies, srv[sid].pid))
      ensures r.Thrown? ==> WaitError(k.replies, srv[sid].pid, true) || (Dead(sid) && W().svcs[sid].death != Died(Exited(0)))
    {
      hide Legal, Replay, Allowed, Sound, OnlyReaped, Keeps, Booked, Underway;
      ReapsNobody(srv, W(), k.doShutdown);
      while true
        invariant Inv() && Passed(|old(k.script)|, old(k.clock), old(k.doShutdown), old(k.signaled))
        invariant srv == old(srv) && W() == old(W())
        decreases |k.script|
      {
        var w :- WaitFor(sid, true);
        if w.pid < 0 {
          if w.pid != EINTR { return Thrown; }
          if k.doShutdown { return Done(()); }
        } else {
          ghost var flag := k.doShutdown;
          var h := HandleKilled(w.pid, w.status);
          ReapsTwice(old(srv), old(W()), old(srv), old(W()), srv, W(), old(k.doShutdown), flag);
          if h.Cut? { return Cut; }
          if w.status != Exited(0) { return Thrown; }
          return Done(());
        }
      }
    }

    /** Waits until the service has run for its minimum time; false when a shutdown request ends the wait. */
    method AwaitUptime(sid: int) returns (r: Outcome<bool>)
      requires Inv() && 0 <= sid < |srv| && srv[sid].pid != 0
      modifies this`srv, this`exitCode, this`trace, k
      ensures InvUnless(r.Cut?) && Passed(|old(k.script)|, old(k.clock), old(k.doShutdown), old(k.signaled))
      ensures OnlyReaped(old(srv), srv) && Keeps(old(W()), W(), old(k.doShutdown))
      ensures r.Done? ==> srv == old(srv) && W() == old(W())
      ensures r == Done(true) ==> k.clock - srv[sid].startTime >= plan.cfg[sid].minRunningTime
      ensures r == Done(false) ==> k.doShutdown
      ensures r.Thrown? ==> WaitError(k.replies, srv[sid].pid, false) || Dead(sid)
      ensures old(k.replies) <= k.replies && WatchedWhileWaiting(k.replies, |old(k.replies)|, old(srv)[sid].pid)
    {
      hide Legal, Replay, Allowed, Sound, OnlyReaped, Keeps, Booked, Underway, WatchedWhileWaiting;
      ReapsNobody(srv, W(), k.doShutdown);
      WatchedNot(k.replies, srv[sid].pid);
      while true
        invariant Inv() && Passed(|old(k.script)|, old(k.clock), old(k.doShutdown), old(k.signaled))
        invariant srv == old(srv) && W() == old(W())
        invariant old(k.replies) <= k.replies && WatchedWhileWaiting(k.replies, |old(k.replies)|, srv[sid].pid)
        decreases |k.script|
      {
        if k.doShutdown { return Done(false); }
        ghost var before, pid := k.replies, srv[sid].pid;
        var t :- GetTime();
        WatchedMore(before, k.replies, |old(k.replies)|, pid);
        if t - srv[sid].startTime >= plan.cfg[sid].minRunningTime { return Done(true); }
        ghost var flag := k.doShutdown;
        var alive := CheckStillUp(sid, |old(k.replies)|);
        ReapsTwice(old(srv), old(W()), old(srv), old(W()), srv, W(), old(k.doShutdown), flag);
        var _ :- alive;
        WatchedPause(k.replies, |old(k.replies)|, pid);
        var _ :- Sleep(500);
      }
    }

    /** One look at the service within that wait; throws when it died or cannot be waited for. */
    method CheckStillUp(sid: int, ghost n: nat) returns (r: Outcome<()>)
      requires Inv() && 0 <= sid < |srv| && srv[sid].pid != 0
      requires n <= |k.replies| && WatchedWhileWaiting(k.replies, n, srv[sid].pid)
      modifies this`srv, this`exitCode, this`trace, k
      ensures InvUnless(r.Cut?) && Passed(|old(k.script)|, old(k.clock), old(k.doShutdown), old(k.signaled))
      ensures OnlyReaped(old(srv), srv) && Keeps(old(W()), W(), old(k.doShutdown))
      ensures r.Done? ==> srv == old(srv) && W() == old(W()) && |old(k.replies)| < |k.replies| && FoundAlive(k.replies, srv[sid].pid)
      ensures r.Thrown? ==> WaitError(k.replies, srv[sid].pid, false) || Dead(sid)
      ensures old(k.replies) <= k.replies && WatchedWhileWaiting(k.replies, n, old(srv)[sid].pid)
    {
      hide Legal, Replay, Allowed, Sound, OnlyReaped, Keeps, Booked, Underway, WatchedWhileWaiting;
      ReapsNobody(srv, W(), k.doShutdown);
      ghost var pid := srv[sid].pid;
      var w :- WaitFor(sid, false);
      WatchedMore(old(k.replies), k.replies, n, pid);
      if w.pid == srv[sid].pid {
        ghost var flag, before := k.doShutdown, k.replies;
        var h := HandleKilled(w.pid, w.status);
        WatchedMore(before, k.replies, n, pid);
        ReapsTwice(old(srv), old(W()), old(srv), old(W()), srv, W(), old(k.doShutdown), flag);
        if h.Cut? { return Cut; }
        return Thrown;
      }
      if w.pid < 0 { return Thrown; }
      return Done(());
    }

    method RecordCheck(sid: int, check: Check)
      requires Inv() && 0 <= sid < |srv| && srv[sid].pid != 0 && !W().stopping
      modifies this`trace
      ensures Inv() && trace == Then(old(trace), Checked(sid, check))
      ensures Keeps(old(W()), W(), true) && W().svcs[sid].check == check
    {
      hide Legal, Replay, Sound, Booked, Underway;
      SoundAt(srv, W().svcs, k.children, k.clock, sid);
      OneChanged(srv, W().svcs, k.children, k.clock, sid, srv[sid], W().svcs[sid].(check := check));
      Record(Checked(sid, check));
      assert srv[sid := srv[sid]] == srv;
    }

    /** Looks for the program that checks whether the service is ready. */
    method FindCheck(sid: int) returns (r: Outcome<bool>)
      requires Inv() && 0 <= sid < |srv| && srv[sid].pid != 0 && !W().stopping
      modifies this`trace, k
      ensures Inv() && Passed(|old(k.script)|, old(k.clock), old(k.doShutdown), old(k.signaled)) && !r.Thrown?
      ensures old(k.replies) <= k.replies && (r.Cut? ==> k.replies == old(k.replies)) && (r.Done? ==>
                && |k.replies| == |old(k.replies)| + 1 && Said(k.replies[|old(k.replies)|], FindProgram(IsReady))
                && (r.value <==> k.replies[|old(k.replies)|].result == 0))
      ensures trace == if r == Done(false) then Then(old(trace), Checked(sid, Absent)) else old(trace)
      ensures Keeps(old(W()), W(), true) && (r == Done(false) ==> W().svcs[sid].check == Absent)
    {
      hide Legal, Replay, Allowed, Booked, Underway;
      var a :- Ask(FindProgram(IsReady));
      if a == 0 { return Done(true); }
      RecordCheck(sid, Absent);
      return Done(false);
    }

    /** Runs that program: its exit code. */
    method RunCheck(sid: int) returns (r: Outcome<int>)
      requires Inv() && 0 <= sid < |srv| && srv[sid].pid != 0 && !W().stopping
      modifies this`trace, k
      ensures Inv() && Passed(|old(k.script)|, old(k.clock), old(k.doShutdown), old(k.signaled)) && !r.Thrown?
      ensures r.Done? ==>
                && |k.script| < |old(k.script)|
                && k.replies == old(k.replies) + [Answered(RunProgram(sid, IsReady, srv[sid].pid), r.value)]
      ensures r.Cut? ==> k.replies == old(k.replies)
      ensures trace == if r.Done? then Then(old(trace), Checked(sid, Returned(r.value))) else old(trace)
      ensures Keeps(old(W()), W(), true) && (r.Done? ==> W().svcs[sid].check == Returned(r.value))
    {
      hide Legal, Replay, Allowed, Booked, Underway;
      r := Ask(RunProgram(sid, IsReady, srv[sid].pid));
      if r.Done? { RecordCheck(sid, Returned(r.value)); }
    }

    /** Runs the readiness check, if there is one, until it returns 0; false when shutdown is requested first. */
    method AwaitReady(sid: int) returns (r: Outcome<bool>)
      requires Inv() && 0 <= sid < |srv| && srv[sid].pid != 0 && !W().stopping
      modifies this`trace, k
      ensures Inv() && Passed(|old(k.script)|, old(k.clock), old(k.doShutdown), old(k.signaled)) && Keeps(old(W()), W(), true)
      ensures r == Done(true) ==> W().svcs[sid].check.Passes()
      ensures r == Done(false) ==> k.doShutdown
      ensures r.Thrown? ==> NotReady(k.replies, sid, srv[sid].pid, srv[sid].startTime, plan.cfg[sid].readyTimeout)
      ensures old(k.replies) <= k.replies
      ensures CheckedInTime(k.replies, |old(k.replies)|, sid, srv[sid].pid, srv[sid].startTime, plan.cfg[sid].readyTimeout)
    {
      hide Legal, Replay, Allowed, Sound, Keeps, Booked, Underway, CheckedInTime;
      KeepsItself(W(), true);
      ghost var w := W();
      CheckedNot(k.replies, sid, srv[sid].pid, srv[sid].startTime, plan.cfg[sid].readyTimeout);
      var entered := Chdir(sid);
      Unchecked(sid, |old(k.replies)|, old(k.replies));
      var _ :- entered;
      ghost var before := k.replies;
      var found := FindCheck(sid);
      Unchecked(sid, |old(k.replies)|, before);
      KeepsTwice(w, w, W(), true, true);
      var present :- found;
      if !present { return Done(true); }
      while true
        invariant Inv() && Passed(|old(k.script)|, old(k.clock), old(k.doShutdown), old(k.signaled))
        invariant Keeps(old(W()), W(), true) && !W().stopping && old(k.replies) <= k.replies
        invariant CheckedInTime(k.replies, |old(k.replies)|, sid, srv[sid].pid, srv[sid].startTime, plan.cfg[sid].readyTimeout)
        decreases |k.script|
      {
        ghost var w' := W();
        var ran := CheckOnce(sid, |old(k.replies)|);
        KeepsTwice(w, w', W(), true, true);
        var code :- ran;
        if code == 0 { return Done(true); }
        if k.doShutdown { return Done(false); }
        before := k.replies;
        var pause := Sleep(SERVICE_READINESS_CHECK_INTERVAL);
        Unchecked(sid, |old(k.replies)|, before);
        var _ :- pause;
      }
    }

    /** One round of that loop: the time, the process, and then the check itself. From n answers on, all is as it should. */
    method CheckOnce(sid: int, ghost n: nat) returns (r: Outcome<int>)
      requires Inv() && 0 <= sid < |srv| && srv[sid].pid != 0 && !W().stopping && n <= |k.replies|
      requires CheckedInTime(k.replies, n, sid, srv[sid].pid, srv[sid].startTime, plan.cfg[sid].readyTimeout)
      modifies this`trace, k
      ensures Inv() && Passed(|old(k.script)|, old(k.clock), old(k.doShutdown), old(k.signaled)) && Keeps(old(W()), W(), true)
      ensures r.Done? ==> |k.script| < |old(k.script)| && W().svcs[sid].check == Returned(r.value)
      ensures r.Thrown? ==> NotReady(k.replies, sid, srv[sid].pid, srv[sid].startTime, plan.cfg[sid].readyTimeout)
      ensures old(k.replies) <= k.replies
      ensures CheckedInTime(k.replies, n, sid, srv[sid].pid, srv[sid].startTime, plan.cfg[sid].readyTimeout)
    {
      hide Legal, Replay, Allowed, Sound, Keeps, Booked, Underway, CheckedInTime;
      KeepsItself(W(), true);
      var t :- GetTime();
      Unchecked(sid, n, old(k.replies));
      if t - srv[sid].startTime >= plan.cfg[sid].readyTimeout { return Thrown; }
      ghost var before := k.replies;
      var probed := Ask(ProbeProcess(srv[sid].pid));
      Unchecked(sid, n, before);
      var alive :- probed;
      if alive != 0 { return Thrown; }
      r := RunCheck(sid);
      if r.Done? { CheckedAgain(old(k.replies), n, sid, srv[sid].pid, srv[sid].startTime, plan.cfg[sid].readyTimeout, t, r.value); }
    }

    /** A call that does not run the readiness check. */
    lemma Unchecked(sid: int, n: nat, before: seq<Reply>)
      requires 0 <= sid < |srv| == |plan.cfg| && n <= |before| && before <= k.replies
      requires CheckedInTime(before, n, sid, srv[sid].pid, srv[sid].startTime, plan.cfg[sid].readyTimeout)
      requires forall i :: |before| <= i < |k.replies| ==> !Said(k.replies[i], RunProgram(sid, IsReady, srv[sid].pid))
      ensures CheckedInTime(k.replies, n, sid, srv[sid].pid, srv[sid].startTime, plan.cfg[sid].readyTimeout)
    {
      CheckedMore(before, k.replies, n, sid, srv[sid].pid, srv[sid].startTime, plan.cfg[sid].readyTimeout);
    }

    method RecordReady(sid: int)
      requires Inv() && 0 <= sid < |srv| && srv[sid].pid != 0 && !W().stopping
      requires W().svcs[sid].check.Passes() && k.clock - srv[sid].startTime >= plan.cfg[sid].minRunningTime
      modifies this`trace
      ensures Inv() && W() == Apply(plan, old(W()), Ready(sid, k.clock))
    {
      hide Legal, Replay, Sound, Booked, Underway;
      SoundAt(srv, W().svcs, k.children, k.clock, sid);
      OneChanged(srv, W().svcs, k.children, k.clock, sid, srv[sid], W().svcs[sid].(ready := true));
      Record(Ready(sid, k.clock));
      assert srv[sid := srv[sid]] == srv;
    }

    /** Why the wait for a started service ends in failure: it died, or it could not be waited for, or it is not ready. */
    ghost predicate GaveUp(sid: int)
      reads this`srv, this`trace, k
      requires plan.Valid()
    {
      && 0 <= sid < |srv| == |plan.cfg|
      && var c := plan.cfg[sid];
         if c.sync
         then WaitError(k.replies, srv[sid].pid, true) || (Dead(sid) && W().svcs[sid].death != Died(Exited(0)))
         else
           && c.interval == 0
           && (|| WaitError(k.replies, srv[sid].pid, false) || Dead(sid)
               || NotReady(k.replies, sid, srv[sid].pid, srv[sid].startTime, c.readyTimeout))
    }

    /** What the start-up pass waits for after it started a service. */
    method AwaitStartUp(sid: int) returns (r: Outcome<()>)
      requires Inv() && 0 <= sid < |srv| && srv[sid].pid != 0 && !W().stopping
      modifies this`srv, this`exitCode, this`trace, k
      ensures InvUnless(r.Cut?) && Passed(|old(k.script)|, old(k.clock), old(k.doShutdown), old(k.signaled))
      ensures OnlyReaped(old(srv), srv) && Keeps(old(W()), W(), old(k.doShutdown))
      ensures r.Done? ==> k.doShutdown || Cleared(plan, W(), sid)
      ensures r.Thrown? ==> GaveUp(sid)
    {
      hide Legal, Replay, Allowed, Sound, Booked, Underway, WaitError, NotReady;
      if plan.cfg[sid].sync {
        r := RunSync(sid);
        return;
      }
      if plan.cfg[sid].interval > 0 { return Done(()); }
      var up :- AwaitUptime(sid);
      if !up { return Done(()); }
      var ready :- AwaitReady(sid);
      if !ready { return Done(()); }
      RecordReady(sid);
      return Done(());
    }

    /** The latest attempt was for this service, and failed. */
    ghost predicate StartFailed(sid: int)
      reads this`starts
    {
      starts != [] && starts[|starts| - 1].sid == sid && !starts[|starts| - 1].up
    }

    /** The body of the Try of one iteration of the start-up pass. */
    method StartOne(i: nat) returns (r: Outcome<()>)
      requires Inv() && i < |plan.order| && Going(W()) && !plan.cfg[plan.order[i]].isGroup
      requires AllCleared(plan, W(), i)
      modifies this`srv, this`exitCode, this`trace, this`tried, this`starts, k
      ensures InvUnless(r.Cut?) && Passed(|old(k.script)|, old(k.clock), old(k.doShutdown), old(k.signaled))
      ensures Keeps(old(W()), W(), old(k.doShutdown))
      ensures |srv| == |old(srv)| && forall s :: 0 <= s < |srv| && s != plan.order[i] ==>
                srv[s] == old(srv)[s] || srv[s] == Stopped(old(srv)[s])
      ensures var sid := plan.order[i]; tried == if old(srv)[sid].pid != 0 then old(tried) else old(tried) + [(sid, StartUp(i))]
      ensures r.Done? ==> k.doShutdown || Cleared(plan, W(), plan.order[i])
      ensures r.Thrown? ==> StartFailed(plan.order[i]) || GaveUp(plan.order[i])
    {
      hide Legal, Replay, Allowed, Cleared, Sound, Booked, Underway, GaveUp, StartAnswers, WaitError, NotReady;
      var sid := plan.order[i];
      ghost var w := W();
      AllClearedTimely(plan, w, i, k.clock);
      var _ :- StartService(sid, StartUp(i));
      r := AwaitStartUp(sid);
    }

    /** The entry at position i, whose failure is not ignored, could not be started or was given up. */
    ghost predicate PassBroke(i: nat)
      reads this`srv, this`trace, this`starts, k
    {
      && plan.Valid() && i < |plan.order| && !plan.cfg[plan.order[i]].isGroup && !plan.cfg[plan.order[i]].ignoreFailure
      && (StartFailed(plan.order[i]) || GaveUp(plan.order[i]))
    }

    /** One iteration of the start-up pass: an ignored failure is only logged, any other one ends the pass. */
    method StartEntry(i: nat) returns (r: Outcome<()>)
      requires Inv() && i < |plan.order| && !W().stopping && RestDown(plan, srv, i)
      requires k.doShutdown || AllCleared(plan, W(), i)
      requires !plan.cfg[plan.order[i]].isGroup ==> !k.doShutdown
      modifies this`srv, this`exitCode, this`trace, this`tried, this`starts, k
      ensures InvUnless(r.Cut?) && Passed(|old(k.script)|, old(k.clock), old(k.doShutdown), old(k.signaled))
      ensures Keeps(old(W()), W(), old(k.doShutdown))
      ensures RestDown(plan, srv, i + 1)
      ensures old(tried) + StartUpOf(plan, i) == tried
      ensures r.Done? ==> k.doShutdown || AllCleared(plan, W(), i + 1)
      ensures r.Thrown? ==> PassBroke(i)
    {
      hide Legal, Replay, Allowed, AllCleared, Sound, Cleared, Booked, Underway, GaveUp;
      var sid := plan.order[i];
      if plan.cfg[sid].isGroup {
        GroupIsCleared(plan, W(), sid);
      } else {
        ghost var w, flag := W(), k.doShutdown;
        var one := StartOne(i);
        if one.Cut? { return Cut; }
        if one.Thrown? && !plan.cfg[sid].ignoreFailure { return Thrown; }
        AllStayCleared(plan, w, W(), flag, i);
        if plan.cfg[sid].ignoreFailure { GroupIsCleared(plan, W(), sid); }
      }
      AllClearedNext(plan, W(), i);
      return Done(());
    }

    /** Starts the services in order. Each start waits until the previous entries no longer hold it back. */
    method StartServices() returns (r: Outcome<()>)
      requires Inv() && !W().stopping && forall s :: 0 <= s < |srv| ==> srv[s].pid == 0
      modifies this`srv, this`exitCode, this`trace, this`tried, this`starts, k
      ensures InvUnless(r.Cut?) && Passed(|old(k.script)|, old(k.clock), old(k.doShutdown), old(k.signaled))
      ensures Keeps(old(W()), W(), old(k.doShutdown))
      ensures r.Done? && !k.doShutdown ==>
                && tried == old(tried) + StartUps(plan, |plan.order|)
                && AllCleared(plan, W(), |plan.order|)
      ensures r.Done? ==> exists n: nat :: n <= |plan.order| && tried == old(tried) + StartUps(plan, n)
      ensures r.Thrown? ==> exists n: nat :: PassBroke(n) && tried == old(tried) + StartUps(plan, n + 1)
    {
      hide Legal, Replay, Allowed, AllCleared, Sound, StartUps, StartUpOf, Keeps, RestDown, Booked, Underway, PassBroke;
      PassBegins(plan, W(), srv);
      KeepsItself(W(), k.doShutdown);
      var i := 0;
      while i < |plan.order|
        invariant 0 <= i <= |plan.order|
        invariant Inv() && Passed(|old(k.script)|, old(k.clock), old(k.doShutdown), old(k.signaled))
        invariant Keeps(old(W()), W(), old(k.doShutdown)) && !W().stopping && RestDown(plan, srv, i)
        invariant tried == old(tried) + StartUps(plan, i)
        invariant k.doShutdown || AllCleared(plan, W(), i)
      {
        if !plan.cfg[plan.order[i]].isGroup && k.doShutdown { break; }
        ghost var w, flag := W(), k.doShutdown;
        var one := StartEntry(i);
        KeepsTwice(old(W()), w, W(), old(k.doShutdown), flag);
        StartUpsNext(plan, old(tried), i);
        if one.Thrown? { assert PassBroke(i) && tried == old(tried) + StartUps(plan, i + 1); }
        if !one.Done? { return one; }
        i := i + 1;
      }
      return Done(());
    }

    // -------------------------------------------------------------------------------------------
    // Shutdown
    // -------------------------------------------------------------------------------------------

    /**
     Asks a live service to stop: its kill program, then SIGTERM. Throws exactly when its directory cannot be
     entered. Nothing else happens meanwhile.
     */
    method StopService(sid: int, i: int) returns (r: Outcome<()>)
      requires Inv() && 0 <= sid < |srv|
      requires i >= 0 ==>
                 && W().stopping && i < W().floor && i < |plan.order| && plan.order[i] == sid
                 && LaterOnesAsked(plan, W(), i)
      modifies this`trace, k
      ensures InvUnless(r.Cut?) && Passed(|old(k.script)|, old(k.clock), old(k.doShutdown), old(k.signaled))
      ensures old(k.replies) <= k.replies && (i < 0 ==> Keeps(old(W()), W(), true))
      ensures srv[sid].pid == 0 ==> r.Done? && trace == old(trace) && k.replies == old(k.replies)
      ensures srv[sid].pid != 0 ==>
                W() == Apply(plan, old(W()), StopAsked(sid, i)).(phase := if r.Cut? then Stopping(sid) else Quiet)
      ensures srv[sid].pid != 0 && !r.Cut? ==>
                var pid, answers := srv[sid].pid, k.replies[|old(k.replies)|..];
                && trace == Then(Then(old(trace), StopAsked(sid, i)), if r.Done? then TermSent(sid, pid) else NoEntry(sid))
                && if r.Done? then StopAnswers(answers, sid, pid) else Refused(answers, EnterDirectory(sid))
    {
      hide Legal, Replay, Allowed, Sound, Booked, Underway, RanIfFound, Apply, StopAnswers, LaterOnesAsked;
      if srv[sid].pid == 0 {
        KeepsItself(W(), true);
        return Done(());
      }
      RecordStop(sid, i);
      r := TellToStop(sid);
    }

    /** The part of it after the service was asked. */
    method TellToStop(sid: int) returns (r: Outcome<()>)
      requires Mid() && AllBooked() && W().phase == Stopping(sid) && 0 <= sid < |srv| && srv[sid].pid != 0
      modifies this`trace, k
      ensures InvUnless(r.Cut?) && Passed(|old(k.script)|, old(k.clock), old(k.doShutdown), old(k.signaled))
      ensures W() == if r.Cut? then old(W()) else old(W()).(phase := Quiet)
      ensures old(k.replies) <= k.replies
      ensures !r.Cut? ==>
                var pid, answers := srv[sid].pid, k.replies[|old(k.replies)|..];
                && trace == Then(old(trace), if r.Done? then TermSent(sid, pid) else NoEntry(sid))
                && if r.Done? then StopAnswers(answers, sid, pid) else Refused(answers, EnterDirectory(sid))
    {
      hide Legal, Replay, Allowed, Sound, Booked, Underway, RanIfFound, StopAnswers;
      var entered := Chdir(sid);
      if entered.Thrown? { RecordNoEntry(sid); }
      var _ :- entered;
      var _ :- RunIfPresent(sid, Kill, srv[sid].pid);
      ghost var killed := k.replies;
      r := SendTerm(sid);
      if r.Done? { AnswersOfStop(old(k.replies), killed, k.replies, sid, srv[sid].pid); }
    }

    /** SIGTERM goes to the pid of a live service, never to a pid that may have been reused. */
    method SendTerm(sid: int) returns (r: Outcome<()>)
      requires Mid() && AllBooked() && W().phase == Stopping(sid) && 0 <= sid < |srv| && srv[sid].pid != 0
      modifies this`trace, k
      ensures InvUnless(r.Cut?) && Passed(|old(k.script)|, old(k.clock), old(k.doShutdown), old(k.signaled)) && !r.Thrown?
      ensures trace == if r.Done? then Then(old(trace), TermSent(sid, srv[sid].pid)) else old(trace)
      ensures W() == if r.Done? then old(W()).(phase := Quiet) else old(W())
      ensures old(k.replies) <= k.replies
      ensures r.Done? ==> exists x :: k.replies == old(k.replies) + [Answered(SignalTerm(srv[sid].pid), x)]
    {
      hide Legal, Replay, Sound, Booked, Underway;
      var _ :- Ask(SignalTerm(srv[sid].pid));
      SoundAt(srv, W().svcs, k.children, k.clock, sid);
      Record(TermSent(sid, srv[sid].pid));
      return Done(());
    }

    ghost method RecordNoEntry(sid: int)
      requires Mid() && AllBooked() && W().phase == Stopping(sid) && 0 <= sid < |srv| && srv[sid].pid != 0
      modifies this`trace
      ensures Inv() && trace == Then(old(trace), NoEntry(sid)) && W() == old(W()).(phase := Quiet)
    {
      hide Legal, Replay, Sound, Booked, Underway;
      SoundAt(srv, W().svcs, k.children, k.clock, sid);
      Record(NoEntry(sid));
    }

    method RecordStop(sid: int, i: int)
      requires Inv() && 0 <= sid < |srv| && srv[sid].pid != 0
      requires i >= 0 ==>
                 && W().stopping && i < W().floor && i < |plan.order| && plan.order[i] == sid
                 && LaterOnesAsked(plan, W(), i)
      modifies this`trace
      ensures Mid() && AllBooked() && W().phase == Stopping(sid)
      ensures trace == Then(old(trace), StopAsked(sid, i)) && W() == Apply(plan, old(W()), StopAsked(sid, i))
      ensures i < 0 ==> Keeps(old(W()), W(), true)
    {
      hide Legal, Replay, Sound, Booked, Underway;
      SoundAt(srv, W().svcs, k.children, k.clock, sid);
      OneChanged(srv, W().svcs, k.children, k.clock, sid, srv[sid], if i < 0 then W().svcs[sid] else W().svcs[sid].(asked := true));
      assert W().svcs[sid := W().svcs[sid]] == W().svcs && srv[sid := srv[sid]] == srv;
      Record(StopAsked(sid, i));
    }

    /** The shutdown begins: from here on nothing is started. */
    method BeginShutdown()
      requires Inv() && k.doShutdown && !W().stopping
      modifies this`trace
      ensures Inv() && W() == old(W()).(stopping := true, floor := |plan.order|)
    {
      hide Legal, Replay, Sound, Booked, Underway;
      Record(ShutdownBegan);
    }

    lemma LaterOnesStayAsked(srv0: seq<Service>, w: World, i: int, clock: nat)
      requires Mid() && OnlyReaped(srv0, srv) && Keeps(w, W(), true)
      requires |srv0| == |w.svcs| == |plan.cfg| && forall s :: 0 <= s < |srv0| ==> Matches(srv0[s], w.svcs[s], clock)
      requires LaterOnesAsked(plan, w, i)
      ensures LaterOnesAsked(plan, W(), i)
    {
      forall j | 0 <= j < |plan.order| && i < j
        ensures var s := plan.order[j]; plan.cfg[s].isGroup || W().svcs[s].pid == 0 || W().svcs[s].asked
      {
        var s := plan.order[j];
        assert Matches(srv0[s], w.svcs[s], clock) && Matches(srv[s], W().svcs[s], k.clock);
      }
    }

    /** Asks the service at position i of the order to stop, if it is live, and reaps for a while. */
    method StopOne(i: nat) returns (r: Outcome<bool>)
      requires Inv() && k.doShutdown && i < |plan.order| && W().stopping && i < W().floor && LaterOnesAsked(plan, W(), i)
      modifies this`srv, this`exitCode, this`trace, this`waits, k
      ensures InvUnless(r.Cut?) && Passed(|old(k.script)|, old(k.clock), true, old(k.signaled)) && !r.Thrown?
      ensures SameEnd() && W().termAll == old(W().termAll) && W().killAll == old(W().killAll)
      ensures r == Done(true) ==> k.children == {}
      ensures r.Done? ==> i <= W().floor && LaterOnesAsked(plan, W(), i - 1)
      ensures r.Done? ==>
                var s := plan.order[i];
                if plan.cfg[s].isGroup || old(srv)[s].pid == 0 then !r.value && waits == old(waits)
                else waits == old(waits) + [(250, r.value)]
    {
      hide Legal, Replay, Allowed, Booked, Underway, StopAnswers;
      var sid := plan.order[i];
      assert Matches(srv[sid], W().svcs[sid], k.clock);
      if plan.cfg[sid].isGroup || srv[sid].pid == 0 { return Done(false); }
      var stopped := StopService(sid, i);
      if stopped.Cut? { return Cut; }
      assert LaterOnesAsked(plan, W(), i - 1);
      ghost var srv0, w, clock := srv, W(), k.clock;
      r := ChildHandler(250, sid);
      LaterOnesStayAsked(srv0, w, i - 1, clock);
    }

    /** SIGTERM to everyone: by now each live service was asked on its own. */
    method TellAll() returns (r: Outcome<()>)
      requires Inv() && k.doShutdown && W().stopping && W().termAll == NEVER && LaterOnesAsked(plan, W(), -1)
      modifies this`trace, k
      ensures Inv() && Passed(|old(k.script)|, old(k.clock), true, old(k.signaled)) && !r.Thrown?
      ensures r.Done? ==> trace == Then(old(trace), TermAll(k.clock))
      ensures r.Done? ==> |k.replies| == |old(k.replies)| + 1 && Said(k.replies[|old(k.replies)|], SignalTermAll)
      ensures W() == if r.Done? then old(W()).(termAll := k.clock, now := k.clock) else old(W())
    {
      hide Legal, Replay, Sound, Booked, Underway;
      var _ :- Ask(SignalTermAll);
      Record(TermAll(k.clock));
      return Done(());
    }

    /** SIGKILL to everyone: the grace time since the SIGTERM to everyone has passed. */
    method KillEveryone() returns (r: Outcome<()>)
      requires Inv() && k.doShutdown && W().stopping && W().killAll == NEVER && W().termAll != NEVER && k.clock - W().termAll >= plan.gracetime
      modifies this`trace, k
      ensures Inv() && Passed(|old(k.script)|, old(k.clock), true, old(k.signaled)) && !r.Thrown?
      ensures r.Done? ==> trace == Then(old(trace), KillAll(k.clock))
      ensures r.Done? ==> |k.replies| == |old(k.replies)| + 1 && Said(k.replies[|old(k.replies)|], SignalKillAll)
      ensures W() == if r.Done? then old(W()).(killAll := k.clock, now := k.clock) else old(W())
    {
      hide Legal, Replay, Sound, Booked, Underway;
      var _ :- Ask(SignalKillAll);
      Record(KillAll(k.clock));
      return Done(());
    }

    /** What the steps of the shutdown leave as it was: the status that the program will exit with. */
    twostate predicate SameEnd()
      reads this`trace
    {
      && W().stopping && W().threw == old(W().threw) && W().decided == old(W().decided)
      && FinalStatus(W()) == old(FinalStatus(W()))
    }

    /** The loop over the reversed order: false when somebody may be left at its end. */
    method StopInTurn() returns (r: Outcome<bool>)
      requires Inv() && k.doShutdown && W().stopping && W().floor == |plan.order|
      modifies this`srv, this`exitCode, this`trace, this`waits, k
      ensures InvUnless(r.Cut?) && Passed(|old(k.script)|, old(k.clock), true, old(k.signaled)) && !r.Thrown? && SameEnd()
      ensures W().termAll == old(W().termAll) && W().killAll == old(W().killAll)
      ensures r == Done(true) ==> k.children == {} && waits != [] && waits[|waits| - 1] == (250, true)
      ensures r == Done(false) ==> LaterOnesAsked(plan, W(), -1)
    {
      hide Legal, Replay, Allowed, Sound, LaterOnesAsked, Booked, Underway;
      var i := |plan.order| - 1;
      NoneLater(plan, W(), i);
      while i >= 0
        invariant -1 <= i < |plan.order|
        invariant Inv() && Passed(|old(k.script)|, old(k.clock), true, old(k.signaled)) && SameEnd()
        invariant W().termAll == old(W().termAll) && W().killAll == old(W().killAll)
        invariant i < W().floor && LaterOnesAsked(plan, W(), i)
      {
        var none :- StopOne(i);
        if none { return Done(true); }
        i := i - 1;
      }
      return Done(false);
    }

    /** The grace time as the int that it is passed on as. */
    function Grace(): int {
      if plan.gracetime > INT_MAX then plan.gracetime - UINT_SIZE else plan.gracetime
    }

    /** Everybody is told to terminate, and forced to exactly when the wait for the grace time left somebody. */
    method ForceDown() returns (r: Outcome<()>)
      requires Inv() && k.doShutdown && W().stopping && LaterOnesAsked(plan, W(), -1)
      requires W().termAll == NEVER && W().killAll == NEVER
      modifies this`srv, this`exitCode, this`trace, this`waits, k
      ensures InvUnless(r.Cut?) && Passed(|old(k.script)|, old(k.clock), true, old(k.signaled)) && !r.Thrown? && SameEnd()
      ensures r.Done? ==> k.children == {} && W().termAll != NEVER
      ensures r.Done? ==> waits == old(waits) + if W().killAll == NEVER then [(Grace(), true)] else [(Grace(), false), (-1, true)]
    {
      hide Legal, Replay, Allowed, Sound, OnlyReaped, Booked, Underway;
      var _ :- TellAll();
      var none :- ChildHandler(Grace(), -1);
      if none { return Done(()); }
      var _ :- KillEveryone();
      none :- ChildHandler(-1, -1);
      return Done(());
    }

    /**
     Stops the services in reverse order, then asks and finally forces everyone. Whichever way it
     returns, no unreaped child is left and no service is live.
     */
    method CinitShutdown() returns (r: Outcome<()>)
      requires Inv() && k.doShutdown && !W().stopping && W().termAll == NEVER && W().killAll == NEVER
      modifies this`srv, this`exitCode, this`trace, this`waits, k
      ensures InvUnless(r.Cut?) && Passed(|old(k.script)|, old(k.clock), true, old(k.signaled)) && !r.Thrown? && SameEnd()
      ensures r.Done? ==> k.children == {} && forall s :: 0 <= s < |srv| ==> srv[s].pid == 0
      ensures r.Done? ==> waits != [] && waits[|waits| - 1].1 && (W().killAll != NEVER ==> W().termAll != NEVER)
    {
      hide Legal, Replay, Allowed, Booked, Underway;
      BeginShutdown();
      var none :- StopInTurn();
      if none { return Done(()); }
      ghost var srv0, w, clock := srv, W(), k.clock;
      none :- ChildHandler(0, -1);
      if none { return Done(()); }
      LaterOnesStayAsked(srv0, w, -1, clock);
      r := ForceDown();
    }

    // -------------------------------------------------------------------------------------------
    // The main loop
    // -------------------------------------------------------------------------------------------

    /** Starts a service whose interval has elapsed, or lets it wait for another one while it lives. */
    method IntervalTick(sid: int) returns (r: Outcome<()>)
      requires Inv() && Going(W()) && 0 <= sid < |srv|
      modifies this`srv, this`trace, this`tried, this`starts, k
      ensures InvUnless(r.Cut?) && Passed(|old(k.script)|, old(k.clock), old(k.doShutdown), old(k.signaled)) && !r.Thrown?
      ensures Keeps(old(W()), W(), true) && |srv| == |old(srv)| && old(k.replies) <= k.replies
      ensures forall s :: 0 <= s < |srv| && s != sid ==> srv[s] == old(srv)[s]
      ensures if tried != old(tried) then old(srv)[sid].pid == 0 && tried == old(tried) + [(sid, ByInterval)]
              else srv[sid] == if old(srv)[sid].pid == 0 then old(srv)[sid] else old(srv)[sid].(startTime := srv[sid].startTime)
      ensures r.Done? && IntervalElapsed(plan.cfg[sid], old(srv)[sid], old(k.clock)) ==>
                if old(srv)[sid].pid == 0 then tried != old(tried) else srv[sid].startTime >= old(k.clock)
    {
      hide Legal, Replay, Allowed, Booked, Underway, StartAnswers;
      if plan.cfg[sid].interval > 0 {
        var t :- GetTime();
        if t - srv[sid].startTime >= IntervalMsec(plan.cfg[sid].interval) {
          assert Matches(srv[sid], W().svcs[sid], k.clock);
          if srv[sid].pid > 0 {
            var late :- GetTime();
            Postpone(sid, late);
          } else {
            assert |tried + [(sid, ByInterval)]| > |tried|;
            var started := StartService(sid, ByInterval);
            if started.Cut? { return Cut; }
          }
        }
      }
      return Done(());
    }

    /** Starts the services whose interval has elapsed. */
    method RunIntervals() returns (r: Outcome<()>)
      requires Inv() && Going(W())
      modifies this`srv, this`trace, this`tried, this`starts, k
      ensures InvUnless(r.Cut?) && Passed(|old(k.script)|, old(k.clock), old(k.doShutdown), old(k.signaled)) && !r.Thrown?
      ensures Keeps(old(W()), W(), true) && |srv| == |old(srv)| && old(tried) <= tried && old(k.replies) <= k.replies
      ensures forall s :: 0 <= s < |srv| ==>
                || (old(srv)[s].pid == 0 && Attempted(tried, |old(tried)|, (s, ByInterval)))
                || srv[s] == if old(srv)[s].pid == 0 then old(srv)[s] else old(srv)[s].(startTime := srv[s].startTime)
      ensures r.Done? ==> forall s :: 0 <= s < |srv| && IntervalElapsed(plan.cfg[s], old(srv)[s], old(k.clock)) ==>
                if old(srv)[s].pid == 0 then Attempted(tried, |old(tried)|, (s, ByInterval)) else srv[s].startTime >= old(k.clock)
    {
      hide Keeps, Sound, Legal, Replay, Allowed, Attempted, IntervalElapsed, Booked, Underway;
      KeepsItself(W(), true);
      for sid := 0 to |plan.cfg|
        invariant Inv() && Passed(|old(k.script)|, old(k.clock), old(k.doShutdown), old(k.signaled))
        invariant Keeps(old(W()), W(), true) && Going(W()) && |srv| == |old(srv)| && old(tried) <= tried
        invariant old(k.replies) <= k.replies
        invariant forall s :: sid <= s < |srv| ==> srv[s] == old(srv)[s]
        invariant forall s :: 0 <= s < sid ==>
                    || (old(srv)[s].pid == 0 && Attempted(tried, |old(tried)|, (s, ByInterval)))
                    || srv[s] == if old(srv)[s].pid == 0 then old(srv)[s] else old(srv)[s].(startTime := srv[s].startTime)
        invariant forall s :: 0 <= s < sid && IntervalElapsed(plan.cfg[s], old(srv)[s], old(k.clock)) ==>
                    if old(srv)[s].pid == 0 then Attempted(tried, |old(tried)|, (s, ByInterval)) else srv[s].startTime >= old(k.clock)
      {
        AttemptedMore(tried, |old(tried)|, (sid, ByInterval));
        ElapsedLater(plan.cfg[sid], srv[sid], old(k.clock), k.clock);
        ghost var w := W();
        var one := IntervalTick(sid);
        KeepsTwice(old(W()), w, W(), true, true);
        if one.Cut? { return Cut; }
      }
      return Done(());
    }

    /** A service that outlives its interval waits for another one. */
    method Postpone(sid: int, time: nat)
      requires Inv() && 0 <= sid < |srv| && srv[sid].startTime <= time <= k.clock
      modifies this`srv
      ensures Inv() && srv == old(srv)[sid := old(srv)[sid].(startTime := time)]
    {
      hide Legal, Replay, Sound, Booked, Underway;
      SoundAt(srv, W().svcs, k.children, k.clock, sid);
      OneChanged(srv, W().svcs, k.children, k.clock, sid, srv[sid].(startTime := time), W().svcs[sid]);
      assert W().svcs[sid := W().svcs[sid]] == W().svcs;
      srv := srv[sid := srv[sid].(startTime := time)];
    }

    method SetRestart(sid: int, requested: bool)
      requires Inv() && 0 <= sid < |srv| && !W().stopping
      modifies this`srv, this`trace
      ensures Inv() && srv == old(srv)[sid := old(srv)[sid].(restartRequested := requested)]
      ensures trace == Then(old(trace), RestartSet(sid, requested)) && Keeps(old(W()), W(), true)
    {
      hide Legal, Replay, Sound, Booked, Underway;
      SoundAt(srv, W().svcs, k.children, k.clock, sid);
      OneChanged(srv, W().svcs, k.children, k.clock, sid,
                 srv[sid].(restartRequested := requested), W().svcs[sid].(restarting := requested));
      Record(RestartSet(sid, requested));
      srv := srv[sid := srv[sid].(restartRequested := requested)];
    }

    /** Restarts a stopped service that respawns or whose restart was requested. */
    method RestartTick(sid: int) returns (r: Outcome<()>)
      requires Inv() && Going(W()) && 0 <= sid < |srv|
      modifies this`srv, this`trace, this`tried, this`starts, k
      ensures InvUnless(r.Cut?) && Passed(|old(k.script)|, old(k.clock), old(k.doShutdown), old(k.signaled)) && !r.Thrown?
      ensures Keeps(old(W()), W(), true) && |srv| == |old(srv)| && old(k.replies) <= k.replies
      ensures forall s :: 0 <= s < |srv| && s != sid ==> srv[s] == old(srv)[s]
      ensures old(srv)[sid].pid != 0 ==> srv[sid] == old(srv)[sid]
      ensures tried == old(tried) || tried == old(tried) + [(sid, ByRestart)]
      ensures r.Done? ==>
                && (RestartDue(plan.cfg[sid], old(srv)[sid], old(k.clock)) ==> tried != old(tried))
                && (srv[sid].restartRequested <==>
                      old(srv)[sid].restartRequested && !(old(srv)[sid].pid == 0 && srv[sid].loggerStarted))
    {
      hide Legal, Replay, Allowed, Booked, Underway, StartAnswers;
      if (plan.cfg[sid].respawn || srv[sid].restartRequested) && srv[sid].pid == 0 {
        var t :- GetTime();
        assert Matches(srv[sid], W().svcs[sid], k.clock);
        if t - srv[sid].startTime > SERVICE_RESTART_DELAY {
          assert |tried + [(sid, ByRestart)]| > |tried|;
          var started := StartService(sid, ByRestart);
          if started.Cut? { return Cut; }
          if started.Done? { SetRestart(sid, false); }
        }
      } else {
        assert Matches(srv[sid], W().svcs[sid], k.clock);
      }
      return Done(());
    }

    /** Restarts the stopped services that respawn or whose restart was requested. */
    method RunRestarts() returns (r: Outcome<()>)
      requires Inv() && Going(W())
      modifies this`srv, this`trace, this`tried, this`starts, k
      ensures InvUnless(r.Cut?) && Passed(|old(k.script)|, old(k.clock), old(k.doShutdown), old(k.signaled)) && !r.Thrown?
      ensures Keeps(old(W()), W(), true) && |srv| == |old(srv)| && old(tried) <= tried && old(k.replies) <= k.replies
      ensures forall s :: 0 <= s < |srv| && old(srv)[s].pid != 0 ==> srv[s] == old(srv)[s]
      ensures r.Done? ==> forall s :: 0 <= s < |srv| ==>
                && (RestartDue(plan.cfg[s], old(srv)[s], old(k.clock)) ==> Attempted(tried, |old(tried)|, (s, ByRestart)))
                && (srv[s].restartRequested <==> old(srv)[s].restartRequested && !(old(srv)[s].pid == 0 && srv[s].loggerStarted))
    {
      hide Keeps, Sound, Legal, Replay, Allowed, Attempted, RestartDue, Booked, Underway;
      KeepsItself(W(), true);
      for sid := 0 to |plan.cfg|
        invariant Inv() && Passed(|old(k.script)|, old(k.clock), old(k.doShutdown), old(k.signaled))
        invariant Keeps(old(W()), W(), true) && Going(W()) && |srv| == |old(srv)| && old(tried) <= tried
        invariant old(k.replies) <= k.replies
        invariant forall s :: sid <= s < |srv| || (0 <= s < sid && old(srv)[s].pid != 0) ==> srv[s] == old(srv)[s]
        invariant forall s :: 0 <= s < sid ==>
                    && (RestartDue(plan.cfg[s], old(srv)[s], old(k.clock)) ==> Attempted(tried, |old(tried)|, (s, ByRestart)))
                    && (srv[s].restartRequested <==> old(srv)[s].restartRequested && !(old(srv)[s].pid == 0 && srv[s].loggerStarted))
      {
        AttemptedMore(tried, |old(tried)|, (sid, ByRestart));
        DueLater(plan.cfg[sid], srv[sid], old(k.clock), k.clock);
        ghost var w := W();
        var one := RestartTick(sid);
        KeepsTwice(old(W()), w, W(), true, true);
        if one.Cut? { return Cut; }
      }
      return Done(());
    }

    /** A restart command may name any loaded service, a disabled one or a group included. */
    method ReadCommand() returns (r: Outcome<int>)
      requires Inv() && !W().stopping
      modifies this`srv, this`exitCode, this`trace, k
      ensures InvUnless(r.Cut?) && Passed(|old(k.script)|, old(k.clock), old(k.doShutdown), old(k.signaled)) && !r.Thrown?
      ensures Keeps(old(W()), W(), true) && |srv| == |old(srv)|
      ensures old(k.replies) <= k.replies
      ensures r.Done? ==> |k.replies| > |old(k.replies)| && k.replies[|old(k.replies)|] == Answered(NextCommand, r.value)
      ensures forall s :: 0 <= s < |srv| && (r.Done? ==> s != r.value) ==> srv[s] == old(srv)[s]
      ensures r.Done? && 0 <= r.value < |srv| ==>
                var v := old(srv)[r.value];
                || (v.pid != 0 && srv[r.value] == v && trace == Then(Then(old(trace), StopAsked(r.value, -1)), NoEntry(r.value)))
                || (srv[r.value] == v.(restartRequested := true) && Requested(trace, r.value, v.pid))
    {
      hide Legal, Replay, Allowed, Sound, Apply, Keeps, Booked, Underway, StopAnswers;
      KeepsItself(W(), true);
      var sid :- Ask(NextCommand);
      if 0 <= sid < |srv| {
        var stopped := StopService(sid, -1);
        ghost var w := W();
        KeepsTwice(old(W()), old(W()), w, true, true);
        if stopped.Cut? { return Cut; }
        if stopped.Done? {
          SetRestart(sid, true);
          KeepsTwice(old(W()), w, W(), true, true);
        }
      }
      return Done(sid);
    }

    method AnyToRestart() returns (yes: bool)
      requires |srv| == |plan.cfg|
      ensures yes <==> exists s :: 0 <= s < |srv| && (plan.cfg[s].respawn || srv[s].restartRequested) && srv[s].pid == 0
    {
      for s := 0 to |srv|
        invariant forall x :: 0 <= x < s ==> !((plan.cfg[x].respawn || srv[x].restartRequested) && srv[x].pid == 0)
      {
        if (plan.cfg[s].respawn || srv[s].restartRequested) && srv[s].pid == 0 { return true; }
      }
      return false;
    }

    /**
     The rest of one iteration of the main loop: every start that is due when it begins is attempted, a
     command is read, and a pause of a second ends it.
     */
    method RunRound() returns (r: Outcome<()>)
      requires Inv() && Going(W())
      modifies this`srv, this`exitCode, this`trace, this`tried, this`starts, this`rounds, k
      ensures InvUnless(r.Cut?) && Passed(|old(k.script)|, old(k.clock), old(k.doShutdown), old(k.signaled)) && !r.Thrown?
      ensures Keeps(old(W()), W(), true) && old(tried) <= tried && (r.Done? ==> |k.script| < |old(k.script)|)
      ensures rounds == old(rounds) + 1
      ensures r.Done? ==> CommandRead(k.replies, |old(k.replies)|) && k.replies[|k.replies| - 1] == Slept(1000)
      ensures r.Done? ==> forall s :: 0 <= s < |old(srv)| && old(srv)[s].pid == 0 ==>
                var c, v, since := plan.cfg[s], old(srv)[s], tried[|old(tried)|..];
                && (c.interval > 0 && old(k.clock) - v.startTime >= c.interval * 1000 % UINT_SIZE ==> (s, ByInterval) in since)
                && ((c.respawn || v.restartRequested) && old(k.clock) - v.startTime > 500 ==>
                      (s, ByRestart) in since || (s, ByInterval) in since)
    {
      hide Legal, Replay, Allowed, Sound, Attempted, IntervalElapsed, RestartDue, Booked, Underway;
      rounds := rounds + 1;
      var _ :- RunIntervals();
      ghost var tried1, srv1, clock1 := tried, srv, k.clock;
      var _ :- RunRestarts();
      forall s | 0 <= s < |srv1| ensures
        && (Attempted(tried1, |old(tried)|, (s, ByInterval)) ==> Attempted(tried, |old(tried)|, (s, ByInterval)))
        && (RestartDue(plan.cfg[s], srv1[s], old(k.clock)) ==> Attempted(tried, |old(tried)|, (s, ByRestart)))
      {
        AttemptedStays(tried1, tried, |old(tried)|, |old(tried)|, (s, ByInterval));
        DueLater(plan.cfg[s], srv1[s], old(k.clock), clock1);
        AttemptedStays(tried, tried, |tried1|, |old(tried)|, (s, ByRestart));
      }
      ghost var start := |k.replies|;
      var _ :- ReadCommand();
      assert Said(k.replies[start], NextCommand);
      r := Sleep(1000);
      assert Said(k.replies[start], NextCommand);
      DueMeans();
      forall s, cause | Attempted(tried, |old(tried)|, (s, cause)) ensures (s, cause) in tried[|old(tried)|..] {
        AttemptedIsIn(tried, |old(tried)|, (s, cause));
      }
    }

    /** Nobody is left and nobody is to be restarted: time to shut down. */
    method BecomeIdle()
      requires Inv() && k.children == {}
      requires forall s :: 0 <= s < |srv| ==> srv[s].pid == 0 ==> !plan.cfg[s].respawn && !srv[s].restartRequested
      modifies this`idle, k`doShutdown
      ensures Inv() && k.doShutdown
    {
      idle := true;
      k.doShutdown := true;
    }

    /** Runs until a shutdown is requested: rounds, each after one reaping of those that have died. */
    method MainLoop() returns (r: Outcome<()>)
      requires Inv() && !W().stopping
      modifies this`srv, this`exitCode, this`trace, this`tried, this`starts, this`waits, this`rounds, this`idle, k
      ensures InvUnless(r.Cut?) && !r.Thrown? && (r.Done? ==> k.doShutdown)
      ensures Keeps(old(W()), W(), old(k.doShutdown)) && old(tried) <= tried && (old(k.signaled) ==> k.signaled)
      ensures old(k.doShutdown) ==> trace == old(trace) && tried == old(tried) && idle == old(idle)
      ensures old(rounds) <= rounds && |waits| - |old(waits)| <= rounds - old(rounds) + 1
    {
      hide Legal, Replay, Allowed, Sound, Keeps, OnlyReaped, Booked, Underway;
      KeepsItself(W(), k.doShutdown);
      while true
        invariant Inv() && Passed(|old(k.script)|, old(k.clock), old(k.doShutdown), old(k.signaled))
        invariant Keeps(old(W()), W(), old(k.doShutdown)) && !W().stopping && old(tried) <= tried && idle == old(idle)
        invariant old(k.doShutdown) ==> trace == old(trace) && tried == old(tried)
        invariant old(rounds) <= rounds && |waits| - |old(waits)| == rounds - old(rounds)
        decreases |k.script|
      {
        if k.doShutdown { break; }
        ghost var w := W();
        var reaped := ChildHandler(0, -1);
        KeepsTwice(old(W()), w, W(), false, false);
        var none :- reaped;
        if k.doShutdown { break; }
        if none {
          var again := AnyToRestart();
          if !again {
            BecomeIdle();
            break;
          }
        }
        w := W();
        var round := RunRound();
        KeepsTwice(old(W()), w, W(), false, true);
        if round.Cut? { return Cut; }
      }
      return Done(());
    }

    method RecordThrow()
      requires Inv() && !W().stopping && !W().threw
      modifies this`trace, k`doShutdown
      ensures Inv() && k.doShutdown && W() == old(W()).(threw := true)
    {
      hide Legal, Replay, Sound, Booked, Underway;
      Record(StartUpThrew);
      k.doShutdown := true;
    }

    method RecordExit(status: int)
      requires Inv() && W().stopping && status == FinalStatus(W()) && forall s :: 0 <= s < |srv| ==> srv[s].pid == 0
      modifies this`trace
      ensures Legal(plan, trace) && trace == Then(old(trace), Finished(status)) && W() == old(W()).(over := true)
    {
      hide Legal, Replay, Booked, Underway;
      forall s | 0 <= s < |srv| ensures W().svcs[s].pid == 0 && !W().svcs[s].logger && !W().svcs[s].fd {
        assert Matches(srv[s], W().svcs[s], k.clock);
      }
      Record(Finished(status));
    }

    /**
     The start-up under its Try: the exit status is 1, and a shutdown requested, when anything threw, which
     is the loading or the start-up pass. The pass is begun whenever the loading did not throw.
     */
    method BringUp(loadThrew: bool) returns (r: Outcome<int>)
      requires Inv() && trace == Begin && tried == []
      modifies this`srv, this`exitCode, this`trace, this`tried, this`starts, k
      ensures InvUnless(r.Cut?) && !r.Thrown? && !W().stopping && W().termAll == NEVER && W().killAll == NEVER
      ensures r.Done? ==> r.value == (if W().threw then 1 else 0) && (W().threw ==> k.doShutdown)
      ensures loadThrew ==> r.Done? && tried == [] && W().threw
      ensures r.Done? && !loadThrew ==>
                if W().threw then exists n: nat :: PassBroke(n) && tried == StartUps(plan, n + 1)
                else exists n: nat :: n <= |plan.order| && tried == StartUps(plan, n) && (n == |plan.order| || k.doShutdown)
      ensures r.Done? && !k.doShutdown ==> tried == StartUps(plan, |plan.order|) && AllCleared(plan, W(), |plan.order|)
    {
      hide Legal, Allowed, Booked, Underway, StartUps, AllCleared, WaitError, NotReady;
      var up: Outcome<()> := Thrown;
      if !loadThrew {
        up := StartServices();
        if up.Cut? { return Cut; }
        assert forall n: nat :: n <= |plan.order| ==> [] + StartUps(plan, n) == StartUps(plan, n);
      }
      if up.Thrown? {
        ghost var n: nat :| loadThrew || (PassBroke(n) && tried == StartUps(plan, n + 1));
        RecordThrow();
        assert loadThrew || (PassBroke(n) && tried == StartUps(plan, n + 1));
        return Done(1);
      }
      return Done(0);
    }

    /**
     A whole run, up to the point where the script ends or the program exits with the status returned.
     The services were loaded before; loading may have thrown.
     */
    method Run(loadThrew: bool) returns (r: Outcome<int>)
      requires Inv() && trace == Begin && tried == [] && !idle
      modifies this, k
      ensures plan.Valid() && Legal(plan, trace) && !r.Thrown?
      ensures (r.Cut? ==> Mid()) && (loadThrew ==> W().forks == [])
      ensures r.Done? ==> k.signaled || W().decided || W().threw || (idle && StartUps(plan, |plan.order|) <= tried)
      ensures r.Done? ==> if loadThrew then W().threw && tried == [] else PassWentOn(plan, tried, W().threw, k.signaled || W().decided)
      ensures r.Done? ==>
                && k.children == {} && (forall s :: 0 <= s < |srv| ==> srv[s].pid == 0)
                && trace.Then? && trace.last == Finished(r.value) && r.value == FinalStatus(W())
                && Booked(tried, starts, W().forks)
    {
      hide Legal, Replay, Allowed, Sound, Booked, Underway, StartUps, AllCleared, GaveUp, StartFailed;
      NothingForked();
      var exitStatus :- BringUp(loadThrew);
      ghost var n: nat := 0;
      if !loadThrew {
        if W().threw {
          n :| PassBroke(n) && tried == StartUps(plan, n + 1);
          n := n + 1;
        } else {
          n :| n <= |plan.order| && tried == StartUps(plan, n) && (n == |plan.order| || k.doShutdown);
        }
      }
      var _ :- MainLoop();
      if exitStatus == 0 && exitCode != 0 { exitStatus := exitCode; }
      assert exitStatus == FinalStatus(W());
      var _ :- CinitShutdown();
      RecordExit(exitStatus);
      return Done(exitStatus);
    }
  }

  /**
   The start-up pass was begun. It failed at an entry whose failure is not ignored, and nothing was attempted
   after that; or it went on to the end, unless a shutdown was requested meanwhile.
   */
  ghost predicate PassWentOn(plan: Plan, tried: seq<(int, Cause)>, threw: bool, requested: bool)
    requires plan.Valid()
  {
    exists n: nat :: n <= |plan.order| &&
      if threw
      then n > 0 && tried == StartUps(plan, n) && !plan.cfg[plan.order[n - 1]].isGroup && !plan.cfg[plan.order[n - 1]].ignoreFailure
      else StartUps(plan, n) <= tried && (n == |plan.order| || requested)
  }

  lemma NothingForked()
    ensures forall starts, forks :: Booked([], starts, forks) ==> forks == []
    ensures forall starts, forks, forked :: !Underway([], starts, forks, forked)
  {}

  function ReapedNow(r: Outcome<Wait>): set<int> {
    if r.Done? && r.value.pid > 0 then {r.value.pid} else {}
  }
}
