/**
 The system below the supervisor, as an adversary.

 A run is driven by a finite script of answers. Every system call consumes one answer, which fixes
 how long the call took, whether SIGINT or SIGTERM arrived meanwhile, which processes were re-parented
 to (or left behind under) process 1, and what the call returned. When the script is exhausted, the
 run is cut at that call. Since every prefix of a run is driven by some script, what holds for every
 script holds at every call of every run, endless runs included.
 */
module Kernel {

  /** How a call ended: with a value, by throwing, or not at all within the observed prefix. */
  datatype Outcome<+T> = Done(value: T) | Thrown | Cut {
    predicate IsFailure() { !Done? }

    function PropagateFailure<U>(): Outcome<U>
      requires !Done?
    {
      if Thrown? then Thrown else Cut
    }

    function Extract(): T
      requires Done?
    {
      value
    }
  }

  datatype Status = Exited(code: int) | Signaled(sig: int) | Unknown

  datatype Answer = Answer(result: int, status: Status, elapsed: nat, signal: bool, adopted: set<int>)

  /** The outcome of waiting: the process reaped, 0 for none yet, or a negative error. */
  datatype Wait = Wait(pid: int, status: Status)

  const ECHILD: int := -1
  const EINTR: int := -4

  datatype Program = Kill | IsReady | Finish

  /** What the supervisor asks for when only the number that the call returns matters. */
  datatype Request =
    | EnterDirectory(sid: int)                            // chdir to the directory of a service
    | FindProgram(program: Program)                       // access, in the current directory
    | RunProgram(sid: int, program: Program, arg: int)    // its exit code
    | ProbeProcess(pid: int)                              // whether it exists
    | SignalTerm(pid: int)
    | SignalTermAll
    | SignalKillAll
    | AllocateMemory
    | CreateThread(sid: int)                              // the logger of a service
    | NextCommand                                         // the service named by a restart command, or a number that names none

  /** What a call returned. */
  datatype Reply =
    | Answered(what: Request, result: int)
    | ReadTime(time: nat)
    | Slept(msec: nat)
    | NewProcess(pid: int)               // 0 when no process could be made
    | WaitedFor(pid: int, wait: Wait)    // 0 for any child

  class System {
    var script: seq<Answer>
    var clock: nat
    var children: set<int>     // unreaped children
    var doShutdown: bool       // set by the handlers of SIGINT and SIGTERM, and by the supervisor
    ghost var signaled: bool   // SIGINT or SIGTERM arrived
    ghost var replies: seq<Reply>   // what the calls returned so far

    constructor (script: seq<Answer>)
      ensures this.script == script && clock == 0 && children == {} && !doShutdown && !signaled && replies == []
    {
      this.script, clock, children, doShutdown := script, 0, {}, false;
      signaled, replies := false, [];
    }

    /**
     Time only moves on; the shutdown flag is never reset, and a call sets it only when a signal arrives;
     the given children are still unreaped.
     */
    ghost predicate Since(answers: nat, time: nat, flag: bool, sig: bool, kids: set<int>)
      reads this
    {
      && |script| <= answers && time <= clock && kids <= children
      && (flag ==> doShutdown) && (sig ==> signaled) && (doShutdown && !flag ==> signaled) && (signaled && !sig ==> doShutdown)
    }

    method Call() returns (r: Outcome<Answer>)
      modifies this
      ensures Since(|old(script)|, old(clock), old(doShutdown), old(signaled), old(children))
      ensures !r.Thrown? && (r.Done? ==> |script| < |old(script)|) && replies == old(replies)
    {
      if script == [] { return Cut; }
      var a := script[0];
      script := script[1..];
      clock := clock + a.elapsed;
      doShutdown, signaled := doShutdown || a.signal, signaled || a.signal;
      children := children + set p | p in a.adopted && p > 0;
      return Done(a);
    }

    /** Any call whose only interest is the number it returns. */
    method Ask(what: Request) returns (r: Outcome<int>)
      modifies this
      ensures Since(|old(script)|, old(clock), old(doShutdown), old(signaled), old(children))
      ensures !r.Thrown? && (r.Done? ==> |script| < |old(script)|)
      ensures replies == if r.Done? then old(replies) + [Answered(what, r.value)] else old(replies)
    {
      var a :- Call();
      replies := replies + [Answered(what, a.result)];
      return Done(a.result);
    }

    method GetTime() returns (r: Outcome<nat>)
      modifies this
      ensures Since(|old(script)|, old(clock), old(doShutdown), old(signaled), old(children))
      ensures !r.Thrown? && (r.Done? ==> |script| < |old(script)| && r.value == clock)
      ensures replies == if r.Done? then old(replies) + [ReadTime(r.value)] else old(replies)
    {
      var _ :- Call();
      replies := replies + [ReadTime(clock)];
      return Done(clock);
    }

    method Sleep(msec: nat) returns (r: Outcome<()>)
      modifies this
      ensures Since(|old(script)|, old(clock), old(doShutdown), old(signaled), old(children))
      ensures !r.Thrown? && (r.Done? ==> |script| < |old(script)| && clock >= old(clock) + msec)
      ensures replies == if r.Done? then old(replies) + [Slept(msec)] else old(replies)
    {
      var _ :- Call();
      clock := clock + msec;
      replies := replies + [Slept(msec)];
      return Done(());
    }

    /**
     The pid of the child, which no unreaped child has, or 0 when no process could be made, and the
     time of the fork. The clock is read once more before a pid is returned; the two are one step.
     */
    method Fork() returns (r: Outcome<(int, nat)>)
      modifies this
      ensures Since(|old(script)|, old(clock), old(doShutdown), old(signaled), old(children))
      ensures !r.Thrown?
      ensures r.Done? ==> |script| < |old(script)| && r.value.0 >= 0 && old(clock) <= r.value.1 <= clock
      ensures r.Done? && r.value.0 > 0 ==> r.value.0 in children && r.value.0 !in old(children)
      ensures replies == if r.Done? then old(replies) + [NewProcess(r.value.0)] else old(replies)
    {
      var a :- Call();
      if a.result <= 0 || a.result in children {
        replies := replies + [NewProcess(0)];
        return Done((0, clock));
      }
      var forkedAt := clock;
      var _ :- Call();
      children := children + {a.result};
      replies := replies + [NewProcess(a.result)];
      return Done((a.result, forkedAt));
    }

    /** Waits for any child without blocking. */
    method WaitAny() returns (r: Outcome<Wait>)
      modifies this
      ensures Since(|old(script)|, old(clock), old(doShutdown), old(signaled), old(children) - if r.Done? then {r.value.pid} else {})
      ensures !r.Thrown? && (r.Done? ==> |script| < |old(script)| && r.value.pid >= ECHILD)
      ensures r.Done? && r.value.pid <= 0 ==> old(children) <= children
      ensures r.Done? && r.value.pid == ECHILD ==> children == {}
      ensures replies == if r.Done? then old(replies) + [WaitedFor(0, r.value)] else old(replies)
    {
      var a :- Call();
      var w := Wait(0, Unknown);
      if children == {} {
        w := Wait(ECHILD, Unknown);
      } else if a.result > 0 && a.result in children {
        children := children - {a.result};
        w := Wait(a.result, a.status);
      }
      replies := replies + [WaitedFor(0, w)];
      return Done(w);
    }

    /** Waits for one child. A negative result is EINTR or another error; 0 needs not to block. */
    method WaitFor(pid: int, block: bool) returns (r: Outcome<Wait>)
      requires pid > 0
      modifies this
      ensures Since(|old(script)|, old(clock), old(doShutdown), old(signaled), old(children) - if r.Done? then {r.value.pid} else {})
      ensures !r.Thrown? && (r.Done? ==> |script| < |old(script)| && (r.value.pid <= 0 || r.value.pid == pid))
      ensures r.Done? && r.value.pid <= 0 ==> old(children) <= children
      ensures r.Done? && r.value.pid == 0 ==> !block
      ensures replies == if r.Done? then old(replies) + [WaitedFor(pid, r.value)] else old(replies)
    {
      var a :- Call();
      var w := Wait(if a.result < 0 then a.result else if block then EINTR else 0, Unknown);
      if a.result == pid && pid in children {
        children := children - {pid};
        w := Wait(pid, a.status);
      }
      replies := replies + [WaitedFor(pid, w)];
      return Done(w);
    }
  }
}
