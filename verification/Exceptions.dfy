/**
 The Try/Catch/ExitTry/Throw macros, as a machine over one frame pointer and one exception cell,
 and the structured exceptions that programs written with them expect.
 */
module Exceptions {

  /** A message; the empty one means that there is no exception. */
  type Message = string

  const NONE: Message := ""

  /** The control structure of C code that uses the macros. ExitTry() is Throw(NONE). */
  datatype Stmt =
    | Skip
    | Act(n: int)                         // any effect that can be observed
    | Throw(m: Message)
    | Rethrow(prefix: Message)            // throws a message made from the caught one
    | Seq(first: Stmt, second: Stmt)
    | If(yes: Stmt, no: Stmt)             // on a condition that the program does not choose
    | While(body: Stmt)
    | Break
    | Continue
    | TryCatch(body: Stmt, handler: Stmt)
    | Call(callee: Stmt)                  // a function with its own variable e
    | Return

  // ---------------------------------------------------------------------------------------------
  // Structured exceptions
  // ---------------------------------------------------------------------------------------------

  /**
   The effects so far, the variable e of the current function, and how the conditions to come turn out.
   When nothing is left of these they are false; every terminating execution has such a list.
   */
  datatype State = State(log: seq<int>, e: Message, script: seq<bool>)

  datatype Outcome = Normal | Escapes(m: Message) | Returned | Broke | Continued

  predicate Chosen(script: seq<bool>) {
    script != [] && script[0]
  }

  function Later(script: seq<bool>): (rest: seq<bool>)
    ensures |rest| <= |script| && (Chosen(script) ==> |rest| < |script|)
  {
    if script == [] then [] else script[1..]
  }

  function Eval(s: Stmt, st: State): (r: (Outcome, State))
    ensures |r.1.script| <= |st.script|
    decreases |st.script|, s
  {
    match s
    case Skip => (Normal, st)
    case Act(n) => (Normal, st.(log := st.log + [n]))
    case Throw(m) => (Escapes(m), st)
    case Rethrow(p) => (Escapes(p + st.e), st)
    case Seq(a, b) =>
      var r := Eval(a, st);
      if r.0.Normal? then Eval(b, r.1) else r
    case If(a, b) => Eval(if Chosen(st.script) then a else b, st.(script := Later(st.script)))
    case While(body) =>
      if !Chosen(st.script) then (Normal, st.(script := Later(st.script)))
      else
        var r := Eval(body, st.(script := Later(st.script)));
        if r.0.Normal? || r.0.Continued? then Eval(s, r.1)
        else (if r.0.Broke? then Normal else r.0, r.1)
    case Break => (Broke, st)
    case Continue => (Continued, st)
    case TryCatch(body, handler) =>
      var r := Eval(body, st);
      if !r.0.Escapes? then r
      else if r.0.m == NONE then (Normal, r.1.(e := NONE))
      else Eval(handler, r.1.(e := r.0.m))
    case Call(callee) =>
      var r := Eval(callee, st.(e := NONE));
      (if r.0.Escapes? then r.0 else Normal, r.1.(e := st.e))
    case Return => (Returned, st)
  }

  /**
   No return statement leaves a Try body, and every break and continue has its loop in the same function
   and in the same Try body. Handlers and functions called from the body may return.
   */
  predicate NoEarlyExit(s: Stmt, inTry: bool, inLoop: bool) {
    match s
    case Seq(a, b) => NoEarlyExit(a, inTry, inLoop) && NoEarlyExit(b, inTry, inLoop)
    case If(a, b) => NoEarlyExit(a, inTry, inLoop) && NoEarlyExit(b, inTry, inLoop)
    case While(body) => NoEarlyExit(body, inTry, true)
    case TryCatch(body, handler) => NoEarlyExit(body, true, false) && NoEarlyExit(handler, inTry, inLoop)
    case Call(callee) => NoEarlyExit(callee, false, false)
    case Return => !inTry
    case Break => inLoop
    case Continue => inLoop
    case _ => true
  }

  /** A Try body ends normally or with an exception, and so does, but for a return, whatever is in no loop. */
  lemma {:induction false} NoOtherWayOut(s: Stmt, st: State, inTry: bool, inLoop: bool)
    requires NoEarlyExit(s, inTry, inLoop)
    ensures var r := Eval(s, st).0; (inTry ==> !r.Returned?) && (!inLoop ==> !r.Broke? && !r.Continued?)
    decreases |st.script|, s
  {
    match s
    case Seq(a, b) =>
      NoOtherWayOut(a, st, inTry, inLoop);
      NoOtherWayOut(b, Eval(a, st).1, inTry, inLoop);
    case If(a, b) =>
      NoOtherWayOut(if Chosen(st.script) then a else b, st.(script := Later(st.script)), inTry, inLoop);
    case While(body) =>
      if Chosen(st.script) {
        var r := Eval(body, st.(script := Later(st.script)));
        NoOtherWayOut(body, st.(script := Later(st.script)), inTry, true);
        NoOtherWayOut(s, r.1, inTry, inLoop);
      }
    case TryCatch(body, handler) =>
      var r := Eval(body, st);
      NoOtherWayOut(body, st, true, false);
      if r.0.Escapes? { NoOtherWayOut(handler, r.1.(e := r.0.m), inTry, inLoop); }
    case _ =>
  }

  /** A handler that only throws again what it caught makes no difference, but that nothing escapes as an empty message. */
  lemma RethrowIsTransparent(body: Stmt, st: State)
    ensures var r, t := Eval(body, st), Eval(TryCatch(body, Rethrow("")), st);
            && t.0 == (if r.0 == Escapes("") then Normal else r.0)
            && t.1.log == r.1.log && t.1.script == r.1.script && (!r.0.Escapes? ==> t.1.e == r.1.e)
  {
    var r := Eval(body, st);
    if r.0.Escapes? { assert "" + r.0.m == r.0.m; }
  }

  /** A throw ends the body at once, and the handler runs, unless the message is empty, with the effects so far. */
  lemma ThrowSkipsTheRest(n: int, m: Message, rest: Stmt, handler: Stmt, st: State)
    ensures var body := Seq(Act(n), Seq(Throw(m), rest));
            var after := State(st.log + [n], m, st.script);
            Eval(TryCatch(body, handler), st) == if m == "" then (Normal, after) else Eval(handler, after)
  {
    var st1 := st.(log := st.log + [n]);
    assert Eval(Throw(m), st1) == (Escapes(m), st1);
    assert Eval(Seq(Throw(m), rest), st1) == (Escapes(m), st1);
    assert Eval(Act(n), st) == (Normal, st1);
    assert Eval(Seq(Act(n), Seq(Throw(m), rest)), st) == (Escapes(m), st1);
  }

  /** A function has its own variable, whatever it does to it, and only an exception leaves it. */
  lemma CallsKeepTheVariable(callee: Stmt, st: State)
    ensures var r := Eval(Call(callee), st); r.1.e == st.e && (r.0.Normal? || r.0.Escapes?)
  {}

  // ---------------------------------------------------------------------------------------------
  // The macros
  // ---------------------------------------------------------------------------------------------

  /**
   What is left to do, innermost last. The position of an AfterBody record is the address of the
   jump buffer of its Try.
   */
  datatype Kont =
    | Run(s: Stmt)
    | AfterBody(prev: int, handler: Stmt)   // setjmp returned 0 here; prev is PrevFrame
    | Landed(prev: int, handler: Stmt)      // setjmp returned 1
    | Restore(prev: int, handler: Stmt)     // both ways join
    | Test(handler: Stmt)                   // the condition of the Catch block
    | Raise(m: Message)                     // Throw is entered
    | EndCall(e: Message)                   // the caller's variable e
    | Again(body: Stmt)                     // the end of a loop body

  datatype Fate = Running | Unhandled | Undefined

  datatype Config = Config(stack: seq<Kont>, pFrame: int, exception: Message, e: Message, log: seq<int>, script: seq<bool>, fate: Fate)

  const NULL: int := -1

  /** The stack after a return: up to the innermost function call. */
  function Unwound(stack: seq<Kont>): (r: seq<Kont>)
    ensures r <= stack
  {
    if stack == [] then []
    else if stack[|stack| - 1].EndCall? then stack
    else Unwound(stack[..|stack| - 1])
  }

  /** The stack after a continue: up to the innermost loop. A break takes the loop away as well. */
  function ToLoop(stack: seq<Kont>): (r: seq<Kont>)
    ensures r <= stack
  {
    if stack == [] then []
    else if stack[|stack| - 1].Again? then stack
    else ToLoop(stack[..|stack| - 1])
  }

  function OutOfLoop(stack: seq<Kont>): seq<Kont> {
    var r := ToLoop(stack);
    if r == [] then [] else r[..|r| - 1]
  }

  function Step(c: Config): Config {
    if c.stack == [] || !c.fate.Running? then c else
    var rest := c.stack[..|c.stack| - 1];
    match c.stack[|c.stack| - 1]
    case Run(s) => StepStmt(s, c.(stack := rest))
    case AfterBody(prev, handler) => c.(stack := rest + [Restore(prev, handler)], exception := NONE)
    case Landed(prev, handler) => c.(stack := rest + [Restore(prev, handler)], e := c.exception)
    case Restore(prev, handler) => c.(stack := rest + [Test(handler)], pFrame := prev)
    case Test(handler) => if c.exception != NONE then c.(stack := rest + [Run(handler)]) else c.(stack := rest)
    case Raise(m) => LongJmp(c.(stack := rest, exception := m))
    case EndCall(e) => c.(stack := rest, e := e)
    case Again(body) => c.(stack := rest + [Run(While(body))])
  }

  function StepStmt(s: Stmt, c: Config): Config {
    match s
    case Skip => c
    case Act(n) => c.(log := c.log + [n])
    case Throw(m) => c.(stack := c.stack + [Raise(m)])
    case Rethrow(p) => c.(stack := c.stack + [Raise(p + c.e)])
    case Seq(a, b) => c.(stack := c.stack + [Run(b), Run(a)])
    case If(a, b) => c.(stack := c.stack + [Run(if Chosen(c.script) then a else b)], script := Later(c.script))
    case While(body) =>
      c.(stack := if Chosen(c.script) then c.stack + [Again(body), Run(body)] else c.stack, script := Later(c.script))
    case Break => c.(stack := OutOfLoop(c.stack))
    case Continue => c.(stack := ToLoop(c.stack))
    case TryCatch(body, handler) =>
      c.(stack := c.stack + [AfterBody(c.pFrame, handler), Run(body)], pFrame := |c.stack|, exception := NONE)
    case Call(callee) => c.(stack := c.stack + [EndCall(c.e), Run(callee)], e := NONE)
    case Return => c.(stack := Unwound(c.stack))
  }

  /** Jumping to a buffer whose Try is gone is undefined. */
  function LongJmp(c: Config): Config {
    if c.pFrame == NULL then c.(fate := Unhandled)
    else if 0 <= c.pFrame < |c.stack| && c.stack[c.pFrame].AfterBody? then
      var f := c.stack[c.pFrame];
      c.(stack := c.stack[..c.pFrame] + [Landed(f.prev, f.handler)])
    else c.(fate := Undefined)
  }

  function Steps(c: Config, n: nat): Config
    decreases n
  {
    if n == 0 then c else Steps(Step(c), n - 1)
  }

  lemma {:induction false} StepsAdd(c: Config, n: nat, m: nat)
    ensures Steps(Steps(c, n), m) == Steps(c, n + m)
    decreases n
  {
    if n > 0 { StepsAdd(Step(c), n - 1, m); }
  }

  lemma OneStep(c: Config)
    ensures Steps(c, 1) == Step(c)
  {
    assert Steps(c, 1) == Steps(Step(c), 0);
  }

  /** Where the machine is after the statement, given where structured exceptions say it should be. */
  ghost predicate Arrives(c: Config, stack: seq<Kont>, pFrame: int, r: (Outcome, State)) {
    && c.fate.Running? && c.pFrame == pFrame && c.log == r.1.log && c.script == r.1.script
    && match r.0
       case Normal => c.stack == stack && c.e == r.1.e
       case Returned => c.stack == Unwound(stack)
       case Broke => c.stack == OutOfLoop(stack) && c.e == r.1.e
       case Continued => c.stack == ToLoop(stack) && c.e == r.1.e
       case Escapes(m) =>
         // about to throw m, with everything below the statement untouched
         && |c.stack| > |stack| && c.stack[..|stack|] == stack && c.stack[|c.stack| - 1] == Raise(m)
  }

  function StateOf(c: Config): State {
    State(c.log, c.e, c.script)
  }

  /**
   Every statement without early exits behaves as structured exceptions say, whatever surrounds it:
   the frame pointer is what it was, a throw reaches the enclosing Try with everything below intact.
   */
  lemma {:induction false} MacrosRefineExceptions(s: Stmt, inTry: bool, inLoop: bool, c: Config, stack: seq<Kont>) returns (n: nat)
    requires NoEarlyExit(s, inTry, inLoop) && c.fate.Running? && c.stack == stack + [Run(s)]
    ensures Arrives(Steps(c, n), stack, c.pFrame, Eval(s, StateOf(c)))
    decreases |c.script|, s
  {
    assert c.stack[..|c.stack| - 1] == stack;
    match s {
      case Seq(a, b) => n := SeqRefines(a, b, inTry, inLoop, c, stack);
      case If(a, b) => n := IfRefines(a, b, inTry, inLoop, c, stack);
      case While(body) => n := WhileRefines(body, inTry, c, stack);
      case TryCatch(body, handler) => n := TryRefines(body, handler, inTry, inLoop, c, stack);
      case Call(callee) => n := CallRefines(callee, c, stack);
      case _ =>
        n := 1;
        OneStep(c);
    }
  }

  lemma {:induction false} SeqRefines(a: Stmt, b: Stmt, inTry: bool, inLoop: bool, c: Config, stack: seq<Kont>) returns (n: nat)
    requires NoEarlyExit(Seq(a, b), inTry, inLoop) && c.fate.Running? && c.stack == stack + [Run(Seq(a, b))]
    ensures Arrives(Steps(c, n), stack, c.pFrame, Eval(Seq(a, b), StateOf(c)))
    decreases |c.script|, Seq(a, b), 0
  {
    hide Steps, LongJmp;
    assert c.stack[..|c.stack| - 1] == stack;
    var c1 := Step(c);
    var mid := stack + [Run(b)];
    assert c1.stack == mid + [Run(a)];
    var n1 := MacrosRefineExceptions(a, inTry, inLoop, c1, mid);
    var c2, r := Steps(c1, n1), Eval(a, StateOf(c));
    StepsAdd(c, 1, n1);
    OneStep(c);
    if r.0.Normal? {
      var n2 := MacrosRefineExceptions(b, inTry, inLoop, c2, stack);
      StepsAdd(c, 1 + n1, n2);
      n := 1 + n1 + n2;
    } else {
      n := 1 + n1;
      assert mid[..|mid| - 1] == stack;
      if r.0.Escapes? { assert c2.stack[..|stack|] == c2.stack[..|mid|][..|stack|] == stack; }
    }
  }

  lemma {:induction false} IfRefines(a: Stmt, b: Stmt, inTry: bool, inLoop: bool, c: Config, stack: seq<Kont>) returns (n: nat)
    requires NoEarlyExit(If(a, b), inTry, inLoop) && c.fate.Running? && c.stack == stack + [Run(If(a, b))]
    ensures Arrives(Steps(c, n), stack, c.pFrame, Eval(If(a, b), StateOf(c)))
    decreases |c.script|, If(a, b), 0
  {
    hide Steps, LongJmp, Arrives;
    assert c.stack[..|c.stack| - 1] == stack;
    n := MacrosRefineExceptions(if Chosen(c.script) then a else b, inTry, inLoop, Step(c), stack);
    StepsAdd(c, 1, n);
    OneStep(c);
    n := n + 1;
  }

  lemma {:induction false} WhileRefines(body: Stmt, inTry: bool, c: Config, stack: seq<Kont>) returns (n: nat)
    requires NoEarlyExit(body, inTry, true) && c.fate.Running? && c.stack == stack + [Run(While(body))]
    ensures Arrives(Steps(c, n), stack, c.pFrame, Eval(While(body), StateOf(c)))
    decreases |c.script|, While(body), 0
  {
    hide Steps, LongJmp;
    assert c.stack[..|c.stack| - 1] == stack;
    var c1 := Step(c);
    OneStep(c);
    n := 1;
    if Chosen(c.script) {
      var mid := stack + [Again(body)];
      assert c1.stack == mid + [Run(body)] && mid[..|mid| - 1] == stack;
      var n1 := MacrosRefineExceptions(body, inTry, true, c1, mid);
      var c2, r := Steps(c1, n1), Eval(body, StateOf(c1));
      StepsAdd(c, 1, n1);
      n := 1 + n1;
      if r.0.Normal? || r.0.Continued? {
        assert c2.stack == mid;
        OneStep(c2);
        StepsAdd(c, n, 1);
        var n2 := WhileRefines(body, inTry, Step(c2), stack);
        StepsAdd(c, n + 1, n2);
        n := n + 1 + n2;
      } else if r.0.Escapes? {
        assert c2.stack[..|stack|] == c2.stack[..|mid|][..|stack|] == stack;
      }
    }
  }

  lemma {:induction false} CallRefines(callee: Stmt, c: Config, stack: seq<Kont>) returns (n: nat)
    requires NoEarlyExit(callee, false, false) && c.fate.Running? && c.stack == stack + [Run(Call(callee))]
    ensures Arrives(Steps(c, n), stack, c.pFrame, Eval(Call(callee), StateOf(c)))
    decreases |c.script|, Call(callee), 0
  {
    hide Steps, LongJmp;
    assert c.stack[..|c.stack| - 1] == stack;
    var c1 := Step(c);
    var mid := stack + [EndCall(c.e)];
    assert c1.stack == mid + [Run(callee)];
    var n1 := MacrosRefineExceptions(callee, false, false, c1, mid);
    var c2, r := Steps(c1, n1), Eval(callee, StateOf(c1));
    NoOtherWayOut(callee, StateOf(c1), false, false);
    StepsAdd(c, 1, n1);
    OneStep(c);
    assert mid[..|mid| - 1] == stack;
    if r.0.Escapes? {
      n := 1 + n1;
      assert c2.stack[..|stack|] == c2.stack[..|mid|][..|stack|] == stack;
    } else {
      assert c2.stack == mid;
      StepsAdd(c, 1 + n1, 1);
      OneStep(c2);
      n := 1 + n1 + 1;
    }
  }

  lemma {:induction false} TryRefines(body: Stmt, handler: Stmt, inTry: bool, inLoop: bool, c: Config, stack: seq<Kont>) returns (n: nat)
    requires NoEarlyExit(TryCatch(body, handler), inTry, inLoop) && c.fate.Running? && c.stack == stack + [Run(TryCatch(body, handler))]
    ensures Arrives(Steps(c, n), stack, c.pFrame, Eval(TryCatch(body, handler), StateOf(c)))
    decreases |c.script|, TryCatch(body, handler), 1
  {
    hide Steps, LongJmp;
    assert c.stack[..|c.stack| - 1] == stack;
    var c1 := Step(c);
    var mid := stack + [AfterBody(c.pFrame, handler)];
    assert c1.stack == mid + [Run(body)];
    var n1 := MacrosRefineExceptions(body, true, false, c1, mid);
    var c2, r := Steps(c1, n1), Eval(body, StateOf(c));
    NoOtherWayOut(body, StateOf(c), true, false);
    StepsAdd(c, 1, n1);
    OneStep(c);
    var k := AfterTheBody(body, handler, inTry, inLoop, c2, stack, c.pFrame, r);
    StepsAdd(c, 1 + n1, k);
    n := 1 + n1 + k;
  }

  /** From the end of a Try body, or from a throw in it, to what follows the Try or to its handler. */
  lemma TryEnds(c: Config, stack: seq<Kont>, prev: int, handler: Stmt, r: (Outcome, State)) returns (k: nat)
    requires Arrives(c, stack + [AfterBody(prev, handler)], |stack|, r) && (r.0.Normal? || r.0.Escapes?)
    ensures var d := Steps(c, k);
            && d.fate.Running? && d.pFrame == prev && d.log == r.1.log && d.script == r.1.script
            && match r.0
               case Normal => d.stack == stack && d.e == r.1.e
               case Escapes(m) => d.e == m && d.stack == if m == NONE then stack else stack + [Run(handler)]
               case _ => true
  {
    var mid := stack + [AfterBody(prev, handler)];
    assert mid[..|stack|] == stack && mid[|mid| - 1] == AfterBody(prev, handler);
    var c1 := Step(c);
    if r.0.Normal? {
      assert c1 == c.(stack := stack + [Restore(prev, handler)], exception := NONE);
      RestoreFollows(c1, stack, prev, handler);
      assert Steps(c, 3) == Steps(c1, 2);
      k := 3;
    } else {
      assert c.stack[|stack|] == c.stack[..|mid|][|stack|];
      assert c.stack[..|stack|] == c.stack[..|mid|][..|stack|];
      assert c.stack[..|c.stack| - 1][|stack|] == AfterBody(prev, handler);
      assert c.stack[..|c.stack| - 1][..|stack|] == stack;
      assert c1 == c.(stack := stack + [Landed(prev, handler)], exception := r.0.m);
      assert c1.stack[..|stack|] == stack;
      var c2 := Step(c1);
      assert c2 == c1.(stack := stack + [Restore(prev, handler)], e := r.0.m);
      RestoreFollows(c2, stack, prev, handler);
      assert Steps(c, 4) == Steps(c1, 3) == Steps(c2, 2);
      k := 4;
    }
  }

  lemma RestoreFollows(c: Config, stack: seq<Kont>, prev: int, handler: Stmt)
    requires c.fate.Running? && c.stack == stack + [Restore(prev, handler)]
    ensures Steps(c, 2) == c.(pFrame := prev, stack := if c.exception == NONE then stack else stack + [Run(handler)])
  {
    assert c.stack[..|stack|] == stack;
    var c1 := Step(c);
    assert c1.stack == stack + [Test(handler)] && c1.stack[..|stack|] == stack;
    assert Steps(c, 2) == Steps(c1, 1) == Steps(Step(c1), 0);
  }

  /** Where a return, a break or a continue leads. */
  function Leaving(o: Outcome, stack: seq<Kont>): seq<Kont> {
    if o.Returned? then Unwound(stack) else if o.Broke? then OutOfLoop(stack) else ToLoop(stack)
  }

  /**
   A single Try whose body may be left early, exactly: the frame pointer is restored if and only if the
   body did not return, break or continue. After an early exit it designates the buffer of the Try that is gone.
   */
  lemma {:induction false} FrameRestoredExactly(body: Stmt, handler: Stmt, inLoop: bool, c: Config, stack: seq<Kont>) returns (n: nat)
    requires NoEarlyExit(body, false, inLoop) && NoEarlyExit(handler, false, inLoop) && c.pFrame < |stack|
    requires c.fate.Running? && c.stack == stack + [Run(TryCatch(body, handler))]
    ensures var d, r, o := Steps(c, n), Eval(TryCatch(body, handler), StateOf(c)), Eval(body, StateOf(c)).0;
            if o.Normal? || o.Escapes? then Arrives(d, stack, c.pFrame, r)
            else d.stack == Leaving(o, stack) && d.log == r.1.log && d.pFrame == |stack| > c.pFrame
  {
    hide Steps, LongJmp;
    assert c.stack[..|c.stack| - 1] == stack;
    var c1, mid := Step(c), stack + [AfterBody(c.pFrame, handler)];
    assert c1.stack == mid + [Run(body)];
    var n1 := MacrosRefineExceptions(body, false, inLoop, c1, mid);
    var r := Eval(body, StateOf(c));
    StepsAdd(c, 1, n1);
    OneStep(c);
    n := 1 + n1;
    if r.0.Normal? || r.0.Escapes? {
      var k := AfterTheBody(body, handler, false, inLoop, Steps(c1, n1), stack, c.pFrame, r);
      StepsAdd(c, n, k);
      n := n + k;
    } else {
      assert mid[..|mid| - 1] == stack;
    }
  }

  /** The end of a Try, its handler included when it runs. */
  lemma AfterTheBody(body: Stmt, handler: Stmt, inTry: bool, inLoop: bool, c: Config, stack: seq<Kont>, prev: int, r: (Outcome, State))
      returns (n: nat)
    requires NoEarlyExit(handler, inTry, inLoop) && (r.0.Normal? || r.0.Escapes?)
    requires Arrives(c, stack + [AfterBody(prev, handler)], |stack|, r)
    ensures Arrives(Steps(c, n), stack, prev,
                    if r.0.Normal? then r else if r.0.m == NONE then (Normal, r.1.(e := NONE)) else Eval(handler, r.1.(e := r.0.m)))
    decreases |c.script|, TryCatch(body, handler), 0
  {
    n := TryEnds(c, stack, prev, handler, r);
    if r.0.Escapes? && r.0.m != NONE {
      var k := MacrosRefineExceptions(handler, inTry, inLoop, Steps(c, n), stack);
      StepsAdd(c, n, k);
      n := n + k;
    }
  }

  function Load(program: Stmt, script: seq<bool>): Config {
    Config([Run(program)], NULL, NONE, NONE, [], script, Running)
  }

  /** A function that returns from inside a Try leaves the frame pointer at the buffer of that Try. */
  lemma EarlyExitDangles(c: Config, below: seq<Kont>, e: Message, handler: Stmt)
    requires c.fate.Running? && c.stack == below + [EndCall(e), Run(TryCatch(Return, handler))]
    ensures Steps(c, 2) == c.(stack := below + [EndCall(e)], pFrame := |below| + 1, exception := NONE)
  {
    hide Steps, LongJmp, Unwound, ToLoop;
    var calling := below + [EndCall(e)];
    assert c.stack[..|c.stack| - 1] == calling;
    var rest := calling + [AfterBody(c.pFrame, handler)];
    assert Step(c).stack == rest + [Run(Return)];
    OneStep(c);
    ReturnUnwinds(Step(c), rest);
    assert rest[..|rest| - 1] == calling && calling[|calling| - 1].EndCall?;
    UnwoundAt(rest);
    UnwoundAt(calling);
    OneStep(Step(c));
    StepsAdd(c, 1, 1);
  }

  lemma UnwoundAt(stack: seq<Kont>)
    requires stack != []
    ensures Unwound(stack) == if stack[|stack| - 1].EndCall? then stack else Unwound(stack[..|stack| - 1])
  {}

  lemma ReturnUnwinds(c: Config, rest: seq<Kont>)
    requires c.fate.Running? && c.stack == rest + [Run(Return)]
    ensures Step(c) == c.(stack := Unwound(rest))
  {
    hide Unwound, LongJmp, ToLoop;
    assert c.stack[..|c.stack| - 1] == rest;
  }

  lemma CallBegins(callee: Stmt, next: Stmt)
    ensures var c := Load(Seq(Call(callee), next), []);
            Steps(c, 2) == c.(stack := [Run(next), EndCall(NONE), Run(callee)])
  {
    var c := Load(Seq(Call(callee), next), []);
    var c1 := Step(c);
    assert c1.stack == [Run(next), Run(Call(callee))] && c1.stack[..1] == [Run(next)];
    assert Steps(c, 2) == Steps(c1, 1) == Steps(Step(c1), 0);
  }

  /** A return out of a Try body, and the next throw jumps into a frame that no longer exists. */
  lemma EarlyExitBreaks(m: Message)
    ensures var program := Seq(Call(TryCatch(Return, Skip)), Throw(m));
            && Eval(program, State([], NONE, [])).0 == Escapes(m)
            && Steps(Load(program, []), 7).fate == Undefined
  {
    hide Steps, Step;
    var c0 := Load(Seq(Call(TryCatch(Return, Skip)), Throw(m)), []);
    CallBegins(TryCatch(Return, Skip), Throw(m));
    var below := [Run(Throw(m))];
    assert Steps(c0, 2).stack == below + [EndCall(NONE), Run(TryCatch(Return, Skip))];
    EarlyExitDangles(Steps(c0, 2), below, NONE, Skip);
    StepsAdd(c0, 2, 2);
    assert below + [EndCall(NONE)] == [Run(Throw(m)), EndCall(NONE)];
    StepsAdd(c0, 4, 3);
    ThrowIntoNowhere(m);
  }

  lemma ThrowIntoNowhere(m: Message)
    ensures Steps(Config([Run(Throw(m)), EndCall(NONE)], 2, NONE, NONE, [], [], Running), 3).fate == Undefined
  {
    var c4 := Config([Run(Throw(m)), EndCall(NONE)], 2, NONE, NONE, [], [], Running);
    var c5 := Step(c4);
    assert c5.stack == [Run(Throw(m))] && c5.pFrame == 2;
    var c6 := Step(c5);
    assert c6.stack == [Raise(m)];
    assert Steps(c4, 3) == Steps(c5, 2) == Steps(c6, 1) == Step(c6);
  }

  // ---------------------------------------------------------------------------------------------
  // The machine in place
  // ---------------------------------------------------------------------------------------------

  class Machine {
    var stack: seq<Kont>
    var pFrame: int            // CExceptionFrames[0].pFrame
    var exception: Message     // CExceptionFrames[0].Exception
    var e: Message
    var log: seq<int>
    var script: seq<bool>      // how the conditions to come turn out
    var fate: Fate

    ghost function View(): Config
      reads this
    {
      Config(stack, pFrame, exception, e, log, script, fate)
    }

    constructor (program: Stmt, script: seq<bool>)
      ensures View() == Load(program, script)
    {
      stack, pFrame, exception, e, log, fate := [Run(program)], NULL, NONE, NONE, [], Running;
      this.script := script;
    }

    method Throw(m: Message)
      requires fate.Running?
      modifies this
      ensures View() == LongJmp(old(View()).(exception := m))
    {
      exception := m;
      if pFrame == NULL {
        fate := Unhandled;
      } else if 0 <= pFrame < |stack| && stack[pFrame].AfterBody? {
        var frame := stack[pFrame];
        stack := stack[..pFrame] + [Landed(frame.prev, frame.handler)];
      } else {
        fate := Undefined;
      }
    }

    /** The opening of Try: the frame pointer is saved and set, the cell is cleared. */
    method Try(body: Stmt, handler: Stmt)
      modifies this
      ensures View() == StepStmt(TryCatch(body, handler), old(View()))
    {
      var prevFrame := pFrame;
      pFrame := |stack|;
      exception := NONE;
      stack := stack + [AfterBody(prevFrame, handler), Run(body)];
    }

    method ReturnFromFunction()
      modifies this
      ensures View() == StepStmt(Return, old(View()))
    {
      while stack != [] && !stack[|stack| - 1].EndCall?
        invariant Unwound(stack) == Unwound(old(stack))
        invariant pFrame == old(pFrame) && exception == old(exception) && e == old(e)
        invariant log == old(log) && script == old(script) && fate == old(fate)
      {
        stack := stack[..|stack| - 1];
      }
    }

    /** A break or a continue: like a return it does not touch the frame pointer. */
    method LeaveBody(break': bool)
      modifies this
      ensures View() == StepStmt(if break' then Break else Continue, old(View()))
    {
      while stack != [] && !stack[|stack| - 1].Again?
        invariant ToLoop(stack) == ToLoop(old(stack))
        invariant pFrame == old(pFrame) && exception == old(exception) && e == old(e)
        invariant log == old(log) && script == old(script) && fate == old(fate)
      {
        stack := stack[..|stack| - 1];
      }
      if break' && stack != [] { stack := stack[..|stack| - 1]; }
    }

    /** The next condition. */
    method Choose() returns (yes: bool)
      modifies this`script
      ensures yes == Chosen(old(script)) && script == Later(old(script))
    {
      yes := Chosen(script);
      script := Later(script);
    }

    method Advance()
      requires stack != [] && fate.Running?
      modifies this
      ensures View() == Step(old(View()))
    {
      var k := stack[|stack| - 1];
      stack := stack[..|stack| - 1];
      match k
      case Run(Skip) =>
      case Run(Act(n)) => log := log + [n];
      case Run(Throw(m)) => stack := stack + [Raise(m)];
      case Run(Rethrow(p)) => stack := stack + [Raise(p + e)];
      case Run(Seq(a, b)) => stack := stack + [Run(b), Run(a)];
      case Run(If(a, b)) =>
        var yes := Choose();
        stack := stack + [Run(if yes then a else b)];
      case Run(While(body)) =>
        var yes := Choose();
        if yes { stack := stack + [Again(body), Run(body)]; }
      case Run(Break) => LeaveBody(true);
      case Run(Continue) => LeaveBody(false);
      case Again(body) => stack := stack + [Run(While(body))];
      case Run(TryCatch(body, handler)) => Try(body, handler);
      case Run(Call(callee)) =>
        stack := stack + [EndCall(e), Run(callee)];
        e := NONE;
      case Run(Return) => ReturnFromFunction();
      case AfterBody(prev, handler) =>
        exception := NONE;
        stack := stack + [Restore(prev, handler)];
      case Landed(prev, handler) =>
        e := exception;
        stack := stack + [Restore(prev, handler)];
      case Restore(prev, handler) =>
        pFrame := prev;
        stack := stack + [Test(handler)];
      case Test(handler) =>
        if exception != NONE { stack := stack + [Run(handler)]; }
      case Raise(m) => Throw(m);
      case EndCall(saved) => e := saved;
    }
  }

  /**
   A whole program without early exits ends as structured exceptions say: either it is done, with no
   frame left, or the exception that escapes it is reported as unhandled. It never jumps to a dead frame.
   */
  method Execute(program: Stmt, script: seq<bool>) returns (m: Machine)
    requires NoEarlyExit(program, false, false)
    ensures var r := Eval(program, State([], NONE, script));
            && m.log == r.1.log
            && match r.0
               case Escapes(x) => m.fate == Unhandled && m.exception == x
               case _ => m.fate == Running && m.stack == [] && m.pFrame == NULL
  {
    hide Unwound, StepStmt, LongJmp, Eval, NoEarlyExit;
    m := new Machine(program, script);
    ghost var c := m.View();
    ghost var last := ProgramEnds(program, script);
    ghost var k := 0;
    while m.stack != [] && m.fate.Running?
      invariant fresh(m) && 0 <= k <= last && m.View() == Steps(c, k)
      decreases last - k
    {
      if k == last { assert false; }
      StepsAdd(c, k, 1);
      OneStep(Steps(c, k));
      m.Advance();
      k := k + 1;
    }
    StepsAdd(c, k, last - k);
    StaysFinished(m.View(), last - k);
  }

  /** The configuration in which a whole program ends. */
  lemma ProgramEnds(program: Stmt, script: seq<bool>) returns (last: nat)
    requires NoEarlyExit(program, false, false)
    ensures var d, r := Steps(Load(program, script), last), Eval(program, State([], NONE, script));
            && d.log == r.1.log && (d.stack == [] || !d.fate.Running?)
            && match r.0
               case Escapes(x) => d.fate == Unhandled && d.exception == x
               case _ => d.fate == Running && d.stack == [] && d.pFrame == NULL
  {
    hide StepStmt, Eval, NoEarlyExit, Steps;
    var c := Load(program, script);
    assert c.stack == [] + [Run(program)];
    NoOtherWayOut(program, StateOf(c), false, false);
    var n := MacrosRefineExceptions(program, false, false, c, []);
    var end := Steps(c, n);
    OneStep(end);
    StepsAdd(c, n, 1);
    last := if end.stack == [] then n else n + 1;
  }

  lemma {:induction false} StaysFinished(c: Config, n: nat)
    requires c.stack == [] || !c.fate.Running?
    ensures Steps(c, n) == c
    decreases n
  {
    if n > 0 { StaysFinished(Step(c), n - 1); }
  }
}
