/**
 * The dispatcher of the simulator as a transition function: one call of
 * `Step` is one pass through the body of the `for(;;)` loop in `main`,
 * selected by the program counter `address`.
 *
 * The simulated program is
 *
 *   main(args):  n = atoi(args[1]); a = fib(n); print "fib(n)=a"; return 0
 *   fib(n):      rec1 = 0; rec2 = 0; if n <= 1 return n;
 *                rec1 = fib(n-1); rec2 = fib(n-2); return rec1 + rec2
 *
 * split at its call sites into the addresses `main`, `main1`, `fib`, `fib1`,
 * `fib2`, with `return` exiting to the operating system.
 */
module Machine {
  import opened Values
  import opened Frames
  import opened Stacks

  /** The line `fib(n)=a` that `main1` writes to standard output. */
  datatype Line = FibLine(n: int, a: int)

  /** Everything the dispatcher acts on: the program counter, the stack and what has been printed. */
  datatype State = State(address: string, stack: seq<Frame>, out: seq<Line>)

  /** A pass through the loop either continues or returns from `main` with an exit code. */
  datatype Outcome = Running(s: State) | Exited(code: int, s: State)

  /** The addresses a frame may ask to resume at. */
  const ResumeAddresses: set<string> := {"return", "main1", "fib1", "fib2"}

  /**
   * The frame schema: every frame holds an integer `return_value` and a
   * `return_address` naming one of the resume points.
   */
  ghost predicate WellFormed(f: Frame)
  {
    && "return_value" in f.vars && f.vars["return_value"].Int?
    && "return_address" in f.vars && f.vars["return_address"].Text?
    && f.vars["return_address"].s in ResumeAddresses
  }

  /** The frame `main` builds for the process before the loop starts. */
  function RootFrame(args: seq<string>): (f: Frame)
    ensures f.vars.Keys == {"args", "return_value", "return_address"}
    ensures WellFormed(f) && f.vars["return_address"] == Text("return")
    ensures f.vars["args"] == StringList(args) && f.vars["return_value"] == Int(0)
  {
    Frame(map[]).Map("args", StringList(args)).Map("return_value", Int(0)).Map("return_address", Text("return"))
  }

  /** The frame a call site builds for `fib(n)` that resumes the caller at `ra`. */
  function CallFrame(n: int, ra: string): (f: Frame)
    ensures f.vars.Keys == {"n", "return_value", "return_address"}
    ensures f.vars["n"] == Int(n) && f.vars["return_value"] == Int(0)
    ensures f.vars["return_address"] == Text(ra)
    ensures ra in ResumeAddresses ==> WellFormed(f)
  {
    Frame(map[]).Map("n", Int(n)).Map("return_value", Int(0)).Map("return_address", Text(ra))
  }

  /** The state the loop starts in: address `main` over the root frame. */
  function Init(args: seq<string>): State
  {
    State("main", [RootFrame(args)], [])
  }

  /**
   * `main`: declare `n` and `a`, set `n` to the parsed argument `argn`, push
   * the call frame of `fib(n)` resuming at `main1`, and go to `fib`.
   */
  function StepMain(s: State, argn: int): Result<Outcome>
  {
    var top :- TopAt(s.stack, 0);
    var top1 := top.Map("n", Int(0)).Map("a", Int(0));
    var args :- top1.ListVal("args");
    var nRef :- top1.IntVal("n");
    var top2 :- top1.Assign("n", Int(argn));
    Success(Running(State("fib", WithTop(s.stack, top2) + [CallFrame(argn, "main1")], s.out)))
  }

  /**
   * `main1`: pop the callee, store its `return_value` in `a`, print
   * `fib(n)=a`, set the caller's own `return_value` to 0 and go to `return`.
   */
  function StepMain1(s: State): Result<Outcome>
  {
    var popped :- PopOf(s.stack);
    var top :- TopAt(popped.rest, 0);
    var n :- top.IntVal("n");
    var aRef :- top.IntVal("a");
    var rvRef :- top.IntVal("return_value");
    var a :- popped.frame.IntVal("return_value");
    var top1 :- top.Assign("a", Int(a));
    var top2 :- top1.Assign("return_value", Int(0));
    Success(Running(State("return", WithTop(popped.rest, top2), s.out + [FibLine(n, a)])))
  }

  /**
   * `fib`: declare `rec1` and `rec2`; for `n <= 1` store `n` as the return
   * value and jump to the frame's own `return_address`; otherwise push the
   * call `fib(n-1)` resuming at `fib1`.
   */
  function StepFib(s: State): Result<Outcome>
  {
    var top :- TopAt(s.stack, 0);
    var top1 := top.Map("rec1", Int(0)).Map("rec2", Int(0));
    var stack1 := WithTop(s.stack, top1);
    var n :- top1.IntVal("n");
    if n <= 1 then
      Returning(stack1, n, s.out)
    else
      Success(Running(State("fib", stack1 + [CallFrame(n - 1, "fib1")], s.out)))
  }

  /** `fib1`: pop the callee into `rec1` and push the call `fib(n-2)` resuming at `fib2`. */
  function StepFib1(s: State): Result<Outcome>
  {
    var popped :- PopOf(s.stack);
    var top :- TopAt(popped.rest, 0);
    var n :- top.IntVal("n");
    var rec1Ref :- top.IntVal("rec1");
    var rec1 :- popped.frame.IntVal("return_value");
    var top1 :- top.Assign("rec1", Int(rec1));
    Success(Running(State("fib", WithTop(popped.rest, top1) + [CallFrame(n - 2, "fib2")], s.out)))
  }

  /**
   * `fib2`: pop the callee into `rec2`, store `rec1 + rec2` as the return
   * value and jump to the frame's own `return_address`.
   */
  function StepFib2(s: State): Result<Outcome>
  {
    var popped :- PopOf(s.stack);
    var top :- TopAt(popped.rest, 0);
    var rec1 :- top.IntVal("rec1");
    var rec2Ref :- top.IntVal("rec2");
    var rec2 :- popped.frame.IntVal("return_value");
    var top1 :- top.Assign("rec2", Int(rec2));
    Returning(WithTop(popped.rest, top1), rec1 + rec2, s.out)
  }

  /**
   * The return shared by `fib`'s base case and `fib2`: look up the top
   * frame's `return_value` and `return_address`, store `v` as the return
   * value and jump to the return address.
   */
  function Returning(stack: seq<Frame>, v: int, out: seq<Line>): Result<Outcome>
  {
    var top :- TopAt(stack, 0);
    var rvRef :- top.IntVal("return_value");
    var ra :- top.TextVal("return_address");
    var top2 :- top.Assign("return_value", Int(v));
    Success(Running(State(ra, WithTop(stack, top2), out)))
  }

  /** `return`: pop the last frame and exit with its `return_value`. */
  function StepReturn(s: State): Result<Outcome>
  {
    var popped :- PopOf(s.stack);
    var code :- popped.frame.IntVal("return_value");
    Success(Exited(code, State(s.address, popped.rest, s.out)))
  }

  /**
   * One pass through the loop.  An address no branch recognises leaves
   * everything as it is, so the loop spins on it.
   */
  function Step(s: State, argn: int): (r: Result<Outcome>)
    ensures s.address !in {"return", "main", "main1", "fib", "fib1", "fib2"} ==> r == Success(Running(s))
  {
    if s.address == "return" then StepReturn(s)
    else if s.address == "main" then StepMain(s, argn)
    else if s.address == "main1" then StepMain1(s)
    else if s.address == "fib" then StepFib(s)
    else if s.address == "fib1" then StepFib1(s)
    else if s.address == "fib2" then StepFib2(s)
    else Success(Running(s))
  }

  /** The loop body as a transition, for a given parsed argument. */
  function Next(argn: int): State -> Result<Outcome>
  {
    s => Step(s, argn)
  }

  /** `k` passes of the loop body `next` from `s`; an exit or an exception ends the run early. */
  function Iterate(next: State -> Result<Outcome>, s: State, k: nat): Result<Outcome>
    decreases k
  {
    if k == 0 then Success(Running(s))
    else
      var o :- next(s);
      match o
      case Exited(_, _) => Success(o)
      case Running(s') => Iterate(next, s', k - 1)
  }

  /** How many of the first `k` passes of `next` from `s` dispatch the entry address `fib`. */
  function Entries(next: State -> Result<Outcome>, s: State, k: nat): nat
    decreases k
  {
    if k == 0 then 0
    else
      (if s.address == "fib" then 1 else 0) +
      match next(s)
      case Success(Running(s')) => Entries(next, s', k - 1)
      case _ => 0
  }

  /** `k` passes through the simulator's loop from `s`. */
  function Run(s: State, k: nat, argn: int): Result<Outcome>
  {
    Iterate(Next(argn), s, k)
  }

  /** How many of the first `k` passes of the simulator's loop dispatch `fib`. */
  function FibEntries(s: State, k: nat, argn: int): nat
  {
    Entries(Next(argn), s, k)
  }
}
