/**
 * The whole simulated run.  From the state the loop starts in, `main`
 * pushes the call `fib(n)`, the call runs to completion as the call lemmas
 * describe, `main1` prints `fib(n)=Fib(n)` and `return` pops the root frame
 * and exits with 0; every state before the exit has a stack of well-formed
 * frames no deeper than one more than the deepest call chain of fib.cpp.
 */
module ProgramProofs {
  import opened Values
  import opened Frames
  import opened Stacks
  import opened Machine
  import opened FibOracle
  import opened MachineProofs

  /** The root frame once `main` has declared `n` and `a`. */
  function RootWith(args: seq<string>, n: int, a: int): Frame
  {
    Frame(map["args" := StringList(args), "return_value" := Int(0), "return_address" := Text("return"),
              "n" := Int(n), "a" := Int(a)])
  }

  /** Passes of the loop from `main` to the exit: `main`, the call of `fib(n)`, `main1` and `return`. */
  function TotalSteps(n: int): nat
  {
    Steps(n) + 3
  }

  /** The line the run prints and the state it exits in. */
  function Finale(args: seq<string>, n: int): State
  {
    State("return", [], [FibLine(n, Fib(n))])
  }

  /** `main` with argument `n`: `n` and `a` are declared in the root frame, `n` is set and `fib(n)` is called. */
  lemma MainCalls(args: seq<string>, n: int)
    ensures Step(Init(args), n) == Success(Running(Enter([RootWith(args, n, 0)], n, "main1", [])))
  {
    var top1 := RootFrame(args).Map("n", Int(0)).Map("a", Int(0));
    assert top1.Assign("n", Int(n)).value == RootWith(args, n, 0);
    assert WithTop([RootFrame(args)], RootWith(args, n, 0)) == [RootWith(args, n, 0)];
  }

  /** `main1`: `a` receives `Fib(n)`, the line `fib(n)=Fib(n)` is printed and control goes to `return`. */
  lemma Main1Prints(args: seq<string>, n: int, argn: int)
    ensures Step(Leave([RootWith(args, n, 0)], n, "main1", []), argn)
         == Success(Running(State("return", [RootWith(args, n, Fib(n))], [FibLine(n, Fib(n))])))
  {
    var root := RootWith(args, n, 0);
    PushThenPop([root], Finished(n, "main1"));
    FinishedReturnValue(n, "main1");
    var top1 := root.Assign("a", Int(Fib(n))).value;
    assert top1.Assign("return_value", Int(0)).value == RootWith(args, n, Fib(n));
    assert WithTop([root], RootWith(args, n, Fib(n))) == [RootWith(args, n, Fib(n))];
    assert [] + [FibLine(n, Fib(n))] == [FibLine(n, Fib(n))];
  }

  /** `return`: the root frame is popped and its `return_value`, 0, is the exit code. */
  lemma ReturnExits(args: seq<string>, n: int, a: int, out: seq<Line>, argn: int)
    ensures Step(State("return", [RootWith(args, n, a)], out), argn) == Success(Exited(0, State("return", [], out)))
  {
    PushThenPop([], RootWith(args, n, a));
  }

  /** The state after `main1` has printed: the root frame alone, with `a` holding `Fib(n)`. */
  function Printed(args: seq<string>, n: int): State
  {
    State("return", [RootWith(args, n, Fib(n))], [FibLine(n, Fib(n))])
  }

  /**
   * The shape of the run: one pass from the start into the call of
   * `fib(n)` over `below`, the passes of that call, one pass printing and
   * one pass exiting.
   */
  lemma RunShape(next: State -> Result<Outcome>, start: State, below: seq<Frame>, n: int, printed: State,
                 last: State, t2: nat, t3: nat)
    requires start.address != "fib" && next(start) == Success(Running(Enter(below, n, "main1", [])))
    requires Returns(next, below, n, "main1", [])
    requires next(Leave(below, n, "main1", [])) == Success(Running(printed))
    requires printed.address != "fib" && next(printed) == Success(Exited(0, last))
    requires t2 == 2 + Steps(n) && t3 == 3 + Steps(n)
    ensures Iterate(next, start, t2) == Success(Running(printed)) && Entries(next, start, t2) == Calls(n)
    ensures Iterate(next, start, t3) == Success(Exited(0, last)) && Entries(next, start, t3) == Calls(n)
  {
    ThroughCall(next, start, below, n, 1 + Steps(n));
    AfterCall(next, start, Leave(below, n, "main1", []), printed, 1 + Steps(n), Calls(n), t2);
    Exit(next, start, printed, last, t2, Calls(n), t3);
  }

  /** The first pass enters the call, and the call's passes return from it. */
  lemma ThroughCall(next: State -> Result<Outcome>, start: State, below: seq<Frame>, n: int, c: nat)
    requires start.address != "fib" && next(start) == Success(Running(Enter(below, n, "main1", [])))
    requires Returns(next, below, n, "main1", [])
    requires c == 1 + Steps(n)
    ensures Iterate(next, start, c) == Success(Running(Leave(below, n, "main1", [])))
    ensures Entries(next, start, c) == Calls(n)
  {
    IterateOne(next, start, Enter(below, n, "main1", []));
    IterateAppend(next, start, 1, Steps(n), Enter(below, n, "main1", []), c);
  }

  /** One more running pass outside `fib` after `a` passes. */
  lemma AfterCall(next: State -> Result<Outcome>, start: State, left: State, printed: State, a: nat, e: nat, c: nat)
    requires Iterate(next, start, a) == Success(Running(left)) && Entries(next, start, a) == e
    requires left.address != "fib" && next(left) == Success(Running(printed))
    requires c == a + 1
    ensures Iterate(next, start, c) == Success(Running(printed)) && Entries(next, start, c) == e
  {
    IterateOne(next, left, printed);
    IterateAppend(next, start, a, 1, left, c);
  }

  /** An exiting pass outside `fib` after `a` passes. */
  lemma Exit(next: State -> Result<Outcome>, start: State, printed: State, last: State, a: nat, e: nat, c: nat)
    requires Iterate(next, start, a) == Success(Running(printed)) && Entries(next, start, a) == e
    requires printed.address != "fib" && next(printed) == Success(Exited(0, last))
    requires c == a + 1
    ensures Iterate(next, start, c) == Success(Exited(0, last)) && Entries(next, start, c) == e
  {
    assert Iterate(next, printed, 1) == Success(Exited(0, last));
    assert Entries(next, printed, 1) == 0;
    IterateAppend(next, start, a, 1, printed, c);
  }

  /** The facts about the run's passes that `RunShape` needs, for the loop of the simulator. */
  lemma RunFacts(args: seq<string>, n: int)
    ensures Next(n)(Init(args)) == Success(Running(Enter([RootWith(args, n, 0)], n, "main1", [])))
    ensures Returns(Next(n), [RootWith(args, n, 0)], n, "main1", [])
    ensures Next(n)(Leave([RootWith(args, n, 0)], n, "main1", [])) == Success(Running(Printed(args, n)))
    ensures Next(n)(Printed(args, n)) == Success(Exited(0, Finale(args, n)))
  {
    MainCalls(args, n);
    LoopFollowsFibTable(n);
    CallReturns(Next(n), [RootWith(args, n, 0)], n, "main1", []);
    Main1Prints(args, n, n);
    ReturnExits(args, n, Fib(n), [FibLine(n, Fib(n))], n);
  }

  /**
   * The run from `main` exits with code 0 after `TotalSteps(n)` passes,
   * having printed exactly the line `fib(n)=Fib(n)` and emptied the stack,
   * and it has entered `fib` as many times as fib.cpp calls `fib`.  One
   * pass earlier it is at `return` with only the root frame, `a = Fib(n)`.
   */
  lemma RunPrintsFib(args: seq<string>, n: int)
    ensures Run(Init(args), TotalSteps(n), n) == Success(Exited(0, Finale(args, n)))
    ensures FibEntries(Init(args), TotalSteps(n), n) == Calls(n)
    ensures Run(Init(args), 2 + Steps(n), n) == Success(Running(Printed(args, n)))
  {
    RunFacts(args, n);
    RunShape(Next(n), Init(args), [RootWith(args, n, 0)], n, Printed(args, n), Finale(args, n),
             2 + Steps(n), TotalSteps(n));
  }

  /** The invariant of a running simulation: a non-empty stack of well-formed frames, at most `bound` deep. */
  ghost predicate Live(r: Result<Outcome>, bound: int)
  {
    && r.Success? && r.value.Running?
    && 1 <= |r.value.s.stack| <= bound
    && forall i :: 0 <= i < |r.value.s.stack| ==> WellFormed(r.value.s.stack[i])
  }

  /**
   * Until it exits, the run is live: its stack holds between 1 and
   * `1 + LeafDepth(n, 1)` well-formed frames, the root frame and one frame
   * per simulated call on the deepest chain of fib.cpp.
   */
  lemma RunStaysLive(args: seq<string>, n: int, j: nat)
    requires j < TotalSteps(n)
    ensures Live(Run(Init(args), j, n), 1 + LeafDepth(n, 1))
  {
    LeafDepthClosedForm(n, 1);
    assert 1 + LeafDepth(n, 1) == 1 + Max(n, 1);
    if j == 0 {
      LiveAtStart(args, n);
    } else if j <= 1 + Steps(n) {
      LiveInCall(args, n, j);
    } else {
      LiveAfterCall(args, n, j);
    }
  }

  lemma LiveAtStart(args: seq<string>, n: int)
    ensures Live(Run(Init(args), 0, n), 1 + Max(n, 1))
  {
  }

  /** While the call of `fib(n)` runs, the root frame is at the bottom and the call's frames above it. */
  lemma LiveInCall(args: seq<string>, n: int, j: nat)
    requires 0 < j <= 1 + Steps(n)
    ensures Live(Run(Init(args), j, n), 1 + Max(n, 1))
  {
    var next := Next(n);
    var root0 := RootWith(args, n, 0);
    var entered := Enter([root0], n, "main1", []);
    MainCalls(args, n);
    LoopFollowsFibTable(n);
    CallStaysWithin(next, [root0], n, "main1", []);
    IterateOne(next, Init(args), entered);
    IterateAppend(next, Init(args), 1, j - 1, entered, j);
    assert InCall(Iterate(next, entered, j - 1), [root0], n, []);
    RootInside(Iterate(next, entered, j - 1), root0, n);
  }

  /** A state inside a call pushed over the well-formed root frame is live. */
  lemma RootInside(r: Result<Outcome>, root: Frame, n: int)
    requires InCall(r, [root], n, []) && WellFormed(root)
    ensures Live(r, 1 + Max(n, 1))
  {
    var st := r.value.s.stack;
    assert st[0] == st[..1][0];
  }

  /**
   * The bound of `RunStaysLive` is reached: after `max(n, 1)` passes the
   * run is at the deepest base case of the leftmost chain, with the root
   * frame and `max(n, 1)` call frames on the stack.
   */
  lemma DepthReached(args: seq<string>, n: int)
    ensures var r := Run(Init(args), Max(n, 1), n);
      r.Success? && r.value.Running? && |r.value.s.stack| == 1 + Max(n, 1)
  {
    MainCalls(args, n);
    LoopFollowsFibTable(n);
    EntersDeepest(Next(n), Init(args), [RootWith(args, n, 0)], n, Max(n, 1) - 1, Max(n, 1));
  }

  /** One pass entering the call of `fib(n)` over `below`, then the leftmost chain down to its base case. */
  lemma EntersDeepest(next: State -> Result<Outcome>, start: State, below: seq<Frame>, n: int, k: nat, c: nat)
    requires FollowsFibTable(next)
    requires next(start) == Success(Running(Enter(below, n, "main1", [])))
    requires k < Max(n, 1) && c == k + 1
    ensures Iterate(next, start, c).Success? && Iterate(next, start, c).value.Running?
    ensures |Iterate(next, start, c).value.s.stack| == |below| + 1 + k
  {
    var entered := Enter(below, n, "main1", []);
    IterateOne(next, start, entered);
    DescendsLeft(next, below, n, "main1", [], k);
    IterateAppend(next, start, 1, k, entered, c);
  }

  /** After the call, `main1` leaves only the root frame. */
  lemma LiveAfterCall(args: seq<string>, n: int, j: nat)
    requires 1 + Steps(n) < j < TotalSteps(n)
    ensures Live(Run(Init(args), j, n), 1 + Max(n, 1))
  {
    PrintedAt(args, n, j);
    PrintedIsLive(args, n, Run(Init(args), j, n));
  }

  /** The one pass between the return of `fib(n)` and the exit is the state after printing. */
  lemma PrintedAt(args: seq<string>, n: int, j: nat)
    requires 1 + Steps(n) < j < TotalSteps(n)
    ensures Run(Init(args), j, n) == Success(Running(Printed(args, n)))
  {
    assert j == 2 + Steps(n);
    RunFacts(args, n);
    RunShape(Next(n), Init(args), [RootWith(args, n, 0)], n, Printed(args, n), Finale(args, n), j, TotalSteps(n));
  }

  /** The state after printing holds the well-formed root frame alone. */
  lemma PrintedIsLive(args: seq<string>, n: int, r: Result<Outcome>)
    requires r == Success(Running(Printed(args, n)))
    ensures Live(r, 1 + Max(n, 1))
  {
    assert WellFormed(RootWith(args, n, Fib(n)));
  }

  /**
   * The number of times the run enters `fib` is the number of calls
   * fib.cpp makes, 2 F(n+1) - 1 for `n >= 0`.
   */
  lemma RunCountsCalls(args: seq<string>, n: int)
    requires 0 <= n
    ensures FibEntries(Init(args), TotalSteps(n), n) == 2 * F(n + 1) - 1
  {
    RunPrintsFib(args, n);
    CallsClosedForm(n);
    FibIsFibonacci(n + 1);
  }
}
