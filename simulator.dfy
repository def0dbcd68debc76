/**
 * The simulator's `main` as imperative code: the stack and the screen are
 * objects updated in place, and each branch of the dispatch loop is a
 * method proved to do what the transition function `Step` says.  The loop
 * itself is proved to print `fib(n)=Fib(n)` and exit with 0.
 */
module Simulator {
  import opened Values
  import opened Frames
  import opened Stacks
  import opened Screens
  import opened Machine
  import opened FibOracle
  import opened MachineProofs
  import opened ProgramProofs

  /** The console after logging `first` and then `second` at the same step. */
  function LoggedTwice(console: seq<Entry>, maxConsole: int, step: int, first: string, second: string): seq<Entry>
    requires 1 <= maxConsole
  {
    Logged(Logged(console, maxConsole, (step, first)), maxConsole, (step, second))
  }

  /** Branch `return`: pop the root frame and exit with its `return_value`. */
  method DoReturn(stack: Stack, out: seq<Line>) returns (r: Result<Outcome>)
    modifies stack
    ensures r == StepReturn(State("return", old(stack.frames), out))
    ensures r.Success? ==> stack.frames == r.value.s.stack
  {
    var called :- stack.Pop();
    var code :- called.IntVal("return_value");
    r := Success(Exited(code, State("return", stack.frames, out)));
  }

  /** Branch `main`: declare `n` and `a`, set `n`, push the call `fib(n)` and go to `fib`. */
  method DoMain(stack: Stack, screen: Screen, out: seq<Line>, argn: int) returns (r: Result<Outcome>)
    requires screen.Valid()
    modifies stack, screen`console
    ensures screen.Valid()
    ensures r == StepMain(State("main", old(stack.frames), out), argn)
    ensures r.Success? ==> stack.frames == r.value.s.stack
    ensures r.Success? ==>
      screen.console == LoggedTwice(old(screen.console), screen.maxConsole, screen.step, "enter main", "calling fib in main")
  {
    ghost var s := State("main", stack.frames, out);
    screen.Log("enter main");
    var declaredN :- stack.MapTop("n", Int(0));
    var declaredA :- stack.MapTop("a", Int(0));
    var found := stack.Top(0);
    var top := found.value;
    assert stack.frames == WithTop(s.stack, top);
    var args :- top.ListVal("args");
    var n :- top.IntVal("n");
    var written := stack.AssignTop("n", Int(argn));
    ghost var top2 := top.Assign("n", Int(argn)).value;
    assert stack.frames == WithTop(s.stack, top2);
    stack.Push(CallFrame(argn, "main1"));
    screen.Log("calling fib in main");
    r := Success(Running(State("fib", stack.frames, out)));
    MainPasses(s, argn, s.stack[|s.stack| - 1], top2);
  }

  /** `StepMain` when every lookup succeeds. */
  lemma MainPasses(s: State, argn: int, top: Frame, top2: Frame)
    requires TopAt(s.stack, 0) == Success(top)
    requires top.Map("n", Int(0)).Map("a", Int(0)).ListVal("args").Success?
    requires top.Map("n", Int(0)).Map("a", Int(0)).IntVal("n").Success?
    requires top.Map("n", Int(0)).Map("a", Int(0)).Assign("n", Int(argn)) == Success(top2)
    ensures StepMain(s, argn) == Success(Running(State("fib", WithTop(s.stack, top2) + [CallFrame(argn, "main1")], s.out)))
  {
  }

  /**
   * The start of the branches that resume after a call: log the entry, pop
   * the callee's frame and look at the caller's frame below it.
   */
  method Resume(stack: Stack, screen: Screen, msg: string) returns (r: Result<(Frame, Frame)>)
    requires screen.Valid()
    modifies stack, screen`console
    ensures screen.Valid()
    ensures screen.console == Logged(old(screen.console), screen.maxConsole, (screen.step, msg))
    ensures |old(stack.frames)| < 2 ==> r == Failure(StackIndexOutOfRange)
    ensures 2 <= |old(stack.frames)| ==>
      && r.Success?
      && PopOf(old(stack.frames)) == Success(Popped(r.value.0, stack.frames))
      && TopAt(stack.frames, 0) == Success(r.value.1)
  {
    screen.Log(msg);
    var called :- stack.Pop();
    var found := stack.Top(0);
    var top :- found;
    r := Success((called, top));
  }

  /** Branch `main1`: pop the callee into `a`, print `fib(n)=a`, set `return_value` to 0 and go to `return`. */
  method DoMain1(stack: Stack, screen: Screen, out: seq<Line>) returns (r: Result<Outcome>)
    requires screen.Valid()
    modifies stack, screen`console
    ensures screen.Valid()
    ensures r == StepMain1(State("main1", old(stack.frames), out))
    ensures r.Success? ==> stack.frames == r.value.s.stack
    ensures r.Success? ==>
      screen.console == LoggedTwice(old(screen.console), screen.maxConsole, screen.step, "return from fib in main", "return from main")
  {
    ghost var s := State("main1", stack.frames, out);
    var resumed :- Resume(stack, screen, "return from fib in main");
    var called, top := resumed.0, resumed.1;
    ghost var rest := stack.frames;
    var n :- top.IntVal("n");
    var aRef :- top.IntVal("a");
    var rvRef :- top.IntVal("return_value");
    var a :- called.IntVal("return_value");
    StoreResult(stack, screen, a);
    var printed := out + [FibLine(n, a)];
    r := Success(Running(State("return", stack.frames, printed)));
    ghost var top1 := top.Assign("a", Int(a)).value;
    Main1Passes(s, called, rest, top, n, a, top1, top1.Assign("return_value", Int(0)).value);
  }

  /**
   * The end of branch `main1`: store the callee's value `a`, set the
   * caller's own `return_value` to 0 and log the return from `main`.
   */
  method StoreResult(stack: Stack, screen: Screen, a: int)
    requires screen.Valid()
    requires stack.frames != []
    requires stack.frames[|stack.frames| - 1].IntVal("a").Success?
    requires stack.frames[|stack.frames| - 1].IntVal("return_value").Success?
    modifies stack, screen`console
    ensures screen.Valid()
    ensures var top := old(stack.frames)[|old(stack.frames)| - 1];
      stack.frames == WithTop(old(stack.frames), top.Assign("a", Int(a)).value.Assign("return_value", Int(0)).value)
    ensures screen.console == Logged(old(screen.console), screen.maxConsole, (screen.step, "return from main"))
  {
    var writtenA := stack.AssignTop("a", Int(a));
    var writtenRv := stack.AssignTop("return_value", Int(0));
    screen.Log("return from main");
  }

  /** `StepMain1` when every lookup succeeds. */
  lemma Main1Passes(s: State, called: Frame, rest: seq<Frame>, top: Frame, n: int, a: int, top1: Frame, top2: Frame)
    requires PopOf(s.stack) == Success(Popped(called, rest))
    requires TopAt(rest, 0) == Success(top) && top.IntVal("n") == Success(n)
    requires top.IntVal("a").Success? && top.IntVal("return_value").Success?
    requires called.IntVal("return_value") == Success(a) && top.Assign("a", Int(a)) == Success(top1)
    requires top1.Assign("return_value", Int(0)) == Success(top2)
    ensures StepMain1(s) == Success(Running(State("return", WithTop(rest, top2), s.out + [FibLine(n, a)])))
  {
  }

  /**
   * Branch `fib`: declare `rec1` and `rec2`; for `n <= 1` return `n` to the
   * frame's `return_address`, otherwise push the call `fib(n-1)`.
   */
  method DoFib(stack: Stack, screen: Screen, out: seq<Line>) returns (r: Result<Outcome>)
    requires screen.Valid()
    modifies stack, screen`console
    ensures screen.Valid()
    ensures r == StepFib(State("fib", old(stack.frames), out))
    ensures r.Success? ==> stack.frames == r.value.s.stack
    ensures r.Success? ==>
      screen.console == LoggedTwice(old(screen.console), screen.maxConsole, screen.step, "enter fib",
                     if |stack.frames| == |old(stack.frames)| then "return n in fib" else "call fib(n-1) in fib")
  {
    ghost var s := State("fib", stack.frames, out);
    var n :- EnterFib(stack, screen);
    r := FibBranch(stack, screen, out, n);
    FibPasses(s, s.stack[|s.stack| - 1], n);
  }

  /** The two ways out of branch `fib` once `n` is known: return `n`, or call `fib(n-1)`. */
  method FibBranch(stack: Stack, screen: Screen, out: seq<Line>, n: int) returns (r: Result<Outcome>)
    requires screen.Valid()
    modifies stack, screen`console
    ensures screen.Valid()
    ensures n <= 1 ==> r == Returning(old(stack.frames), n, out)
    ensures 1 < n ==> r == Success(Running(State("fib", old(stack.frames) + [CallFrame(n - 1, "fib1")], out)))
    ensures r.Success? ==> stack.frames == r.value.s.stack
    ensures r.Success? ==> |stack.frames| == |old(stack.frames)| <==> n <= 1
    ensures r.Success? ==>
      screen.console == Logged(old(screen.console), screen.maxConsole,
                               (screen.step, if n <= 1 then "return n in fib" else "call fib(n-1) in fib"))
  {
    if n <= 1 {
      r := DoReturnTo(stack, screen, out, "return n in fib", n);
    } else {
      r := DoCall(stack, screen, out, "call fib(n-1) in fib", n - 1, "fib1");
    }
  }

  /** The start of branch `fib`: log the entry, declare `rec1` and `rec2` in the top frame and look up `n`. */
  method EnterFib(stack: Stack, screen: Screen) returns (r: Result<int>)
    requires screen.Valid()
    modifies stack, screen`console
    ensures screen.Valid()
    ensures screen.console == Logged(old(screen.console), screen.maxConsole, (screen.step, "enter fib"))
    ensures old(stack.frames) == [] ==> r == Failure(StackIndexOutOfRange)
    ensures old(stack.frames) != [] ==>
      var top1 := old(stack.frames)[|old(stack.frames)| - 1].Map("rec1", Int(0)).Map("rec2", Int(0));
      r == top1.IntVal("n") && stack.frames == WithTop(old(stack.frames), top1)
  {
    screen.Log("enter fib");
    var declared1 :- stack.MapTop("rec1", Int(0));
    var declared2 :- stack.MapTop("rec2", Int(0));
    var found := stack.Top(0);
    var top := found.value;
    r := top.IntVal("n");
  }

  /** `StepFib` once the lookup of `n` succeeds: it returns `n` or calls `fib(n-1)`. */
  lemma FibPasses(s: State, top: Frame, n: int)
    requires TopAt(s.stack, 0) == Success(top)
    requires top.Map("rec1", Int(0)).Map("rec2", Int(0)).IntVal("n") == Success(n)
    ensures var stack1 := WithTop(s.stack, top.Map("rec1", Int(0)).Map("rec2", Int(0)));
      StepFib(s) == if n <= 1 then Returning(stack1, n, s.out) else Success(Running(State("fib", stack1 + [CallFrame(n - 1, "fib1")], s.out)))
  {
  }

  /** Branch `fib1`: pop the callee into `rec1` and push the call `fib(n-2)`. */
  method DoFib1(stack: Stack, screen: Screen, out: seq<Line>) returns (r: Result<Outcome>)
    requires screen.Valid()
    modifies stack, screen`console
    ensures screen.Valid()
    ensures r == Machine.StepFib1(State("fib1", old(stack.frames), out))
    ensures r.Success? ==> stack.frames == r.value.s.stack
    ensures r.Success? ==>
      screen.console == LoggedTwice(old(screen.console), screen.maxConsole, screen.step, "return from fib(n-1) in fib", "call fib(n-2) in fib")
  {
    ghost var s := State("fib1", stack.frames, out);
    var resumed :- Resume(stack, screen, "return from fib(n-1) in fib");
    var called, top := resumed.0, resumed.1;
    ghost var rest := stack.frames;
    var n :- top.IntVal("n");
    var rec1Ref :- top.IntVal("rec1");
    var rec1 :- called.IntVal("return_value");
    var written := stack.AssignTop("rec1", Int(rec1));
    ghost var top1 := top.Assign("rec1", Int(rec1)).value;
    assert stack.frames == WithTop(rest, top1);
    r := DoCall(stack, screen, out, "call fib(n-2) in fib", n - 2, "fib2");
    Fib1Passes(s, called, rest, top, n, rec1, top1);
  }

  /** `StepFib1` when every lookup succeeds. */
  lemma Fib1Passes(s: State, called: Frame, rest: seq<Frame>, top: Frame, n: int, rec1: int, top1: Frame)
    requires PopOf(s.stack) == Success(Popped(called, rest))
    requires TopAt(rest, 0) == Success(top) && top.IntVal("n") == Success(n) && top.IntVal("rec1").Success?
    requires called.IntVal("return_value") == Success(rec1) && top.Assign("rec1", Int(rec1)) == Success(top1)
    ensures Machine.StepFib1(s) == Success(Running(State("fib", WithTop(rest, top1) + [CallFrame(n - 2, "fib2")], s.out)))
  {
  }

  /** Branch `fib2`: pop the callee into `rec2` and return `rec1 + rec2` to the frame's `return_address`. */
  method DoFib2(stack: Stack, screen: Screen, out: seq<Line>) returns (r: Result<Outcome>)
    requires screen.Valid()
    modifies stack, screen`console
    ensures screen.Valid()
    ensures r == Machine.StepFib2(State("fib2", old(stack.frames), out))
    ensures r.Success? ==> stack.frames == r.value.s.stack
    ensures r.Success? ==>
      screen.console == LoggedTwice(old(screen.console), screen.maxConsole, screen.step, "returned from fib(n-2) in fib", "return rec1+rec2 in fib")
  {
    ghost var s := State("fib2", stack.frames, out);
    var resumed :- Resume(stack, screen, "returned from fib(n-2) in fib");
    var called, top := resumed.0, resumed.1;
    ghost var rest := stack.frames;
    var rec1 :- top.IntVal("rec1");
    var rec2Ref :- top.IntVal("rec2");
    var rec2 :- called.IntVal("return_value");
    var written := stack.AssignTop("rec2", Int(rec2));
    ghost var top1 := top.Assign("rec2", Int(rec2)).value;
    assert stack.frames == WithTop(rest, top1);
    r := DoReturnTo(stack, screen, out, "return rec1+rec2 in fib", rec1 + rec2);
    Fib2Passes(s, called, rest, top, rec1, rec2, top1);
  }

  /** `StepFib2` once the callee's value is stored in `rec2`. */
  lemma Fib2Passes(s: State, called: Frame, rest: seq<Frame>, top: Frame, rec1: int, rec2: int, top1: Frame)
    requires PopOf(s.stack) == Success(Popped(called, rest))
    requires TopAt(rest, 0) == Success(top) && top.IntVal("rec1") == Success(rec1) && top.IntVal("rec2").Success?
    requires called.IntVal("return_value") == Success(rec2) && top.Assign("rec2", Int(rec2)) == Success(top1)
    ensures Machine.StepFib2(s) == Returning(WithTop(rest, top1), rec1 + rec2, s.out)
  {
  }

  /** The call shared by `fib` and `fib1`: log `msg`, push the call `fib(n)` resuming at `ra` and go to `fib`. */
  method DoCall(stack: Stack, screen: Screen, out: seq<Line>, msg: string, n: int, ra: string) returns (r: Result<Outcome>)
    requires screen.Valid()
    modifies stack, screen`console
    ensures screen.Valid()
    ensures stack.frames == old(stack.frames) + [CallFrame(n, ra)]
    ensures r == Success(Running(State("fib", stack.frames, out)))
    ensures screen.console == Logged(old(screen.console), screen.maxConsole, (screen.step, msg))
  {
    screen.Log(msg);
    stack.Push(CallFrame(n, ra));
    r := Success(Running(State("fib", stack.frames, out)));
  }

  /**
   * The return shared by `fib`'s base case and `fib2`: look up the top
   * frame's `return_value` and `return_address`, log `msg`, store `v` as the
   * return value and jump to the return address.
   */
  method DoReturnTo(stack: Stack, screen: Screen, out: seq<Line>, msg: string, v: int) returns (r: Result<Outcome>)
    requires screen.Valid()
    modifies stack, screen`console
    ensures screen.Valid()
    ensures r == Returning(old(stack.frames), v, out)
    ensures r.Success? ==> stack.frames == r.value.s.stack
    ensures r.Success? ==> screen.console == Logged(old(screen.console), screen.maxConsole, (screen.step, msg))
  {
    var top :- stack.Top(0);
    var rvRef :- top.IntVal("return_value");
    var ra :- top.TextVal("return_address");
    screen.Log(msg);
    var written := stack.AssignTop("return_value", Int(v));
    r := Success(Running(State(ra, stack.frames, out)));
  }

  /**
   * One pass of the loop after the screen is drawn: the branch selected by
   * `address`, tested as the source tests it (`return`, then the `main`
   * prefix, then the `fib` prefix); an address no branch takes changes
   * nothing.
   */
  method Dispatch(address: string, stack: Stack, screen: Screen, out: seq<Line>, argn: int) returns (r: Result<Outcome>)
    requires screen.Valid()
    modifies stack, screen`console
    ensures screen.Valid()
    ensures r == Step(State(address, old(stack.frames), out), argn)
    ensures r.Success? ==> stack.frames == r.value.s.stack
  {
    if address == "return" {
      r := DoReturn(stack, out);
      return;
    }
    if "main" <= address {
      if address == "main" {
        r := DoMain(stack, screen, out, argn);
        return;
      }
      if address == "main1" {
        r := DoMain1(stack, screen, out);
        return;
      }
    }
    if "fib" <= address {
      if address == "fib" {
        r := DoFib(stack, screen, out);
        return;
      }
      if address == "fib1" {
        r := DoFib1(stack, screen, out);
        return;
      }
      if address == "fib2" {
        r := DoFib2(stack, screen, out);
        return;
      }
    }
    r := Success(Running(State(address, stack.frames, out)));
  }

  /** One more pass of the loop from where the run has got to. */
  lemma RunOneMore(args: seq<string>, argn: int, i: nat, s: State)
    requires Run(Init(args), i, argn) == Success(Running(s))
    ensures Run(Init(args), i + 1, argn) == Step(s, argn)
  {
    IterateAppend(Next(argn), Init(args), i, 1, s, i + 1);
    assert Iterate(Next(argn), s, 1) == Next(argn)(s);
  }

  /**
   * The pass the loop makes from the state the run has reached after `i`
   * passes does not fail; if it keeps running, the stack stays within the
   * bound; if it exits, the code is 0 and the output is the line
   * `fib(n)=Fib(n)`.
   */
  lemma PassOfRun(args: seq<string>, argn: int, i: nat, r: Result<Outcome>)
    requires i < TotalSteps(argn) && r == Run(Init(args), i + 1, argn)
    ensures r.Success?
    ensures r.value.Running? ==> i + 1 < TotalSteps(argn) && |r.value.s.stack| <= 1 + Max(argn, 1)
    ensures r.value.Exited? ==> r.value.code == 0 && r.value.s.out == [FibLine(argn, Fib(argn))]
  {
    if i + 1 < TotalSteps(argn) {
      RunningPass(args, argn, i + 1, r);
    } else {
      ExitingPass(args, argn, i + 1, r);
    }
  }

  lemma RunningPass(args: seq<string>, argn: int, j: nat, r: Result<Outcome>)
    requires j < TotalSteps(argn) && r == Run(Init(args), j, argn)
    ensures r.Success? && r.value.Running? && |r.value.s.stack| <= 1 + Max(argn, 1)
  {
    RunStaysLive(args, argn, j);
    LeafDepthClosedForm(argn, 1);
  }

  lemma ExitingPass(args: seq<string>, argn: int, j: nat, r: Result<Outcome>)
    requires j == TotalSteps(argn) && r == Run(Init(args), j, argn)
    ensures r == Success(Exited(0, Finale(args, argn)))
  {
    RunPrintsFib(args, argn);
  }

  /**
   * One pass through the body of the loop: refresh the screen and dispatch.
   * From the state the run has reached after `i` passes it moves to the
   * state the run reaches after `i + 1`.
   */
  method Pass(ghost args: seq<string>, argn: int, ghost i: nat, address: string, stack: Stack, screen: Screen,
              out: seq<Line>) returns (r: Result<Outcome>)
    requires screen.Valid()
    requires Run(Init(args), i, argn) == Success(Running(State(address, stack.frames, out)))
    modifies stack, screen
    ensures screen.Valid()
    ensures r == Run(Init(args), i + 1, argn)
    ensures r.Success? ==> stack.frames == r.value.s.stack
  {
    screen.Refresh();
    var s := State(address, stack.frames, out);
    r := Dispatch(address, stack, screen, out, argn);
    RunOneMore(args, argn, i, s);
  }

  /**
   * The simulator with the parsed argument `argn`: it builds the root frame,
   * then loops refreshing the screen and dispatching on `address` until
   * `return` exits.  It exits with 0 after printing exactly `fib(n)=Fib(n)`;
   * the loop invariant keeps every stack it passes through at most
   * `1 + max(n, 1)` frames deep.
   */
  method Simulate(args: seq<string>, argn: int) returns (code: int, out: seq<Line>)
    ensures code == 0 && out == [FibLine(argn, Fib(argn))]
  {
    var stack := new Stack();
    var screen := new Screen();
    stack.Push(Frame(map[]));
    var declaredArgs := stack.MapTop("args", StringList(args));
    var declaredRv := stack.MapTop("return_value", Int(0));
    var declaredRa := stack.MapTop("return_address", Text("return"));
    assert stack.frames == [RootFrame(args)];
    var address := "main";
    out := [];
    code := 0;
    ghost var i: nat := 0;
    var done := false;
    while !done
      invariant screen.Valid()
      invariant i <= TotalSteps(argn)
      invariant !done ==> i < TotalSteps(argn)
      invariant !done ==> Run(Init(args), i, argn) == Success(Running(State(address, stack.frames, out)))
      invariant !done ==> |stack.frames| <= 1 + Max(argn, 1)
      invariant done ==> code == 0 && out == [FibLine(argn, Fib(argn))]
      decreases TotalSteps(argn) - i
    {
      var r := Pass(args, argn, i, address, stack, screen, out);
      PassOfRun(args, argn, i, r);
      i := i + 1;
      if r.Success? && r.value.Running? {
        address, out := r.value.s.address, r.value.s.out;
        assert State(address, stack.frames, out) == r.value.s;
      } else {
        code, out := r.value.code, r.value.s.out;
        done := true;
      }
    }
  }
}
