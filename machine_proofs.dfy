/**
 * What the dispatcher computes.  A simulated call of `fib(n)` entered at
 * address `fib` returns, after exactly `Steps(n)` passes, to the address its
 * frame named, with `Fib(n)` as its return value, with every frame below it
 * untouched and with the stack never deeper than the call chain of fib.cpp;
 * on the way it dispatches `fib` exactly `Calls(n)` times.  The whole run
 * from `main` prints `fib(n)=Fib(n)`, empties the stack and exits with 0.
 */
module MachineProofs {
  import opened Values
  import opened Frames
  import opened Stacks
  import opened Machine
  import opened FibOracle

  /** Passes through the loop that one simulated call `fib(n)` takes, up to its return jump. */
  function Steps(n: int): nat
    decreases n
  {
    if n <= 1 then 1 else Steps(n - 1) + Steps(n - 2) + 3
  }

  /** A frame of `fib` once `rec1` and `rec2` are declared. */
  function FibFrame(n: int, ra: string, rv: int, rec1: int, rec2: int): Frame
  {
    Frame(map["n" := Int(n), "return_value" := Int(rv), "return_address" := Text(ra),
              "rec1" := Int(rec1), "rec2" := Int(rec2)])
  }

  /** The frame of `fib(n)` while its second call is under way: `rec1` holds `fib(n-1)`. */
  function SecondCallFrame(n: int, ra: string): Frame
  {
    FibFrame(n, ra, 0, Fib(n - 1), 0)
  }

  /** The frame of `fib(n)` when it jumps back to its caller. */
  function Finished(n: int, ra: string): Frame
  {
    if n <= 1 then FibFrame(n, ra, Fib(n), 0, 0)
    else FibFrame(n, ra, Fib(n), Fib(n - 1), Fib(n - 2))
  }

  /** The finished frame of `fib(n)` holds `Fib(n)` as its return value. */
  lemma FinishedReturnValue(n: int, ra: string)
    ensures Finished(n, ra).IntVal("return_value") == Success(Fib(n))
  {
  }

  /** The state right after a call site has pushed the frame of `fib(n)` over `below`. */
  function Enter(below: seq<Frame>, n: int, ra: string, out: seq<Line>): State
  {
    State("fib", below + [CallFrame(n, ra)], out)
  }

  /** The state right after `fib(n)` has jumped back to `ra`. */
  function Leave(below: seq<Frame>, n: int, ra: string, out: seq<Line>): State
  {
    State(ra, below + [Finished(n, ra)], out)
  }

  /**
   * A state reached inside the simulated call of `fib(n)` pushed over
   * `below`: still running, the frames below untouched, the call's frames
   * numbering between 1 and max(n, 1), all of them well formed, and nothing
   * printed.
   */
  ghost predicate InCall(r: Result<Outcome>, below: seq<Frame>, n: int, out: seq<Line>)
  {
    && r.Success? && r.value.Running?
    && |below| < |r.value.s.stack| <= |below| + Max(n, 1)
    && r.value.s.stack[..|below|] == below
    && r.value.s.out == out
    && forall i :: |below| <= i < |r.value.s.stack| ==> WellFormed(r.value.s.stack[i])
  }

  /** Running `c = a + b` passes is running `a` and then `b` more, for the state and for the count of `fib` entries. */
  lemma {:induction false} IterateAppend(next: State -> Result<Outcome>, s: State, a: nat, b: nat, s': State, c: nat)
    requires Iterate(next, s, a) == Success(Running(s'))
    requires c == a + b
    ensures Iterate(next, s, c) == Iterate(next, s', b)
    ensures Entries(next, s, c) == Entries(next, s, a) + Entries(next, s', b)
    decreases a
  {
    if a > 0 {
      var o := next(s);
      assert o.Success? && o.value.Running?;
      IterateAppend(next, o.value.s, a - 1, b, s', c - 1);
    }
  }

  /** One pass taken alone. */
  lemma IterateOne(next: State -> Result<Outcome>, s: State, s': State)
    requires next(s) == Success(Running(s'))
    ensures Iterate(next, s, 1) == Success(Running(s'))
    ensures Entries(next, s, 1) == if s.address == "fib" then 1 else 0
  {
    assert Iterate(next, s', 0) == Success(Running(s'));
  }

  /** The state after `fib` with `n > 1` has pushed the call `fib(n-1)` resuming at `fib1`. */
  function CallFirst(below: seq<Frame>, n: int, ra: string, out: seq<Line>): State
  {
    Enter(below + [FibFrame(n, ra, 0, 0, 0)], n - 1, "fib1", out)
  }

  /** The state after `fib(n-1)` has returned to `fib1`. */
  function BackFirst(below: seq<Frame>, n: int, ra: string, out: seq<Line>): State
  {
    Leave(below + [FibFrame(n, ra, 0, 0, 0)], n - 1, "fib1", out)
  }

  /** The state after `fib1` has stored `rec1` and pushed the call `fib(n-2)` resuming at `fib2`. */
  function CallSecond(below: seq<Frame>, n: int, ra: string, out: seq<Line>): State
  {
    Enter(below + [SecondCallFrame(n, ra)], n - 2, "fib2", out)
  }

  /** The state after `fib(n-2)` has returned to `fib2`. */
  function BackSecond(below: seq<Frame>, n: int, ra: string, out: seq<Line>): State
  {
    Leave(below + [SecondCallFrame(n, ra)], n - 2, "fib2", out)
  }

  /**
   * One pass of `next` from `s`.  The transition table below is stated
   * through it, so that its facts are drawn on only where a proof names them.
   */
  function Apply(next: State -> Result<Outcome>, s: State): Result<Outcome>
  {
    next(s)
  }

  /** A transition that behaves at `fib`, `fib1` and `fib2` as the dispatcher's transition table says. */
  ghost predicate FollowsFibTable(next: State -> Result<Outcome>)
  {
    && (forall below, n, ra, out {:trigger Apply(next, Enter(below, n, ra, out))} :: n <= 1 ==>
          Apply(next, Enter(below, n, ra, out)) == Success(Running(Leave(below, n, ra, out))))
    && (forall below, n, ra, out {:trigger Apply(next, Enter(below, n, ra, out))} :: 1 < n ==>
          Apply(next, Enter(below, n, ra, out)) == Success(Running(CallFirst(below, n, ra, out))))
    && (forall below, n, ra, out {:trigger Apply(next, BackFirst(below, n, ra, out))} :: 1 < n ==>
          Apply(next, BackFirst(below, n, ra, out)) == Success(Running(CallSecond(below, n, ra, out))))
    && (forall below, n, ra, out {:trigger Apply(next, BackSecond(below, n, ra, out))} :: 1 < n ==>
          Apply(next, BackSecond(below, n, ra, out)) == Success(Running(Leave(below, n, ra, out))))
  }

  /** `fib` with `n <= 1`: the frame returns `n` and control jumps to its `return_address`. */
  lemma StepFibBase(below: seq<Frame>, n: int, ra: string, out: seq<Line>, argn: int)
    requires n <= 1
    ensures Step(Enter(below, n, ra, out), argn) == Success(Running(Leave(below, n, ra, out)))
  {
    var s := Enter(below, n, ra, out);
    var top1 := CallFrame(n, ra).Map("rec1", Int(0)).Map("rec2", Int(0));
    assert top1 == FibFrame(n, ra, 0, 0, 0);
    assert WithTop(s.stack, top1) == below + [top1];
    assert Fib(n) == n;
    StoresReturnValue(n, ra, n, 0, 0);
    ReturnsFinished(below, top1, n, ra, out);
  }

  /** A frame that becomes `Finished(n, ra)` once it holds `Fib(n)` jumps back to `ra`. */
  lemma ReturnsFinished(below: seq<Frame>, top: Frame, n: int, ra: string, out: seq<Line>)
    requires top.IntVal("return_value").Success? && top.TextVal("return_address") == Success(ra)
    requires top.Assign("return_value", Int(Fib(n))) == Success(Finished(n, ra))
    ensures Returning(below + [top], Fib(n), out) == Success(Running(Leave(below, n, ra, out)))
  {
    assert WithTop(below + [top], Finished(n, ra)) == below + [Finished(n, ra)];
  }

  /** `fib` with `n > 1`: the frame gains `rec1`, `rec2` and the call `fib(n-1)` is pushed. */
  lemma StepFibCall(below: seq<Frame>, n: int, ra: string, out: seq<Line>, argn: int)
    requires 1 < n
    ensures Step(Enter(below, n, ra, out), argn) == Success(Running(CallFirst(below, n, ra, out)))
  {
    var s := Enter(below, n, ra, out);
    var top1 := CallFrame(n, ra).Map("rec1", Int(0)).Map("rec2", Int(0));
    assert top1 == FibFrame(n, ra, 0, 0, 0);
    assert WithTop(s.stack, top1) == below + [top1];
  }

  /** `fib1`: `rec1` receives `fib(n-1)` and the call `fib(n-2)` is pushed. */
  lemma StepFib1(below: seq<Frame>, n: int, ra: string, out: seq<Line>, argn: int)
    requires 1 < n
    ensures Step(BackFirst(below, n, ra, out), argn) == Success(Running(CallSecond(below, n, ra, out)))
  {
    var caller := FibFrame(n, ra, 0, 0, 0);
    PushThenPop(below + [caller], Finished(n - 1, "fib1"));
    FinishedReturnValue(n - 1, "fib1");
    assert caller.Assign("rec1", Int(Fib(n - 1))).value == SecondCallFrame(n, ra);
    assert WithTop(below + [caller], SecondCallFrame(n, ra)) == below + [SecondCallFrame(n, ra)];
  }

  /** `fib2`: `rec2` receives `fib(n-2)`, the frame returns their sum and control jumps to its `return_address`. */
  lemma StepFib2(below: seq<Frame>, n: int, ra: string, out: seq<Line>, argn: int)
    requires 1 < n
    ensures Step(BackSecond(below, n, ra, out), argn) == Success(Running(Leave(below, n, ra, out)))
  {
    var top1 := FibFrame(n, ra, 0, Fib(n - 1), Fib(n - 2));
    Fib2Stores(below, n, ra, out);
    StoresReturnValue(n, ra, Fib(n), Fib(n - 1), Fib(n - 2));
    ReturnsFinished(below, top1, n, ra, out);
  }

  /** Storing `v` as the return value of a `fib` frame changes that variable alone. */
  lemma StoresReturnValue(n: int, ra: string, v: int, rec1: int, rec2: int)
    ensures FibFrame(n, ra, 0, rec1, rec2).Assign("return_value", Int(v)) == Success(FibFrame(n, ra, v, rec1, rec2))
  {
    assert FibFrame(n, ra, 0, rec1, rec2).vars["return_value" := Int(v)] == FibFrame(n, ra, v, rec1, rec2).vars;
  }

  /** `fib2` pops `Fib(n-2)` into `rec2` and returns `rec1 + rec2`, which is `Fib(n)`. */
  lemma Fib2Stores(below: seq<Frame>, n: int, ra: string, out: seq<Line>)
    requires 1 < n
    ensures Machine.StepFib2(BackSecond(below, n, ra, out))
         == Returning(below + [FibFrame(n, ra, 0, Fib(n - 1), Fib(n - 2))], Fib(n), out)
  {
    var caller := SecondCallFrame(n, ra);
    PushThenPop(below + [caller], Finished(n - 2, "fib2"));
    FinishedReturnValue(n - 2, "fib2");
    var top1 := caller.Assign("rec2", Int(Fib(n - 2))).value;
    assert top1 == FibFrame(n, ra, 0, Fib(n - 1), Fib(n - 2));
    assert WithTop(below + [caller], top1) == below + [top1];
  }

  /** The simulator's loop body follows the transition table at the `fib` addresses. */
  lemma LoopFollowsFibTable(argn: int)
    ensures FollowsFibTable(Next(argn))
  {
    forall below, n, ra, out | n <= 1
      ensures Apply(Next(argn), Enter(below, n, ra, out)) == Success(Running(Leave(below, n, ra, out)))
    {
      StepFibBase(below, n, ra, out, argn);
    }
    forall below, n, ra, out | 1 < n
      ensures Apply(Next(argn), Enter(below, n, ra, out)) == Success(Running(CallFirst(below, n, ra, out)))
    {
      StepFibCall(below, n, ra, out, argn);
    }
    forall below, n, ra, out | 1 < n
      ensures Apply(Next(argn), BackFirst(below, n, ra, out)) == Success(Running(CallSecond(below, n, ra, out)))
    {
      StepFib1(below, n, ra, out, argn);
    }
    forall below, n, ra, out | 1 < n
      ensures Apply(Next(argn), BackSecond(below, n, ra, out)) == Success(Running(Leave(below, n, ra, out)))
    {
      StepFib2(below, n, ra, out, argn);
    }
  }

  /** A state inside a nested call is inside the enclosing call, when the nested chain fits under the enclosing bound. */
  lemma Widen(r: Result<Outcome>, below: seq<Frame>, f: Frame, k: int, n: int, out: seq<Line>)
    requires InCall(r, below + [f], k, out)
    requires WellFormed(f)
    requires 1 + Max(k, 1) <= Max(n, 1)
    ensures InCall(r, below, n, out)
  {
    var st := r.value.s.stack;
    assert st[..|below|] == st[..|below| + 1][..|below|];
    assert st[|below|] == st[..|below| + 1][|below|];
  }

  /**
   * The shape of a simulated call with two sub-calls: one pass at `fib`
   * pushing the first callee, `k1` passes of that callee, one pass at the
   * first resume point pushing the second callee, `k2` passes of it, and one
   * pass at the second resume point.
   */
  lemma Chain(next: State -> Result<Outcome>, m0: State, m1: State, m2: State, m3: State,
              m4: State, m5: State, k1: nat, k2: nat, k: nat)
    requires m0.address == "fib" && next(m0) == Success(Running(m1))
    requires Iterate(next, m1, k1) == Success(Running(m2))
    requires m2.address != "fib" && next(m2) == Success(Running(m3))
    requires Iterate(next, m3, k2) == Success(Running(m4))
    requires m4.address != "fib" && next(m4) == Success(Running(m5))
    requires k == k1 + k2 + 3
    ensures Iterate(next, m0, k) == Success(Running(m5))
    ensures Entries(next, m0, k) == 1 + Entries(next, m1, k1) + Entries(next, m3, k2)
  {
    Bracket(next, m0, m1, m2, m3, k1, k1 + 2);
    Then(next, m0, m3, m4, m5, k1 + 2, k2, k);
  }

  /** One pass from `m0` at `fib`, `k1` passes of a callee, and one more pass from a resume point. */
  lemma Bracket(next: State -> Result<Outcome>, m0: State, m1: State, m2: State, m3: State, k1: nat, c: nat)
    requires m0.address == "fib" && next(m0) == Success(Running(m1))
    requires Iterate(next, m1, k1) == Success(Running(m2))
    requires m2.address != "fib" && next(m2) == Success(Running(m3))
    requires c == k1 + 2
    ensures Iterate(next, m0, c) == Success(Running(m3))
    ensures Entries(next, m0, c) == 1 + Entries(next, m1, k1)
  {
    IterateOne(next, m0, m1);
    IterateAppend(next, m0, 1, k1, m1, 1 + k1);
    IterateOne(next, m2, m3);
    IterateAppend(next, m0, 1 + k1, 1, m2, c);
  }

  /** `a` passes from `m0` to `m3`, then `k2` passes to `m4` and one pass from a resume point. */
  lemma Then(next: State -> Result<Outcome>, m0: State, m3: State, m4: State, m5: State, a: nat, k2: nat, c: nat)
    requires Iterate(next, m0, a) == Success(Running(m3))
    requires Iterate(next, m3, k2) == Success(Running(m4))
    requires m4.address != "fib" && next(m4) == Success(Running(m5))
    requires c == a + k2 + 1
    ensures Iterate(next, m0, c) == Success(Running(m5))
    ensures Entries(next, m0, c) == Entries(next, m0, a) + Entries(next, m3, k2)
  {
    IterateAppend(next, m0, a, k2, m3, a + k2);
    IterateOne(next, m4, m5);
    IterateAppend(next, m0, a + k2, 1, m4, c);
  }

  /** The three passes the table prescribes around the two sub-calls of `fib(n)`, `n > 1`. */
  lemma TableSteps(next: State -> Result<Outcome>, below: seq<Frame>, n: int, ra: string, out: seq<Line>)
    requires FollowsFibTable(next) && 1 < n
    ensures next(Enter(below, n, ra, out)) == Success(Running(CallFirst(below, n, ra, out)))
    ensures next(BackFirst(below, n, ra, out)) == Success(Running(CallSecond(below, n, ra, out)))
    ensures next(BackSecond(below, n, ra, out)) == Success(Running(Leave(below, n, ra, out)))
  {
    assert Apply(next, Enter(below, n, ra, out)) == Success(Running(CallFirst(below, n, ra, out)));
    assert Apply(next, BackFirst(below, n, ra, out)) == Success(Running(CallSecond(below, n, ra, out)));
    assert Apply(next, BackSecond(below, n, ra, out)) == Success(Running(Leave(below, n, ra, out)));
  }

  /**
   * A simulated call of `fib(n)` pushed over `below` returns: after
   * `Steps(n)` passes it has jumped back to `ra` with `Fib(n)` as its return
   * value and the frames below as they were, and it has entered `fib`
   * exactly `Calls(n)` times.
   */
  ghost predicate Returns(next: State -> Result<Outcome>, below: seq<Frame>, n: int, ra: string, out: seq<Line>)
  {
    && Iterate(next, Enter(below, n, ra, out), Steps(n)) == Success(Running(Leave(below, n, ra, out)))
    && Entries(next, Enter(below, n, ra, out), Steps(n)) == Calls(n)
  }

  /** Every state a simulated call of `fib(n)` passes through, its first and last included, is inside the call. */
  ghost predicate StaysWithin(next: State -> Result<Outcome>, below: seq<Frame>, n: int, ra: string, out: seq<Line>)
  {
    forall j :: 0 <= j <= Steps(n) ==> InCall(Iterate(next, Enter(below, n, ra, out), j), below, n, out)
  }

  /** The recursive case of `CallReturns`, from what the table and the two sub-calls give. */
  lemma CallCombines(next: State -> Result<Outcome>, below: seq<Frame>, n: int, ra: string, out: seq<Line>)
    requires FollowsFibTable(next) && 1 < n
    requires Returns(next, below + [FibFrame(n, ra, 0, 0, 0)], n - 1, "fib1", out)
    requires Returns(next, below + [SecondCallFrame(n, ra)], n - 2, "fib2", out)
    ensures Returns(next, below, n, ra, out)
  {
    TableSteps(next, below, n, ra, out);
    Chain(next, Enter(below, n, ra, out), CallFirst(below, n, ra, out), BackFirst(below, n, ra, out),
          CallSecond(below, n, ra, out), BackSecond(below, n, ra, out), Leave(below, n, ra, out),
          Steps(n - 1), Steps(n - 2), Steps(n));
  }

  /** A call of `fib(n)` with `n <= 1` returns after the one pass at `fib`. */
  lemma LeafReturns(next: State -> Result<Outcome>, below: seq<Frame>, n: int, ra: string, out: seq<Line>)
    requires FollowsFibTable(next) && n <= 1
    ensures Returns(next, below, n, ra, out)
  {
    assert Apply(next, Enter(below, n, ra, out)) == Success(Running(Leave(below, n, ra, out)));
    IterateOne(next, Enter(below, n, ra, out), Leave(below, n, ra, out));
  }

  /**
   * A simulated call of `fib(n)` under any transition that follows the
   * table returns `Fib(n)` to `ra` after `Steps(n)` passes, having entered
   * `fib` `Calls(n)` times.
   */
  lemma {:induction false} CallReturns(next: State -> Result<Outcome>, below: seq<Frame>, n: int, ra: string, out: seq<Line>)
    requires FollowsFibTable(next)
    ensures Returns(next, below, n, ra, out)
    decreases n, 2
  {
    if n <= 1 {
      LeafReturns(next, below, n, ra, out);
    } else {
      InnerCallReturns(next, below, n, ra, out);
    }
  }

  /** A call of `fib(n)` with `n > 1` returns once both of its sub-calls do. */
  lemma {:induction false} InnerCallReturns(next: State -> Result<Outcome>, below: seq<Frame>, n: int, ra: string, out: seq<Line>)
    requires FollowsFibTable(next) && 1 < n
    ensures Returns(next, below, n, ra, out)
    decreases n, 1
  {
    CallReturns(next, below + [FibFrame(n, ra, 0, 0, 0)], n - 1, "fib1", out);
    SecondCallReturns(next, below, n, ra, out);
    CallCombines(next, below, n, ra, out);
  }

  /** The second sub-call of `fib(n)`, `fib(n-2)` resuming at `fib2`, returns. */
  lemma {:induction false} SecondCallReturns(next: State -> Result<Outcome>, below: seq<Frame>, n: int, ra: string, out: seq<Line>)
    requires FollowsFibTable(next) && 1 < n
    ensures Returns(next, below + [SecondCallFrame(n, ra)], n - 2, "fib2", out)
    decreases n, 0
  {
    CallReturns(next, below + [SecondCallFrame(n, ra)], n - 2, "fib2", out);
  }

  /** The first and the last state of a simulated call that returns are inside it. */
  lemma Endpoint(next: State -> Result<Outcome>, below: seq<Frame>, n: int, ra: string, out: seq<Line>, j: nat)
    requires ra in ResumeAddresses && Returns(next, below, n, ra, out)
    requires j == 0 || j == Steps(n)
    ensures InCall(Iterate(next, Enter(below, n, ra, out), j), below, n, out)
  {
    if j == 0 {
      assert (below + [CallFrame(n, ra)])[..|below|] == below;
    } else {
      assert (below + [Finished(n, ra)])[..|below|] == below;
    }
  }

  /** A pass within the first sub-call of `fib(n)`, `n > 1`, is inside the call of `fib(n)`. */
  lemma InFirstCall(next: State -> Result<Outcome>, below: seq<Frame>, n: int, ra: string, out: seq<Line>, j: nat)
    requires FollowsFibTable(next) && 1 < n && ra in ResumeAddresses
    requires StaysWithin(next, below + [FibFrame(n, ra, 0, 0, 0)], n - 1, "fib1", out)
    requires 0 < j <= 1 + Steps(n - 1)
    ensures InCall(Iterate(next, Enter(below, n, ra, out), j), below, n, out)
  {
    var m0, m1 := Enter(below, n, ra, out), CallFirst(below, n, ra, out);
    TableSteps(next, below, n, ra, out);
    IterateOne(next, m0, m1);
    IterateAppend(next, m0, 1, j - 1, m1, j);
    Widen(Iterate(next, m0, j), below, FibFrame(n, ra, 0, 0, 0), n - 1, n, out);
  }

  /** A pass within the second sub-call of `fib(n)`, `n > 1`, is inside the call of `fib(n)`. */
  lemma InSecondCall(next: State -> Result<Outcome>, below: seq<Frame>, n: int, ra: string, out: seq<Line>, j: nat)
    requires FollowsFibTable(next) && 1 < n && ra in ResumeAddresses
    requires Returns(next, below + [FibFrame(n, ra, 0, 0, 0)], n - 1, "fib1", out)
    requires StaysWithin(next, below + [SecondCallFrame(n, ra)], n - 2, "fib2", out)
    requires 2 + Steps(n - 1) <= j < Steps(n)
    ensures InCall(Iterate(next, Enter(below, n, ra, out), j), below, n, out)
  {
    var m0, m3 := Enter(below, n, ra, out), CallSecond(below, n, ra, out);
    var a := 2 + Steps(n - 1);
    TableSteps(next, below, n, ra, out);
    Bracket(next, m0, CallFirst(below, n, ra, out), BackFirst(below, n, ra, out), m3, Steps(n - 1), a);
    IterateAppend(next, m0, a, j - a, m3, j);
    Widen(Iterate(next, m0, j), below, SecondCallFrame(n, ra), n - 2, n, out);
  }

  /**
   * The passes strictly inside a call of `fib(n)`, `n > 1`, lie inside one
   * of its two sub-calls, so the call stays within itself when the
   * sub-calls do.
   */
  lemma StaysCombine(next: State -> Result<Outcome>, below: seq<Frame>, n: int, ra: string, out: seq<Line>)
    requires FollowsFibTable(next) && 1 < n && ra in ResumeAddresses
    requires Returns(next, below, n, ra, out)
    requires Returns(next, below + [FibFrame(n, ra, 0, 0, 0)], n - 1, "fib1", out)
    requires StaysWithin(next, below + [FibFrame(n, ra, 0, 0, 0)], n - 1, "fib1", out)
    requires StaysWithin(next, below + [SecondCallFrame(n, ra)], n - 2, "fib2", out)
    ensures StaysWithin(next, below, n, ra, out)
  {
    forall j | 0 <= j <= Steps(n)
      ensures InCall(Iterate(next, Enter(below, n, ra, out), j), below, n, out)
    {
      if 0 < j < Steps(n) {
        InSubCall(next, below, n, ra, out, j);
      } else {
        Endpoint(next, below, n, ra, out, j);
      }
    }
  }

  /** A pass strictly inside a call of `fib(n)`, `n > 1`, is inside one of its sub-calls. */
  lemma InSubCall(next: State -> Result<Outcome>, below: seq<Frame>, n: int, ra: string, out: seq<Line>, j: nat)
    requires FollowsFibTable(next) && 1 < n && ra in ResumeAddresses
    requires Returns(next, below + [FibFrame(n, ra, 0, 0, 0)], n - 1, "fib1", out)
    requires StaysWithin(next, below + [FibFrame(n, ra, 0, 0, 0)], n - 1, "fib1", out)
    requires StaysWithin(next, below + [SecondCallFrame(n, ra)], n - 2, "fib2", out)
    requires 0 < j < Steps(n)
    ensures InCall(Iterate(next, Enter(below, n, ra, out), j), below, n, out)
  {
    if j <= 1 + Steps(n - 1) {
      InFirstCall(next, below, n, ra, out, j);
    } else {
      InSecondCall(next, below, n, ra, out, j);
    }
  }

  /**
   * Every state a simulated call of `fib(n)` passes through stays within the
   * call: the frames below are untouched, the stack grows by at most
   * max(n, 1) frames, all well formed, and nothing is printed.
   */
  lemma {:induction false} CallStaysWithin(next: State -> Result<Outcome>, below: seq<Frame>, n: int, ra: string, out: seq<Line>)
    requires FollowsFibTable(next) && ra in ResumeAddresses
    ensures StaysWithin(next, below, n, ra, out)
    decreases n, 2
  {
    if n <= 1 {
      CallReturns(next, below, n, ra, out);
      forall j | 0 <= j <= Steps(n)
        ensures InCall(Iterate(next, Enter(below, n, ra, out), j), below, n, out)
      {
        Endpoint(next, below, n, ra, out, j);
      }
    } else {
      InnerCallStaysWithin(next, below, n, ra, out);
    }
  }

  /** A call of `fib(n)` with `n > 1` stays within itself once both of its sub-calls do. */
  lemma {:induction false} InnerCallStaysWithin(next: State -> Result<Outcome>, below: seq<Frame>, n: int, ra: string, out: seq<Line>)
    requires FollowsFibTable(next) && ra in ResumeAddresses && 1 < n
    ensures StaysWithin(next, below, n, ra, out)
    decreases n, 1
  {
    CallReturns(next, below, n, ra, out);
    CallReturns(next, below + [FibFrame(n, ra, 0, 0, 0)], n - 1, "fib1", out);
    CallStaysWithin(next, below + [FibFrame(n, ra, 0, 0, 0)], n - 1, "fib1", out);
    SecondCallStaysWithin(next, below, n, ra, out);
    StaysCombine(next, below, n, ra, out);
  }

  /** The second sub-call of `fib(n)` stays within itself. */
  lemma {:induction false} SecondCallStaysWithin(next: State -> Result<Outcome>, below: seq<Frame>, n: int, ra: string, out: seq<Line>)
    requires FollowsFibTable(next) && 1 < n
    ensures StaysWithin(next, below + [SecondCallFrame(n, ra)], n - 2, "fib2", out)
    decreases n, 0
  {
    CallStaysWithin(next, below + [SecondCallFrame(n, ra)], n - 2, "fib2", out);
  }

  /**
   * The leftmost chain of a call of `fib(n)`: for `k < max(n, 1)` passes
   * every pass is at `fib` with `n > 1` and pushes one more frame, so after
   * `k` passes the run is back at `fib` with `k` frames more than it started.
   */
  lemma {:induction false} DescendsLeft(next: State -> Result<Outcome>, below: seq<Frame>, n: int, ra: string,
                                        out: seq<Line>, k: nat)
    requires FollowsFibTable(next) && k < Max(n, 1)
    ensures var r := Iterate(next, Enter(below, n, ra, out), k);
      r.Success? && r.value.Running? && r.value.s.address == "fib" && |r.value.s.stack| == |below| + 1 + k
    decreases k
  {
    if k > 0 {
      assert Apply(next, Enter(below, n, ra, out)) == Success(Running(CallFirst(below, n, ra, out)));
      IterateOne(next, Enter(below, n, ra, out), CallFirst(below, n, ra, out));
      DescendsLeft(next, below + [FibFrame(n, ra, 0, 0, 0)], n - 1, "fib1", out, k - 1);
      IterateAppend(next, Enter(below, n, ra, out), 1, k - 1, CallFirst(below, n, ra, out), k);
    }
  }

  /** The passes of one simulated call are twice the calls of fib.cpp, less one. */
  lemma {:induction false} StepsAreCalls(n: int)
    ensures Steps(n) == 2 * Calls(n) - 1
    decreases n
  {
    if 1 < n {
      StepsAreCalls(n - 1);
      StepsAreCalls(n - 2);
    }
  }
}
