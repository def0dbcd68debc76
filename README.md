# fibsym in Dafny

`fibsym` simulates the recursive Fibonacci program by hand. It uses an
explicit call stack of frames, and a string program counter `address` drives
a `for(;;)` loop in `main`.
- Each frame maps variable names to dynamically typed values.
- The recursive program is cut at its call sites into the addresses `main`,
  `main1`, `fib`, `fib1` and `fib2`.
- `return` pops the last frame and exits.
- Every frame carries a `return_value` and a `return_address`, so that a
  returning call knows where to resume.
- A `Screen` keeps a bounded console log of what the machine does.

`fib.cpp` is the plain recursive program that the simulator mirrors. It also
counts its calls and the deepest base case in two globals.

This project models both programs and proves that the simulator computes
what the recursive program computes.

Module by module:
- **Values** (`values.dfy`): the three variable types as a closed datatype,
  the exceptions, and a `Result` type for computations that may throw.
- **Frames** (`frame.dfy`): a frame is a value over a `map`.
  - `Map` is `std::map::insert`, so re-declaring a name keeps the old binding.
  - `Var`/`IntVal`/`TextVal`/`ListVal` are the checked typed lookups.
  - `Assign` is a write through the reference that `val<T>` returns.
- **Stacks** (`stack.dfy`): the pure accessors `TopAt` and `PopOf`, and the
  class `Stack`, whose methods update its `frames` in place.
- **Screens** (`screen.dfy`): the class `Screen`. Its `Log` drops the oldest
  entries in a `while` loop, and the function `Logged` specifies the result.
- **FibOracle** (`fib.dfy`): `fib`'s value, its call count and its deepest
  base case as functions, proved equal to closed forms. The class `Globals`
  holds `calls` and `maxd`, and its recursive method `CountedFib` updates
  them as `fib(n, d)` does.
- **Machine** (`machine.dfy`): one pass of the loop as a transition function
  `Step` over a state (address, stack, printed lines). `Run` iterates it.
- **MachineProofs** (`machine_proofs.dfy`): the central proof, by induction
  on `n`. A simulated call of `fib(n)`:
  - returns `Fib(n)` to the address its frame names, after `Steps(n)` passes,
    having dispatched `fib` exactly `Calls(n)` times;
  - on the way, never touches the frames below it and never pushes more than
    `max(n, 1)` frames.
- **ProgramProofs** (`program.dfy`): the run from `main`.
  - It prints `fib(n)=Fib(n)` and exits with 0 and an empty stack.
  - Until then every stack is well formed and at most `1 + max(n, 1)` deep,
    which is one more than fib.cpp's `maxd`.
- **Simulator** (`simulator.dfy`): the imperative `main`.
  - One method per branch of the loop is proved to do what `Step` says,
    including the messages it logs.
  - `Simulate` runs the loop and is proved to return exit code 0 and the
    single printed line.

## Model

| member | source | states |
|---|---|---|
| Frames.Frame.Map | fibsym.cpp:48-50 | Declaring adds exactly the new name with its value. A name already present keeps its binding and the frame is unchanged. |
| Frames.Frame.Var | fibsym.cpp:51-57 | Succeeds exactly when the name is present with the requested type, and returns its value. A missing name fails with `NameNotInFrame`; a present name of another type fails with `BadCast`. |
| Frames.Frame.IntVal | fibsym.cpp:58-60 | `val<int>` succeeds exactly for an `int` variable and yields its value; otherwise it fails as `var` does. |
| Frames.Frame.TextVal | fibsym.cpp:58-60 | `val<string>` succeeds exactly for a `string` variable and yields its value; otherwise it fails as `var` does. |
| Frames.Frame.ListVal | fibsym.cpp:58-60 | `val<vector<string>>` succeeds exactly for a list variable and yields it; otherwise it fails as `var` does. |
| Frames.Frame.Assign | fibsym.cpp:58-60 | A write through the reference fails exactly when the lookup fails. Otherwise it replaces that variable only and keeps the set of names. |
| Frames.MapThenVar | fibsym.cpp:48-57 | A freshly declared name reads back at its own type and fails with `BadCast` at any other. |
| Frames.MapTwiceKeepsFirst | fibsym.cpp:48-50 | Declaring a name twice keeps the first value. |
| Frames.AssignThenVar | fibsym.cpp:51-60 | After a write through the reference, the lookup returns the written value. |
| Stacks.TopAt | fibsym.cpp:78-80 | `top(back)` is the frame at index `size-back-1`. It fails exactly when `back` is negative or at least the size, including on an empty stack. |
| Stacks.PopOf | fibsym.cpp:86-90 | `pop` fails exactly on an empty stack. Otherwise the remaining frames followed by the returned frame make up the old stack. |
| Stacks.PushThenPop | fibsym.cpp:82-90 | Popping right after a push returns the pushed frame and the stack as it was before. |
| Stacks.PopThenPush | fibsym.cpp:82-90 | Pushing the frame just popped restores the stack; `pop` lowers the size by exactly one. |
| Stacks.Stack.constructor | fibsym.cpp:77 | A new stack is empty. |
| Stacks.Stack.Top | fibsym.cpp:78-80 | Same result as `TopAt` on the current frames; nothing changes. |
| Stacks.Stack.Push | fibsym.cpp:82-84 | The new frame goes on top of the unchanged old frames. |
| Stacks.Stack.Pop | fibsym.cpp:86-90 | On a non-empty stack it returns the old top and leaves every frame below unchanged. On an empty stack it fails and changes nothing. |
| Stacks.Stack.MapTop | fibsym.cpp:78-80 | `top()->map(...)` declares the name in the top frame only. On an empty stack it fails and changes nothing. |
| Stacks.Stack.AssignTop | fibsym.cpp:58-60 | A write through `top()->val<T>(name)` changes the top frame only. It fails, with nothing changed, on an empty stack or a failed lookup. |
| Screens.LoggedShape | fibsym.cpp:155-160 | After `log` the console has between 1 and `maxConsole` entries. The new `(step, str)` entry is last and the kept entries are the newest old ones in their original order. Nothing is dropped while there is room, and a full console stays full. |
| Screens.LoggedFull | fibsym.cpp:155-160 | Logging to a full console drops exactly the oldest entry. |
| Screens.Screen.constructor | fibsym.cpp:137 | The screen starts at step 0 with an empty console of capacity 10. |
| Screens.Screen.Log | fibsym.cpp:155-160 | The erase loop followed by the append leaves the console equal to `Logged` of the old console, and keeps it within capacity. |
| Screens.Screen.Refresh | fibsym.cpp:161 | The step counter goes up by one. |
| FibOracle.FibIsFibonacci | fib.cpp:9-16 | For `n >= 0`, `fib(n)` equals the Fibonacci number F(n), with F(0)=0 and F(1)=1, as given by an independent linear definition. |
| FibOracle.FibNonNegative | fib.cpp:11-15 | For `n >= 0`, `fib(n)` is non-negative, and at least 1 from `n = 2` on. |
| FibOracle.CallsClosedForm | fib.cpp:9-16 | The call count C(n) = 1 + C(n-1) + C(n-2), with C(n) = 1 for `n <= 1`, equals 2 fib(n+1) - 1. |
| FibOracle.CallsPositive | fib.cpp:10 | Every call adds at least one to `calls`. |
| FibOracle.LeafDepthClosedForm | fib.cpp:9-15 | The deepest base case of `fib(n, d)` is at depth `d + max(n-1, 0)`. |
| FibOracle.Globals.constructor | fib.cpp:6-7 | Both counters start at 0. |
| FibOracle.Globals.CountedFib | fib.cpp:9-16 | `fib(n, d)` returns `Fib(n)`, adds `Calls(n)` to `calls` and raises `maxd` to `max(old maxd, LeafDepth(n, d))`. `calls` strictly grows and `maxd` never falls. |
| FibOracle.FibMain | fib.cpp:18-28 | With counters reset and `d = 1`: `a = Fib(n)`, `calls = Calls(n)` (which is 2F(n+1) - 1 for `n >= 0`) and `maxd = max(n, 1)`. |
| Machine.RootFrame | fibsym.cpp:172-175 | The root frame holds exactly `args`, `return_value = 0` and `return_address = "return"`, and it is well formed. |
| Machine.CallFrame | fibsym.cpp:201-204 | A call frame holds exactly `n`, `return_value = 0` and the given `return_address`; with a resume address it is well formed. |
| Machine.Step | fibsym.cpp:179-288 | An address that no branch takes leaves the whole state unchanged, so the loop spins. |
| MachineProofs.StepFibBase | fibsym.cpp:227-241 | At `fib` with `n <= 1`, the frame gains `rec1` and `rec2`, its `return_value` becomes `n`, and control goes to the frame's own `return_address`. |
| MachineProofs.StepFibCall | fibsym.cpp:227-251 | At `fib` with `n > 1`, the frame gains `rec1 = rec2 = 0` and the call `fib(n-1)`, resuming at `fib1`, is pushed. |
| MachineProofs.StepFib1 | fibsym.cpp:254-269 | At `fib1`, the callee's return value `Fib(n-1)` is popped into `rec1` and the call `fib(n-2)`, resuming at `fib2`, is pushed. |
| MachineProofs.StepFib2 | fibsym.cpp:272-285 | At `fib2`, the callee's `Fib(n-2)` is popped into `rec2`. The frame's `return_value` becomes `rec1 + rec2 = Fib(n)` and control goes to its `return_address`. |
| MachineProofs.Fib2Stores | fibsym.cpp:272-283 | At `fib2`, once `Fib(n-2)` is stored in `rec2`, the frame returns `rec1 + rec2`, which is `Fib(n)`. |
| MachineProofs.ReturnsFinished | fibsym.cpp:279-284 | A frame whose finished form holds `Fib(n)` returns to its own `return_address` over an unchanged stack below it. |
| MachineProofs.LoopFollowsFibTable | fibsym.cpp:226-287 | The loop body follows the transition table at the addresses `fib`, `fib1` and `fib2`. |
| MachineProofs.CallReturns | fibsym.cpp:226-287 | A simulated call of `fib(n)` over any frames returns to its `return_address` after `Steps(n)` passes. It leaves `Fib(n)` as its return value and the frames below unchanged, and it dispatches `fib` exactly `Calls(n)` times, as fib.cpp counts. |
| MachineProofs.CallStaysWithin | fibsym.cpp:226-287 | Every state of that call keeps the frames below intact and pushes between 1 and `max(n, 1)` well-formed frames. The well-formed frames are the frame schema: an integer `return_value` and a `return_address` among the resume points. Nothing is printed. |
| MachineProofs.StepsAreCalls | fibsym.cpp:226-287 | The passes of one call are `2 Calls(n) - 1`. |
| MachineProofs.DescendsLeft | fibsym.cpp:227-252 | Within a call of `fib(n)`, each of the first `k < max(n, 1)` passes is at `fib` with `n > 1` and pushes one frame. After them the run is at `fib` with `k` more frames than at the start. |
| ProgramProofs.MainCalls | fibsym.cpp:192-209 | `main` declares `n` and `a` in the root frame, sets `n`, and pushes the call `fib(n)` resuming at `main1`. |
| ProgramProofs.Main1Prints | fibsym.cpp:211-223 | `main1` pops `Fib(n)` into `a`, prints `fib(n)=Fib(n)`, sets the root's `return_value` to 0 and goes to `return`. |
| ProgramProofs.ReturnExits | fibsym.cpp:186-189 | `return` pops the root frame and exits with its `return_value`, leaving the stack empty. |
| ProgramProofs.RunPrintsFib | fibsym.cpp:172-288 | The run from `main` exits with code 0 after `Steps(n) + 3` passes, with an empty stack and the single printed line `fib(n)=Fib(n)`. It dispatches `fib` exactly `Calls(n)` times. |
| ProgramProofs.RunStaysLive | fibsym.cpp:172-288 | Before the exit, every state is running. Its stack holds between 1 and `1 + LeafDepth(n, 1)` frames, all well formed, where `LeafDepth(n, 1)` is fib.cpp's final `maxd`. `DepthReached` shows the bound is met. |
| ProgramProofs.DepthReached | fibsym.cpp:172-252 | After `max(n, 1)` passes the run is still going, and its stack holds exactly `1 + max(n, 1)` frames. With `RunStaysLive`, `1 + max(n, 1)` is therefore the exact maximum depth of the run, and `max(n, 1)` that of the call. |
| ProgramProofs.EntersDeepest | fibsym.cpp:192-252 | After the pass that pushes `fib(n)` over `below`, `k` more passes with `k < max(n, 1)` leave the run going with `|below| + 1 + k` frames. |
| ProgramProofs.RunCountsCalls | fibsym.cpp:172-288 | For `n >= 0`, the run enters `fib` exactly `2 F(n+1) - 1` times. |
| Simulator.DoReturn | fibsym.cpp:186-189 | The `return` branch computes `StepReturn`, and the stack object ends as the resulting stack. |
| Simulator.DoMain | fibsym.cpp:192-209 | The `main` branch computes `StepMain` on the stack object and logs `enter main` and then `calling fib in main`. |
| Simulator.DoMain1 | fibsym.cpp:211-223 | The `main1` branch computes `StepMain1`, printing one line, and logs its two messages. |
| Simulator.DoFib | fibsym.cpp:227-252 | The `fib` branch computes `StepFib`. It logs `enter fib`, then `return n in fib` or `call fib(n-1) in fib` according to the branch taken. |
| Simulator.DoFib1 | fibsym.cpp:254-270 | The `fib1` branch computes `StepFib1` and logs its two messages. |
| Simulator.DoFib2 | fibsym.cpp:272-286 | The `fib2` branch computes `StepFib2` and logs its two messages. |
| Simulator.EnterFib | fibsym.cpp:228-232 | The start of `fib` logs `enter fib` and declares `rec1` and `rec2` as 0 in the top frame. It yields that frame's `n`, or `StackIndexOutOfRange` on an empty stack. |
| Simulator.FibBranch | fibsym.cpp:234-251 | With `n <= 1` the frame returns `n` as `Returning` describes and the stack keeps its height. Otherwise exactly the call frame of `fib(n-1)` resuming at `fib1` is pushed. The matching message is logged. |
| Simulator.Resume | fibsym.cpp:212-214 | After logging, the callee's frame is popped and the caller's frame below it is read. Fewer than two frames give `StackIndexOutOfRange`. |
| Simulator.StoreResult | fibsym.cpp:217-220 | Only the top frame changes: `a` receives the callee's value and `return_value` becomes 0, then `return from main` is logged. |
| Simulator.DoCall | fibsym.cpp:262-268 | Logging and pushing a call frame append exactly `CallFrame(n, ra)` to the stack and continue at `fib`. |
| Simulator.DoReturnTo | fibsym.cpp:279-284 | The return shared by `fib` and `fib2` computes `Returning` on the stack object. |
| Simulator.Dispatch | fibsym.cpp:186-287 | The branches, tested in the source's order (`return`, then the `main` prefix, then the `fib` prefix), compute exactly `Step`. The console stays within capacity. |
| Simulator.Pass | fibsym.cpp:179-287 | One pass of the loop, a screen refresh followed by dispatch, moves the run from pass `i` to pass `i + 1`. |
| Simulator.PassOfRun | fibsym.cpp:179-288 | No pass of the run throws. A pass that continues keeps the stack within `1 + max(n, 1)` frames, and the pass that exits returns 0 having printed `fib(n)=Fib(n)`. |
| Simulator.Simulate | fibsym.cpp:164-289 | The simulator's `main`, with the parsed argument `n`, exits with code 0 after printing exactly `fib(n)=Fib(n)`. |

## Left out

- The terminal drawing (`clear`, both `display` overloads, the ncurses calls inside `refresh`, `getch`, and the `Screen` destructor) is not modelled; `Refresh` only advances `step`.
- The printing code (`operator<<` for vectors, `Var::str`, `Frame::str`, `Frame::print`, `Stack::print`) is not modelled. The line `main1` writes to `cout` is modelled as the datum `FibLine(n, a)` appended to an output sequence, not as text.
- `atoi` is not modelled. The parsed argument is a parameter `argn`, and building `args` from `argv` is taken as given.
- Simulator.Simulate: an `args` with fewer than two entries, where `args[1]` is undefined behaviour, is not modelled; the argument is always available as `argn`.
- `shared_ptr` sharing and the `BaseVar`/`Var<T>` hierarchy: frames are values, and a write through a reference becomes a new frame stored back on top of the stack. No two stack entries share a frame in the source, so this loses nothing the program relies on.
- C++ integer widths are not modelled. `int` and `uint64_t` arithmetic is unbounded here. The values `Fib(n)` agree with the 32-bit `int` results while `Fib(n)` fits, that is for `n <= 46`. The call count `calls` (fib.cpp:7) exceeds 2^31 - 1 from `n = 44` on, because `Calls(44) = 2 F(45) - 1 = 2269806339`. So the call counts of `FibOracle.Globals.CountedFib`, `FibOracle.FibMain` and `ProgramProofs.RunCountsCalls` match the C++ value only for `n <= 43`. The screen's `int step` (fibsym.cpp:131) is advanced `4 F(n+1)` times in a run and passes 2^31 - 1 from `n = 43` on. That affects only the step numbers in the log entries. The narrowing of `fib`'s `uint64_t` result to `int` in fib.cpp is not modelled.
- FibOracle.FibIsFibonacci and ProgramProofs.RunCountsCalls: the closed forms are stated for `n >= 0` only. For negative `n` both programs return `n` from the first call, as `Fib` does.
- The `main` of fib.cpp is modelled without its output line; `FibMain` returns the three printed numbers.
- A C++ exception thrown out of `main` aborts the process. Here every throwing accessor returns `Failure`, which the dispatcher propagates as the result of the pass. For the runs from `main` it is proved that no pass fails.
- Declaring a name twice is not an error: `Frame::map` keeps the old binding and reports nothing. An address that no branch matches is not an error either: the loop spins on it. The model does the same.
- The number of calls follows the recurrence `C(n) = 1 + C(n-1) + C(n-2)`, with `C(n) = 1` for `n <= 1`. It is not `2 C(n-1) + 1`: for `n = 3` the code makes 5 calls, not 7.
