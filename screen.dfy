/**
 * The bounded console of the simulator's screen (`struct Screen`): a log of
 * `(step, message)` entries that keeps at most `maxConsole` of the newest.
 * The terminal drawing is not modelled; `step` is a plain counter.
 */
module Screens {

  type Entry = (int, string)

  /** How many of the oldest entries `log` erases before appending to `console`. */
  function Evicted(console: seq<Entry>, maxConsole: int): (k: nat)
    requires 1 <= maxConsole
    ensures k <= |console|
    ensures |console| - k <= maxConsole - 1
    ensures |console| < maxConsole ==> k == 0
  {
    if |console| >= maxConsole then |console| - maxConsole + 1 else 0
  }

  /** The console after `log(str)` at step `step`. */
  function Logged(console: seq<Entry>, maxConsole: int, e: Entry): (r: seq<Entry>)
    requires 1 <= maxConsole
  {
    console[Evicted(console, maxConsole)..] + [e]
  }

  /**
   * What logging promises: the console never grows beyond `maxConsole`, the
   * new entry is the last one, the entries kept are the newest old ones in
   * their original order, and nothing is lost while there is room.
   */
  lemma LoggedShape(console: seq<Entry>, maxConsole: int, e: Entry)
    requires 1 <= maxConsole
    ensures var r := Logged(console, maxConsole, e);
      && 1 <= |r| <= maxConsole
      && r[|r| - 1] == e
      && r[..|r| - 1] == console[|console| - (|r| - 1)..]
      && (|console| < maxConsole ==> r == console + [e])
      && (|console| >= maxConsole ==> |r| == maxConsole)
  {
    var r := Logged(console, maxConsole, e);
    assert r[..|r| - 1] == console[Evicted(console, maxConsole)..];
  }

  /** Logging into a full console is a sliding window: one in, one out. */
  lemma LoggedFull(console: seq<Entry>, maxConsole: int, e: Entry)
    requires 1 <= maxConsole == |console|
    ensures Logged(console, maxConsole, e) == console[1..] + [e]
  {
  }

  class Screen {
    var step: int
    var maxConsole: int
    var console: seq<Entry>

    ghost predicate Valid()
      reads this
    {
      1 <= maxConsole && |console| <= maxConsole
    }

    /** The screen starts at step 0 with an empty console of capacity 10. */
    constructor ()
      ensures Valid()
      ensures step == 0 && maxConsole == 10 && console == []
    {
      step := 0;
      maxConsole := 10;
      console := [];
    }

    /** `Screen::log`: erase the oldest entries while full, then append. */
    method Log(str: string)
      requires Valid()
      modifies this`console
      ensures Valid()
      ensures console == Logged(old(console), maxConsole, (step, str))
    {
      while |console| >= maxConsole
        invariant console == old(console)[|old(console)| - |console|..]
        invariant |old(console)| >= maxConsole ==> |console| >= maxConsole - 1
        invariant |old(console)| < maxConsole ==> console == old(console)
        decreases |console|
      {
        console := console[1..];
      }
      console := console + [(step, str)];
      LoggedShape(old(console), maxConsole, (step, str));
    }

    /** The step clock that `Screen::refresh` advances. */
    method Refresh()
      modifies this`step
      ensures step == old(step) + 1
    {
      step := step + 1;
    }
  }
}
