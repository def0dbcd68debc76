/**
 * The simulated call stack (`struct Stack : vector<shared_ptr<Frame>>`):
 * pure descriptions of its accessors over a sequence of frames, and the
 * class whose methods update the vector in place.
 */
module Stacks {
  import opened Values
  import opened Frames

  /**
   * `Stack::top(back)`: `at(size() - back - 1)`, the frame `back` places
   * below the top.  `at` throws for an index outside the vector, which
   * happens exactly when `back` is negative or reaches the size.
   */
  function TopAt(frames: seq<Frame>, back: int): (r: Result<Frame>)
    ensures r.Success? <==> 0 <= back < |frames|
    ensures r.Success? ==> r.value == frames[|frames| - back - 1]
    ensures r.Failure? ==> r.error == StackIndexOutOfRange
  {
    var index := |frames| - back - 1;
    if 0 <= index < |frames| then Success(frames[index]) else Failure(StackIndexOutOfRange)
  }

  /** What `Stack::pop` hands back: the old top and the frames left below it. */
  datatype Popped = Popped(frame: Frame, rest: seq<Frame>)

  /**
   * `Stack::pop`: reads `top()` (which throws on an empty stack) and then
   * removes it.
   */
  function PopOf(frames: seq<Frame>): (r: Result<Popped>)
    ensures r.Success? <==> frames != []
    ensures r.Success? ==> r.value.rest + [r.value.frame] == frames
    ensures r.Failure? ==> r.error == StackIndexOutOfRange
  {
    var top :- TopAt(frames, 0);
    Success(Popped(top, frames[..|frames| - 1]))
  }

  /** The stack with its top frame replaced, as a write into `*top()` leaves it. */
  function WithTop(frames: seq<Frame>, f: Frame): (r: seq<Frame>)
    requires frames != []
    ensures |r| == |frames| && r[|r| - 1] == f
    ensures r[..|r| - 1] == frames[..|frames| - 1]
  {
    frames[..|frames| - 1] + [f]
  }

  /** Popping what was pushed gives back the frame and the stack as it was. */
  lemma PushThenPop(frames: seq<Frame>, f: Frame)
    ensures PopOf(frames + [f]) == Success(Popped(f, frames))
  {
    assert (frames + [f])[..|frames|] == frames;
  }

  /** Pushing the frame just popped restores the stack. */
  lemma PopThenPush(frames: seq<Frame>)
    requires frames != []
    ensures PopOf(frames).value.rest + [PopOf(frames).value.frame] == frames
    ensures |PopOf(frames).value.rest| == |frames| - 1
  {
  }

  class Stack {
    var frames: seq<Frame>

    constructor ()
      ensures frames == []
    {
      frames := [];
    }

    /** `Stack::top(back)`; the stack is not changed. */
    method Top(back: int) returns (r: Result<Frame>)
      ensures r.Success? <==> 0 <= back < |frames|
      ensures r.Success? ==> r.value == frames[|frames| - back - 1]
      ensures r.Failure? ==> r.error == StackIndexOutOfRange
    {
      var size := |frames|;
      var index := size - back - 1;
      if 0 <= index < size {
        r := Success(frames[index]);
      } else {
        r := Failure(StackIndexOutOfRange);
      }
    }

    /** `Stack::push`: the new frame goes on top of the others. */
    method Push(f: Frame)
      modifies this
      ensures frames == old(frames) + [f]
    {
      frames := frames + [f];
    }

    /**
     * `Stack::pop`: on a non-empty stack the old top is returned and removed
     * and every frame below it stays; on an empty stack `top()` throws and
     * nothing changes.
     */
    method Pop() returns (r: Result<Frame>)
      modifies this
      ensures old(frames) == [] ==> r == Failure(StackIndexOutOfRange) && frames == old(frames)
      ensures old(frames) != [] ==> r == Success(old(frames)[|old(frames)| - 1])
      ensures old(frames) != [] ==> frames == old(frames)[..|old(frames)| - 1]
    {
      r := Top(0);
      if r.Success? {
        frames := frames[..|frames| - 1];
      }
    }

    /** `top()->map(name, v)`: declares a variable in the top frame only. */
    method MapTop(name: string, v: Value) returns (r: Result<()>)
      modifies this
      ensures r.Success? <==> old(frames) != []
      ensures r.Failure? ==> r.error == StackIndexOutOfRange && frames == old(frames)
      ensures r.Success? ==> frames == WithTop(old(frames), old(frames)[|old(frames)| - 1].Map(name, v))
    {
      var top :- Top(0);
      frames := WithTop(frames, top.Map(name, v));
      r := Success(());
    }

    /** `top()->val<T>(name) = v`: a write through the reference into the top frame. */
    method AssignTop(name: string, v: Value) returns (r: Result<()>)
      modifies this
      ensures old(frames) == [] ==> r == Failure(StackIndexOutOfRange)
      ensures old(frames) != [] ==> r.Success? == old(frames)[|old(frames)| - 1].Assign(name, v).Success?
      ensures r.Failure? ==> frames == old(frames)
      ensures r.Success? ==> frames == WithTop(old(frames), old(frames)[|old(frames)| - 1].Assign(name, v).value)
    {
      var top :- Top(0);
      var g :- top.Assign(name, v);
      frames := WithTop(frames, g);
      r := Success(());
    }
  }
}
