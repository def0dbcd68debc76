/**
 * A call frame: a map from variable names to dynamically typed values
 * (`struct Frame : std::map<std::string, std::shared_ptr<BaseVar>>`).
 */
module Frames {
  import opened Values

  datatype Frame = Frame(vars: map<string, Value>) {

    /**
     * `Frame::map`: declares `name` with an initial value.  It is
     * `std::map::insert`, so a name that is already declared keeps its
     * binding and nothing is reported.
     */
    function Map(name: string, v: Value): (g: Frame)
      ensures g.vars.Keys == vars.Keys + {name}
      ensures forall k :: k in vars ==> g.vars[k] == vars[k]
      ensures name !in vars ==> g.vars[name] == v
      ensures name in vars ==> g == this
    {
      if name in vars then this else Frame(vars[name := v])
    }

    /**
     * `Frame::var<T>`: the variable called `name`, which must hold a `T`.
     * A missing name throws `out_of_range`; a variable of another type makes
     * the `dynamic_cast` throw.
     */
    function Var(name: string, kind: Kind): (r: Result<Value>)
      ensures r.Success? <==> name in vars && KindOf(vars[name]) == kind
      ensures r.Success? ==> r.value == vars[name]
      ensures name !in vars ==> r == Failure(NameNotInFrame(name))
      ensures name in vars && KindOf(vars[name]) != kind ==> r == Failure(BadCast(name))
    {
      if name !in vars then Failure(NameNotInFrame(name))
      else if KindOf(vars[name]) != kind then Failure(BadCast(name))
      else Success(vars[name])
    }

    /** `Frame::val<int>`. */
    function IntVal(name: string): (r: Result<int>)
      ensures r.Success? <==> name in vars && vars[name].Int?
      ensures r.Success? ==> vars[name] == Int(r.value)
      ensures r.Failure? ==> Var(name, IntKind) == Failure(r.error)
    {
      var v :- Var(name, IntKind);
      Success(v.i)
    }

    /** `Frame::val<string>`. */
    function TextVal(name: string): (r: Result<string>)
      ensures r.Success? <==> name in vars && vars[name].Text?
      ensures r.Success? ==> vars[name] == Text(r.value)
      ensures r.Failure? ==> Var(name, TextKind) == Failure(r.error)
    {
      var v :- Var(name, TextKind);
      Success(v.s)
    }

    /** `Frame::val<vector<string>>`. */
    function ListVal(name: string): (r: Result<seq<string>>)
      ensures r.Success? <==> name in vars && vars[name].StringList?
      ensures r.Success? ==> vars[name] == StringList(r.value)
      ensures r.Failure? ==> Var(name, ListKind) == Failure(r.error)
    {
      var v :- Var(name, ListKind);
      Success(v.items)
    }

    /**
     * A write through the reference `val<T>(name)` hands out: it succeeds
     * exactly when the lookup does, replaces that one variable and leaves
     * every other variable, and the set of names, as they were.
     */
    function Assign(name: string, v: Value): (r: Result<Frame>)
      ensures r.Success? <==> Var(name, KindOf(v)).Success?
      ensures r.Failure? ==> Var(name, KindOf(v)) == Failure(r.error)
      ensures r.Success? ==> r.value.vars.Keys == vars.Keys && r.value.vars[name] == v
      ensures r.Success? ==> forall k :: k in vars && k != name ==> r.value.vars[k] == vars[k]
    {
      var current :- Var(name, KindOf(v));
      Success(Frame(vars[name := v]))
    }
  }

  /** Declaring a fresh name makes it readable at the type it was declared with. */
  lemma MapThenVar(f: Frame, name: string, v: Value)
    requires name !in f.vars
    ensures f.Map(name, v).Var(name, KindOf(v)) == Success(v)
    ensures forall kind :: kind != KindOf(v) ==> f.Map(name, v).Var(name, kind) == Failure(BadCast(name))
  {
  }

  /** Re-declaring a name changes nothing, whatever the new value's type. */
  lemma MapTwiceKeepsFirst(f: Frame, name: string, v: Value, w: Value)
    ensures f.Map(name, v).Map(name, w) == f.Map(name, v)
  {
  }

  /** A value written through a reference is what the next lookup returns. */
  lemma AssignThenVar(f: Frame, name: string, v: Value)
    requires f.Var(name, KindOf(v)).Success?
    ensures f.Assign(name, v).Success?
    ensures f.Assign(name, v).value.Var(name, KindOf(v)) == Success(v)
  {
  }
}
