/**
 * The observer list of the Python editor (editor/event.py).
 *
 * An `Event` keeps an ordered list of observer functions.  `bind` extends
 * it, `unbind` removes the first occurrence of each given function and
 * `notify` calls every observer, in list order, with the same arguments.
 * Calling an observer is modelled by recording the call, so `Notify`
 * returns the calls it makes.
 */
module EditorEvent {

  /** A Python object handed to `bind`; only callable ones are accepted. */
  datatype Func = Func(name: string, isCallable: bool)

  /** The value of the `name` attribute: a string, or the Event itself. */
  datatype EventName = Named(text: string) | ItSelf

  /** How a call of `bind`/`unbind` ends. */
  datatype Outcome =
    | Done
    | AssertionFailed  // `assert min(...)` saw a non-callable argument
    | EmptyMin         // `min` of no arguments raises ValueError

  /** One call of an observer, with the arguments it received. */
  datatype Call<A> = Call(observer: Func, args: A)

  /** `s` with its first occurrence of `f` removed, or `s` if `f` is absent
    * (Python's `list.remove`, which raises ValueError in that case). */
  function RemoveFirst(s: seq<Func>, f: Func): (r: seq<Func>)
  {
    if s == [] then []
    else if s[0] == f then s[1..]
    else [s[0]] + RemoveFirst(s[1..], f)
  }

  /** `RemoveFirst` for every element of `fs`, from left to right. */
  function RemoveEach(s: seq<Func>, fs: seq<Func>): (r: seq<Func>)
    decreases |fs|
  {
    if fs == [] then s else RemoveEach(RemoveFirst(s, fs[0]), fs[1..])
  }

  /** `true` iff every argument is callable: the value of `min(callable(f) for f in funcs)`. */
  predicate AllCallable(fs: seq<Func>)
  {
    forall i :: 0 <= i < |fs| ==> fs[i].isCallable
  }

  /** Removing the first occurrence takes exactly one copy of `f` out of
    * the list when it is present, and leaves the list alone otherwise. */
  lemma {:induction false} RemoveFirstCount(s: seq<Func>, f: Func)
    ensures f in s ==> multiset(RemoveFirst(s, f)) == multiset(s) - multiset{f}
    ensures f in s ==> |RemoveFirst(s, f)| == |s| - 1
    ensures f !in s ==> RemoveFirst(s, f) == s
  {
    if s != [] {
      assert s == [s[0]] + s[1..];
      if s[0] != f {
        RemoveFirstCount(s[1..], f);
      }
    }
  }

  /** Only the first occurrence goes: everything before it stays in place
    * and everything after it moves up by one. */
  lemma {:induction false} RemoveFirstShape(s: seq<Func>, f: Func, k: nat)
    requires k < |s| && s[k] == f && f !in s[..k]
    ensures RemoveFirst(s, f) == s[..k] + s[k + 1..]
  {
    if k > 0 {
      assert s[0] != f by { assert s[0] == s[..k][0]; }
      RemoveFirstShape(s[1..], f, k - 1);
      assert s[1..][..k - 1] == s[1..k];
      assert s[..k] == [s[0]] + s[1..k];
    }
  }

  class Event<A> {
    var observers: seq<Func>
    const log: bool
    const name: EventName

    /** `Event(log, name)`: no observers; an empty or missing name makes the
      * Event its own name (Python's `name if name else self`). */
    constructor (log: bool, name: string)
      ensures observers == []
      ensures this.log == log
      ensures this.name == if name == "" then ItSelf else Named(name)
    {
      observers := [];
      this.log := log;
      this.name := if name == "" then ItSelf else Named(name);
    }

    /** `bind(*funcs)`: appends the arguments in order, duplicates allowed;
      * with no argument `min` raises, and a non-callable one fails the
      * assertion; in both error cases the list is unchanged. */
    method Bind(funcs: seq<Func>) returns (r: Outcome)
      modifies this
      ensures r == (if funcs == [] then EmptyMin
                    else if AllCallable(funcs) then Done
                    else AssertionFailed)
      ensures observers == if r == Done then old(observers) + funcs else old(observers)
    {
      if funcs == [] {
        return EmptyMin;
      }
      if !AllCallable(funcs) {
        return AssertionFailed;
      }
      observers := observers + funcs;
      return Done;
    }

    /** `unbind(*funcs)`: removes the first occurrence of each argument in
      * turn, silently skipping those that are not bound. */
    method Unbind(funcs: seq<Func>)
      modifies this
      ensures observers == RemoveEach(old(observers), funcs)
    {
      var i := 0;
      while i < |funcs|
        invariant 0 <= i <= |funcs|
        invariant RemoveEach(old(observers), funcs) == RemoveEach(observers, funcs[i..])
      {
        assert funcs[i..][1..] == funcs[i + 1..];
        observers := RemoveFirst(observers, funcs[i]);
        i := i + 1;
      }
    }

    /** `event += func`: binds `func` and evaluates to the same Event. */
    method AddAssign(func: Func) returns (r: Event<A>, outcome: Outcome)
      modifies this
      ensures r == this
      ensures outcome == (if func.isCallable then Done else AssertionFailed)
      ensures observers == if func.isCallable then old(observers) + [func] else old(observers)
    {
      assert [func][0] == func;
      assert AllCallable([func]) == func.isCallable;
      outcome := Bind([func]);
      r := this;
    }

    /** `event -= func`: unbinds `func` and evaluates to the same Event. */
    method SubAssign(func: Func) returns (r: Event<A>)
      modifies this
      ensures r == this
      ensures observers == RemoveFirst(old(observers), func)
    {
      Unbind([func]);
      r := this;
    }

    /** `notify(*args)`: one call per current observer, in list order, all
      * with the same arguments; nothing happens without observers. */
    method Notify(args: A) returns (calls: seq<Call<A>>)
      ensures |calls| == |observers|
      ensures forall i :: 0 <= i < |calls| ==> calls[i] == Call(observers[i], args)
    {
      calls := [];
      var i := 0;
      while i < |observers|
        invariant 0 <= i <= |observers|
        invariant |calls| == i
        invariant forall k :: 0 <= k < i ==> calls[k] == Call(observers[k], args)
      {
        calls := calls + [Call(observers[i], args)];
        i := i + 1;
      }
    }
  }

  /** `unbind` after `bind` of a single function that was not bound before
    * restores the observer list. */
  lemma BindThenUnbind(s: seq<Func>, f: Func)
    requires f !in s
    ensures RemoveEach(s + [f], [f]) == s
  {
    var t := s + [f];
    assert t[|s|] == f && f !in t[..|s|] by { assert t[..|s|] == s; }
    RemoveFirstShape(t, f, |s|);
    assert t[..|s|] == s;
  }
}
