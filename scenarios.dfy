/**
 * Concrete runs of the library in small environments, stated as methods
 * whose postconditions follow from the contracts alone.
 */
module Scenarios {
  import opened Host
  import opened Closures

  /**
   * A class `Counter` whose `__invoke` returns its own receiver. `closure`
   * on its name defers resolution; both calls of the produced closure reach
   * the one instance constructed on the first call.
   */
  method MemoisedInstanceIsShared() returns (first: Result<Value>, second: Result<Value>)
    ensures first == second == Ok(Obj(Instance("Counter", 0)))
  {
    var env := Env(map["Counter" := map[DefaultInvoke := NoType]],
                   c => NoType,
                   v => false,
                   (c, t) => None,
                   (i, m, args, t) => Ok(Obj(i)),
                   (f, b, args, t) => Ok(Null),
                   (f, o, sc) => true);
    var rt := new Runtime(env);
    var made := MakeClosure(rt, Str("Counter"), None, None);
    assert made.Ok? && made.value.body.Lazy?;
    first := Apply(rt, made.value, []);
    second := Apply(rt, made.value, [Int(1)]);
  }

  /**
   * A class `Delayed` whose constructor always throws: `closure` on its name
   * succeeds, and every call of the result throws the constructor's
   * exception, the second one because resolution is tried again.
   */
  method ConstructionFailureIsDeferred() returns (made: Result<Closure>, first: Result<Value>, second: Result<Value>)
    ensures made.Ok?
    ensures first == second == Err(Thrown(7))
  {
    var env := Env(map["Delayed" := map[DefaultInvoke := NoType]],
                   c => NoType,
                   v => false,
                   (c, t) => Some(Thrown(7)),
                   (i, m, args, t) => Ok(Null),
                   (f, b, args, t) => Ok(Null),
                   (f, o, sc) => true);
    var rt := new Runtime(env);
    made := MakeClosure(rt, Str("Delayed"), None, None);
    assert made.value.body.Lazy?;
    first := Apply(rt, made.value, []);
    second := Apply(rt, made.value, []);
  }

  /**
   * A class `Greeter` with a method `test` and no `__invoke`. Called with
   * neither receiver nor scope and the override `test`, `call` as written
   * ignores the override and fails; the corrected `call` runs `test`.
   */
  method CallIgnoresOverride() returns (asWritten: Result<Value>, corrected: Result<Value>)
    ensures asWritten == Err(NotInvokable("Greeter", DefaultInvoke))
    ensures corrected == Ok(Bool(true))
  {
    var env := Env(map["Greeter" := map["test" := NoType]],
                   c => NoType,
                   v => false,
                   (c, t) => None,
                   (i, m, args, t) => Ok(Bool(m == "test")),
                   (f, b, args, t) => Ok(Null),
                   (f, o, sc) => true);
    var rt := new Runtime(env);
    ghost var unbound: Result<Closure>;
    ghost var mid: nat;
    asWritten, unbound, mid := CallAsWritten(rt, Str("Greeter"), None, None, None, Some("test"));
    corrected, unbound, mid := Call(rt, Str("Greeter"), None, None, None, Some("test"));
  }

  /**
   * A value that is neither callable nor invokable: `wrap` gives a closure
   * that returns it unchanged, whatever arguments it is called with.
   */
  method WrappedValueIsReturned() returns (r: Result<Value>)
    ensures r == Ok(Int(5))
  {
    var env := Env(map[], c => NoType, v => false, (c, t) => None, (i, m, args, t) => Ok(Null), (f, b, args, t) => Ok(Null),
                   (f, o, sc) => true);
    var rt := new Runtime(env);
    var c := Wrap(rt, Int(5), None, None);
    r := Apply(rt, c.value, [Str("ignored")]);
  }

  /**
   * An invokable object with no `Closure` return type takes the fast path;
   * binding the closure `Closure::fromCallable` made from it to an object of
   * an unrelated class is refused by `bindTo`, so `bind` throws the TypeError
   * of its `Closure` return type, and so does `call`.
   */
  method RefusedRebindingThrows() returns (bound: Result<Closure>, called: Result<Value>)
    ensures bound == Err(ReturnTypeError)
    ensures called == Err(ReturnTypeError)
  {
    var env := Env(map["Job" := map[DefaultInvoke := NoType]],
                   c => NoType,
                   (v: Value) => v.Obj?,
                   (c, t) => None,
                   (i, m, args, t) => Ok(Null),
                   (f, b, args, t) => Ok(Null),
                   (f, o, sc) => false);
    var rt := new Runtime(env);
    var job := Obj(Instance("Job", 0));
    var other := Instance("Other", 1);
    ghost var unbound: Result<Closure>;
    ghost var mid: nat;
    bound, unbound := Bind(rt, job, Some(other), None, None, None);
    called, unbound, mid := Call(rt, job, Some(other), None, None, None);
  }
}
