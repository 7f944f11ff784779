/**
 * The public functions of the library: `closure` turns a callable, an
 * invokable object or the name of an invokable class into one closure;
 * `wrap` falls back to a closure returning its argument; `bind` and `call`
 * rebind the produced closure; `binding` hands it to an introspector;
 * `invokable` is the capability check.
 *
 * `Dispatch` is the case analysis `closure` makes; `Produced` is what
 * `closure` produces on each case; the methods carry it out on a runtime.
 */
module Closures {
  import opened Host
  import Inv = Invokable
  import opened Memo

  /** What a produced closure runs when called. */
  datatype Body =
    | FromCallable(callable: Value)   // `Closure::fromCallable($callable)`: calls the callable itself
    | Unwrapped(closure: Value)       // the closure object a `Closure`-returning method gave back
    | Lazy(cell: LazyClosure)         // the memoising anonymous function
    | Constant(value: Value)          // `fn() => $callable`

  /** A produced closure and the context it was (re)bound to. */
  datatype Closure = Closure(body: Body, binding: Binding)

  /** The four ways `closure` can go. */
  datatype Route =
    | Direct                          // the fast path for plain callables
    | Reject(error: Error)            // the TypeError for values that are not invokable
    | Eager(invoke: MethodName)       // resolve now and return the closure the method returns
    | Deferred(invoke: MethodName)    // return a lazy, memoising closure

  /** The parameter type `callable|object|string`. */
  predicate AcceptsDescriptor(env: Env, v: Value)
  {
    env.isCallable(v) || v.Obj? || v.Str?
  }

  /** `returnsClosure` guarded by its `string|object` parameter type. */
  predicate ClosureReturning(env: Env, v: Value, invoke: Option<MethodName>)
  {
    (v.Obj? || v.Str?) && Inv.ReturnsClosure(env, v, invoke)
  }

  /** What the TypeError names: the class of an object, or the string itself. */
  function Subject(v: Value): string
    requires v.Obj? || v.Str?
  {
    if v.Obj? then v.inst.cls else v.s
  }

  /**
   * The case analysis of `closure`. A callable whose chosen method does not
   * declare `Closure` takes the fast path, whatever method the override
   * names. `closure` fails exactly when the value is neither callable nor
   * invokable, naming the value and the chosen method. It unwraps eagerly
   * exactly when the chosen method declares `Closure`, and otherwise builds a
   * lazy closure on the chosen method of an invokable value.
   *
   * A callable array takes the fast path here; the code as written fails on
   * it instead (see `DispatchAsWritten`).
   */
  function Dispatch(env: Env, v: Value, invoke: Option<MethodName>): (r: Route)
    requires AcceptsDescriptor(env, v)
    ensures r.Direct? <==> env.isCallable(v) && !ClosureReturning(env, v, invoke)
    ensures r.Reject? <==> !env.isCallable(v) && !Inv.IsInvokable(env, v, invoke)
    ensures r.Reject? ==> (v.Obj? || v.Str?) && r.error == NotInvokable(Subject(v), Inv.GetInvokeMethod(invoke))
    ensures r.Eager? <==> ClosureReturning(env, v, invoke)
    ensures r.Deferred? <==> !env.isCallable(v) && Inv.IsInvokable(env, v, invoke) && !ClosureReturning(env, v, invoke)
    ensures (r.Eager? || r.Deferred?) ==> r.invoke == Inv.GetInvokeMethod(invoke) && Inv.IsInvokable(env, v, invoke)
  {
    if env.isCallable(v) && !ClosureReturning(env, v, invoke) then Direct
    else
      var m := Inv.GetInvokeMethod(invoke);
      if !Inv.IsInvokable(env, v, Some(m)) then Reject(NotInvokable(Subject(v), m))
      else if Inv.ReturnsClosure(env, v, Some(m)) then Eager(m)
      else Deferred(m)
  }

  /**
   * The case analysis of `closure` as written: for a callable that is
   * neither an object nor a string (an array callable such as
   * `[$object, 'method']`) the call to `returnsClosure`, whose parameter is
   * declared `string|object`, raises a TypeError before the fast path is
   * taken. On objects and strings it agrees with `Dispatch`.
   */
  function DispatchAsWritten(env: Env, v: Value, invoke: Option<MethodName>): (r: Route)
    requires AcceptsDescriptor(env, v)
    ensures env.isCallable(v) && !(v.Obj? || v.Str?) ==> r == Reject(ArgumentTypeError)
    ensures v.Obj? || v.Str? ==> r == Dispatch(env, v, invoke)
  {
    if env.isCallable(v) && !(v.Obj? || v.Str?) then Reject(ArgumentTypeError)
    else if env.isCallable(v) && !Inv.ReturnsClosure(env, v, invoke) then Direct
    else
      var m := Inv.GetInvokeMethod(invoke);
      if !Inv.IsInvokable(env, v, Some(m)) then Reject(NotInvokable(Subject(v), m))
      else if Inv.ReturnsClosure(env, v, Some(m)) then Eager(m)
      else Deferred(m)
  }

  /**
   * The eager path's outcome, `closure`'s `Closure` return type applied to
   * what the method returned: the method's closure object itself, with no
   * wrapper around it, or the failure of resolving or of the call.
   */
  function AsClosure(out: Result<Value>): (r: Result<Closure>)
    ensures r.Ok? <==> out.Ok? && IsClosureObject(out.value)
    ensures r.Ok? ==> r.value.body == Unwrapped(out.value) && r.value.binding == Unbound
    ensures out.Err? ==> r == Err(out.error)
    ensures out.Ok? && !IsClosureObject(out.value) ==> r == Err(ReturnTypeError)
  {
    match out
    case Err(e) => Err(e)
    case Ok(c) => if IsClosureObject(c) then Ok(Closure(Unwrapped(c), Unbound)) else Err(ReturnTypeError)
  }

  /**
   * What `closure(v, resolver, invoke)` produces, with the clock before and
   * after. The fast path and the TypeError call no user code. The eager path
   * resolves and calls the method once, at creation. The lazy path only
   * captures: its cell is created empty (see `MakeClosure`).
   */
  ghost predicate Produced(env: Env, v: Value, resolver: Option<Resolver>, invoke: Option<MethodName>,
                           before: nat, after: nat, r: Result<Closure>)
    requires AcceptsDescriptor(env, v)
  {
    match Dispatch(env, v, invoke)
    case Direct => after == before && r == Ok(Closure(FromCallable(v), Unbound))
    case Reject(e) => after == before && r == Err(e)
    case Eager(m) =>
      var s := CallStep(env, Captured(v, resolver, m), None, [], before);
      after == s.clock && r == AsClosure(s.result)
    case Deferred(m) =>
      after == before && r.Ok? && r.value.binding == Unbound && r.value.body.Lazy? &&
      r.value.body.cell.captured == Captured(v, resolver, m)
  }

  /** The lazy closure objects a produced closure holds. */
  function Cells(c: Closure): set<object>
  {
    if c.body.Lazy? then {c.body.cell} else {}
  }

  /** The state of a produced closure's memo cell; closures without one have none. */
  function MemoOf(c: Closure): Option<Instance>
    reads Cells(c)
  {
    if c.body.Lazy? then c.body.cell.resolved else None
  }

  /** One call of a produced closure on `args`, from memo `memo` at clock `clock`. */
  function CallClosure(env: Env, c: Closure, memo: Option<Instance>, args: seq<Value>, clock: nat): Step
  {
    match c.body
    case Constant(v) => Step(memo, Ok(v), clock)
    case FromCallable(f) => Step(memo, env.runCallable(f, c.binding, args, clock), clock + 1)
    case Unwrapped(f) => Step(memo, env.runCallable(f, c.binding, args, clock), clock + 1)
    case Lazy(cell) => CallStep(env, cell.captured, memo, args, clock)
  }

  /** `closure($callable, $resolve, $invoke)`. */
  method MakeClosure(rt: Runtime, v: Value, resolver: Option<Resolver>, invoke: Option<MethodName>)
    returns (r: Result<Closure>)
    requires AcceptsDescriptor(rt.env, v)
    modifies rt
    ensures Produced(rt.env, v, resolver, invoke, old(rt.clock), rt.clock, r)
    ensures r.Ok? && r.value.body.Lazy? ==>
              fresh(r.value.body.cell) && r.value.body.cell.resolved.None? && r.value.body.cell.attempts == 0
  {
    match Dispatch(rt.env, v, invoke)
    case Direct =>
      r := Ok(Closure(FromCallable(v), Unbound));
    case Reject(e) =>
      r := Err(e);
    case Eager(m) =>
      var stamp := rt.Tick();
      var target := Inv.Resolve(rt.env, v, resolver, stamp);
      if target.Err? {
        r := Err(target.error);
      } else {
        stamp := rt.Tick();
        var out := InvokeMethod(rt.env, target.value, m, [], stamp);
        r := AsClosure(out);
      }
    case Deferred(m) =>
      var cell := new LazyClosure(Captured(v, resolver, m));
      r := Ok(Closure(Lazy(cell), Unbound));
  }

  /** Calling a produced closure: `$closure(...$args)`. */
  method Apply(rt: Runtime, c: Closure, args: seq<Value>) returns (r: Result<Value>)
    modifies rt, Cells(c)
    ensures var s := CallClosure(rt.env, c, old(MemoOf(c)), args, old(rt.clock));
            r == s.result && rt.clock == s.clock && MemoOf(c) == s.memo
  {
    match c.body
    case Constant(v) =>
      r := Ok(v);
    case FromCallable(f) =>
      var stamp := rt.Tick();
      r := rt.env.runCallable(f, c.binding, args, stamp);
    case Unwrapped(f) =>
      var stamp := rt.Tick();
      r := rt.env.runCallable(f, c.binding, args, stamp);
    case Lazy(cell) =>
      r := cell.Call(rt, args);
  }

  /**
   * `wrap($callable, $resolve, $invoke)`: a value that is neither callable
   * nor invokable becomes a closure returning it unchanged, whatever it is
   * called with; anything else is exactly `closure($callable, $resolve,
   * $invoke)`, which then never takes its TypeError branch.
   */
  method Wrap(rt: Runtime, v: Value, resolver: Option<Resolver>, invoke: Option<MethodName>)
    returns (r: Result<Closure>)
    modifies rt
    ensures !rt.env.isCallable(v) && !Inv.IsInvokable(rt.env, v, invoke) ==>
              r == Ok(Closure(Constant(v), Unbound)) && rt.clock == old(rt.clock)
    ensures rt.env.isCallable(v) || Inv.IsInvokable(rt.env, v, invoke) ==>
              AcceptsDescriptor(rt.env, v) && Produced(rt.env, v, resolver, invoke, old(rt.clock), rt.clock, r)
    ensures rt.env.isCallable(v) || Inv.IsInvokable(rt.env, v, invoke) ==>
              AcceptsDescriptor(rt.env, v) && !Dispatch(rt.env, v, invoke).Reject?
    ensures r.Ok? && r.value.body.Lazy? ==> fresh(r.value.body.cell) && r.value.body.cell.resolved.None?
  {
    if !rt.env.isCallable(v) && !Inv.IsInvokable(rt.env, v, invoke) {
      r := Ok(Closure(Constant(v), Unbound));
    } else {
      r := MakeClosure(rt, v, resolver, invoke);
    }
  }

  /** `$newScope ?? $newThis`: the scope given, else the new receiver, else none. */
  function BindScope(newThis: Option<Instance>, newScope: Option<ClassName>): ScopeArg
  {
    if newScope.Some? then ScopeName(newScope.value)
    else if newThis.Some? then ScopeOf(newThis.value)
    else NoScope
  }

  /**
   * `$closure->bindTo($newThis, $newScope ?? $newThis)`: the same body under
   * the new receiver, and the given scope or else the receiver's; any
   * earlier binding is replaced.
   */
  function Rebind(c: Closure, newThis: Option<Instance>, newScope: Option<ClassName>): (b: Closure)
    ensures b.body == c.body
    ensures b.binding.BoundTo? && b.binding.receiver == newThis
    ensures newScope.Some? ==> b.binding.scope == ScopeName(newScope.value)
    ensures newScope.None? && newThis.Some? ==> b.binding.scope == ScopeOf(newThis.value)
    ensures newScope.None? && newThis.None? ==> b.binding.scope == NoScope
  {
    Closure(c.body, BoundTo(newThis, BindScope(newThis, newScope)))
  }

  /**
   * Whether `bindTo` accepts rebinding `c`. The anonymous functions the
   * library writes itself (the lazy closure and `fn() => $callable`) can be
   * rebound freely; a closure made by `Closure::fromCallable`, or the
   * closure object a method returned, is rebound only when the host allows.
   */
  predicate RebindAllowed(env: Env, c: Closure, newThis: Option<Instance>, newScope: Option<ClassName>)
  {
    match c.body
    case FromCallable(f) => env.canRebind(f, newThis, BindScope(newThis, newScope))
    case Unwrapped(f) => env.canRebind(f, newThis, BindScope(newThis, newScope))
    case Lazy(_) => true
    case Constant(_) => true
  }

  /**
   * `bind`: the result of `closure` rebound. When `closure` fails, `bind`
   * fails the same way; when `bindTo` refuses and returns null, the declared
   * return type `Closure` turns that null into a TypeError.
   */
  method Bind(rt: Runtime, v: Value, newThis: Option<Instance>, newScope: Option<ClassName>,
              resolver: Option<Resolver>, invoke: Option<MethodName>)
    returns (r: Result<Closure>, ghost unbound: Result<Closure>)
    requires AcceptsDescriptor(rt.env, v)
    modifies rt
    ensures Produced(rt.env, v, resolver, invoke, old(rt.clock), rt.clock, unbound)
    ensures unbound.Err? ==> r == unbound
    ensures unbound.Ok? && RebindAllowed(rt.env, unbound.value, newThis, newScope) ==>
              r == Ok(Rebind(unbound.value, newThis, newScope))
    ensures unbound.Ok? && !RebindAllowed(rt.env, unbound.value, newThis, newScope) ==>
              r == Err(ReturnTypeError)
    ensures r.Ok? && r.value.body.Lazy? ==> fresh(r.value.body.cell) && r.value.body.cell.resolved.None?
  {
    var c := MakeClosure(rt, v, resolver, invoke);
    unbound := c;
    if c.Err? {
      r := c;
    } else if !RebindAllowed(rt.env, c.value, newThis, newScope) {
      r := Err(ReturnTypeError);
    } else {
      r := Ok(Rebind(c.value, newThis, newScope));
    }
  }

  /**
   * `call`, corrected: with neither a receiver nor a scope the closure is
   * built with the given resolver and method and called with no arguments;
   * otherwise the bound closure is called with no arguments. A failure of
   * `closure` or of `bind` is the outcome; so is whatever the first call
   * returns or throws.
   */
  method Call(rt: Runtime, v: Value, newThis: Option<Instance>, newScope: Option<ClassName>,
              resolver: Option<Resolver>, invoke: Option<MethodName>)
    returns (r: Result<Value>, ghost unbound: Result<Closure>, ghost mid: nat)
    requires AcceptsDescriptor(rt.env, v)
    modifies rt
    ensures Produced(rt.env, v, resolver, invoke, old(rt.clock), mid, unbound)
    ensures unbound.Err? ==> r == Err(unbound.error) && rt.clock == mid
    ensures unbound.Ok? && newThis.None? && newScope.None? ==>
              var s := CallClosure(rt.env, unbound.value, None, [], mid);
              r == s.result && rt.clock == s.clock
    ensures unbound.Ok? && (newThis.Some? || newScope.Some?) &&
            !RebindAllowed(rt.env, unbound.value, newThis, newScope) ==>
              r == Err(ReturnTypeError) && rt.clock == mid
    ensures unbound.Ok? && (newThis.Some? || newScope.Some?) &&
            RebindAllowed(rt.env, unbound.value, newThis, newScope) ==>
              var s := CallClosure(rt.env, Rebind(unbound.value, newThis, newScope), None, [], mid);
              r == s.result && rt.clock == s.clock
  {
    var c: Result<Closure>;
    if newThis.None? && newScope.None? {
      c := MakeClosure(rt, v, resolver, invoke);
      unbound := c;
    } else {
      c, unbound := Bind(rt, v, newThis, newScope, resolver, invoke);
    }
    mid := rt.clock;
    if c.Err? {
      r := Err(c.error);
    } else {
      r := Apply(rt, c.value, []);
    }
  }

  /**
   * `call` as written: with neither a receiver nor a scope it evaluates
   * `closure($callable)()`, dropping the resolver and the method override;
   * otherwise it is `bind(...)()` with both.
   */
  method CallAsWritten(rt: Runtime, v: Value, newThis: Option<Instance>, newScope: Option<ClassName>,
                       resolver: Option<Resolver>, invoke: Option<MethodName>)
    returns (r: Result<Value>, ghost unbound: Result<Closure>, ghost mid: nat)
    requires AcceptsDescriptor(rt.env, v)
    modifies rt
    ensures newThis.None? && newScope.None? ==> Produced(rt.env, v, None, None, old(rt.clock), mid, unbound)
    ensures newThis.Some? || newScope.Some? ==> Produced(rt.env, v, resolver, invoke, old(rt.clock), mid, unbound)
    ensures unbound.Err? ==> r == Err(unbound.error) && rt.clock == mid
    ensures unbound.Ok? && newThis.None? && newScope.None? ==>
              var s := CallClosure(rt.env, unbound.value, None, [], mid);
              r == s.result && rt.clock == s.clock
    ensures unbound.Ok? && (newThis.Some? || newScope.Some?) &&
            !RebindAllowed(rt.env, unbound.value, newThis, newScope) ==>
              r == Err(ReturnTypeError) && rt.clock == mid
    ensures unbound.Ok? && (newThis.Some? || newScope.Some?) &&
            RebindAllowed(rt.env, unbound.value, newThis, newScope) ==>
              var s := CallClosure(rt.env, Rebind(unbound.value, newThis, newScope), None, [], mid);
              r == s.result && rt.clock == s.clock
  {
    var c: Result<Closure>;
    if newThis.None? && newScope.None? {
      c := MakeClosure(rt, v, None, None);
      unbound := c;
    } else {
      c, unbound := Bind(rt, v, newThis, newScope, resolver, invoke);
    }
    mid := rt.clock;
    if c.Err? {
      r := Err(c.error);
    } else {
      r := Apply(rt, c.value, []);
    }
  }

  /** The introspector `binding` returns, around the closure it inspects. */
  datatype ClosureBinding = ClosureBinding(closure: Closure)

  /** `binding`: the closure `closure` produces, handed to an introspector; it fails exactly when `closure` does. */
  method Binding(rt: Runtime, v: Value, resolver: Option<Resolver>, invoke: Option<MethodName>)
    returns (r: Result<ClosureBinding>, ghost made: Result<Closure>)
    requires AcceptsDescriptor(rt.env, v)
    modifies rt
    ensures Produced(rt.env, v, resolver, invoke, old(rt.clock), rt.clock, made)
    ensures made.Err? ==> r == Err(made.error)
    ensures made.Ok? ==> r == Ok(ClosureBinding(made.value))
    ensures !rt.env.isCallable(v) && !Inv.IsInvokable(rt.env, v, invoke) ==>
              r == Err(NotInvokable(Subject(v), Inv.GetInvokeMethod(invoke))) && rt.clock == old(rt.clock)
  {
    var c := MakeClosure(rt, v, resolver, invoke);
    made := c;
    if c.Err? {
      r := Err(c.error);
    } else {
      r := Ok(ClosureBinding(c.value));
    }
  }

  /** `invokable($object, $invoke)`: the capability check, for any value. */
  function Invokable(env: Env, v: Value, invoke: Option<MethodName>): (b: bool)
    ensures b == Inv.IsInvokable(env, v, invoke)
    ensures b ==> v.Obj? || (v.Str? && v.s in env.classes)
  {
    Inv.IsInvokable(env, v, invoke)
  }

  /**
   * A callable array: `closure` as written refuses it with the TypeError of
   * `returnsClosure`'s parameter type, where the fast path was meant.
   */
  lemma ArrayCallableRefusedAsWritten(env: Env, v: Value, invoke: Option<MethodName>)
    requires env.isCallable(v) && v.Arr?
    ensures DispatchAsWritten(env, v, invoke) == Reject(ArgumentTypeError)
    ensures Dispatch(env, v, invoke) == Direct
  {
  }

  /** The eager path resolves once, at creation, and its result is the method's closure object itself. */
  lemma EagerResultIsMethodClosure(env: Env, v: Value, resolver: Option<Resolver>, invoke: Option<MethodName>,
                                   before: nat, after: nat, r: Result<Closure>)
    requires AcceptsDescriptor(env, v) && ClosureReturning(env, v, invoke)
    requires Produced(env, v, resolver, invoke, before, after, r)
    ensures Inv.Resolve(env, v, resolver, before).Err? ==>
              r == Err(Inv.Resolve(env, v, resolver, before).error) && after == before + 1
    ensures r.Ok? ==>
              Inv.Resolve(env, v, resolver, before).Ok? && after == before + 2 &&
              IsClosureObject(r.value.body.closure) && r.value.binding == Unbound &&
              InvokeMethod(env, Inv.Resolve(env, v, resolver, before).value, Inv.GetInvokeMethod(invoke), [], before + 1)
                == Ok(r.value.body.closure)
  {
  }

  /**
   * Two callable closure objects in one process: the one whose own signature
   * declares `Closure` is unwrapped eagerly, the one declaring no return type
   * takes the fast path.
   */
  lemma ClosureSignatureDecidesRoute(env: Env, a: Instance, b: Instance)
    requires a.cls == ClosureClass && b.cls == ClosureClass && Declares(env, ClosureClass, DefaultInvoke)
    requires env.isCallable(Obj(a)) && env.isCallable(Obj(b))
    requires env.closureReturn(a) == Named(ClosureClass) && env.closureReturn(b) == NoType
    ensures Dispatch(env, Obj(a), None) == Eager(DefaultInvoke)
    ensures Dispatch(env, Obj(b), None) == Direct
  {
  }
}
