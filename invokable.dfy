/**
 * The capability queries of the library's `Support\Invokable` helper: which
 * method a closure is built from, whether a value names or is an object
 * having that method, whether that method declares a `Closure` return type,
 * and how a class name becomes an instance.
 */
module Invokable {
  import opened Host

  /** The method to call: the override when one is given, `__invoke` otherwise. */
  function GetInvokeMethod(invoke: Option<MethodName>): (m: MethodName)
    ensures invoke.Some? ==> m == invoke.value
    ensures invoke.None? ==> m == DefaultInvoke
  {
    match invoke
    case Some(name) => name
    case None => DefaultInvoke
  }

  /** `is_object($v) || (is_string($v) && class_exists($v))`. */
  predicate IsClassLike(env: Env, v: Value)
  {
    v.Obj? || (v.Str? && v.s in env.classes)
  }

  /** The class an object belongs to, or the class a string names. */
  function ClassOf(env: Env, v: Value): ClassName
    requires IsClassLike(env, v)
  {
    if v.Obj? then v.inst.cls else v.s
  }

  /**
   * An object, or the name of an existing class, whose class has the chosen
   * method. Arrays, null, numbers, booleans, resources and strings naming no
   * class are never invokable.
   */
  function IsInvokable(env: Env, v: Value, invoke: Option<MethodName>): (b: bool)
    ensures !(v.Obj? || v.Str?) ==> !b
    ensures v.Str? && v.s !in env.classes ==> !b
    ensures IsClassLike(env, v) ==> (b <==> Declares(env, ClassOf(env, v), GetInvokeMethod(invoke)))
    ensures b ==> IsClassLike(env, v) && Declares(env, ClassOf(env, v), GetInvokeMethod(invoke))
  {
    var m := GetInvokeMethod(invoke);
    IsClassLike(env, v) && Declares(env, ClassOf(env, v), m)
  }

  /**
   * The declared return type of the chosen method, as reflection reports it.
   * A closure object's `__invoke` is that closure's own signature; every
   * other method's return type comes from its class.
   */
  function DeclaredReturn(env: Env, v: Value, invoke: Option<MethodName>): (t: RetType)
    requires IsInvokable(env, v, invoke)
    ensures IsClosureObject(v) && GetInvokeMethod(invoke) == DefaultInvoke ==> t == env.closureReturn(v.inst)
    ensures !(IsClosureObject(v) && GetInvokeMethod(invoke) == DefaultInvoke) ==>
              t == env.classes[ClassOf(env, v)][GetInvokeMethod(invoke)]
  {
    var m := GetInvokeMethod(invoke);
    if IsClosureObject(v) && m == DefaultInvoke then env.closureReturn(v.inst)
    else env.classes[ClassOf(env, v)][m]
  }

  /**
   * Whether the chosen method declares the return type `Closure`. Never true
   * of a value that is not invokable; a method with no declared return type
   * does not return a closure. The parameter is declared `string|object`.
   */
  function ReturnsClosure(env: Env, v: Value, invoke: Option<MethodName>): (b: bool)
    requires v.Obj? || v.Str?
    ensures b ==> IsInvokable(env, v, invoke)
    ensures IsInvokable(env, v, invoke) ==> (b <==> DeclaredReturn(env, v, invoke) == Named(ClosureClass))
    ensures IsInvokable(env, v, invoke) && DeclaredReturn(env, v, invoke).NoType? ==> !b
  {
    if !IsInvokable(env, v, invoke) then false
    else
      match DeclaredReturn(env, v, invoke)
      case NoType => false
      case Named(name) => name == ClosureClass
  }

  /**
   * The object to call the method on: an object is its own target; anything
   * else is handed to the resolver callback when one is given (which must
   * return an object, the declared return type), and otherwise instantiated
   * with `new` and no arguments. Whatever the callback or the constructor
   * throws is passed on unchanged; `new` on a string naming no class, or on
   * a value that is not a string, fails.
   */
  function Resolve(env: Env, v: Value, resolver: Option<Resolver>, stamp: nat): (r: Result<Instance>)
    ensures v.Obj? ==> r == Ok(v.inst)
    ensures !v.Obj? && resolver.Some? && resolver.value(v, stamp).Err? ==>
              r == Err(resolver.value(v, stamp).error)
    ensures !v.Obj? && resolver.Some? && r.Ok? ==> resolver.value(v, stamp) == Ok(Obj(r.value))
    ensures !v.Obj? && resolver.Some? && resolver.value(v, stamp).Ok? && !resolver.value(v, stamp).value.Obj? ==>
              r == Err(ReturnTypeError)
    ensures !v.Obj? && resolver.None? && r.Ok? ==>
              v.Str? && r.value == Instance(v.s, stamp) && env.construct(v.s, stamp).None?
    ensures !v.Obj? && resolver.Some? && resolver.value(v, stamp).Ok? && resolver.value(v, stamp).value.Obj? ==>
              r == Ok(resolver.value(v, stamp).value.inst)
    ensures !v.Obj? && resolver.None? && v.Str? && v.s in env.classes && env.construct(v.s, stamp).None? ==>
              r == Ok(Instance(v.s, stamp))
    ensures !v.Obj? && resolver.None? && v.Str? && v.s in env.classes && env.construct(v.s, stamp).Some? ==>
              r == Err(env.construct(v.s, stamp).value)
    ensures resolver.None? && v.Str? && v.s !in env.classes ==> r == Err(ClassNotFound(v.s))
    ensures resolver.None? && !v.Obj? && !v.Str? ==> r == Err(NotInstantiable)
  {
    if v.Obj? then Ok(v.inst)
    else if resolver.Some? then
      match resolver.value(v, stamp)
      case Err(e) => Err(e)
      case Ok(o) => if o.Obj? then Ok(o.inst) else Err(ReturnTypeError)
    else if v.Str? then
      if v.s !in env.classes then Err(ClassNotFound(v.s))
      else match env.construct(v.s, stamp)
        case Some(e) => Err(e)
        case None => Ok(Instance(v.s, stamp))
    else Err(NotInstantiable)
  }
}
