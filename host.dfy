/**
 * The host environment the library runs in, made explicit: PHP values, the
 * class table that reflection reads (`class_exists`, `method_exists`, the
 * declared return type of a method), and the user code the library calls but
 * cannot see (constructors, resolver callbacks, methods, plain callables).
 *
 * User code may keep state of its own. It is modelled as functions that also
 * receive a stamp: the value of the runtime's clock at the moment of the
 * call. Every call into user code takes a fresh stamp, so two calls with the
 * same arguments may behave differently, as stateful PHP code does.
 */
module Host {

  type ClassName = string
  type MethodName = string

  /** `Closure::class`, the name a declared return type is compared with. */
  const ClosureClass: ClassName := "Closure"

  /** The method used when no `invoke` override is given. */
  const DefaultInvoke: MethodName := "__invoke"

  datatype Option<T> = None | Some(value: T)

  /**
   * A method's declared return type as reflection reports it: absent, or a
   * named type. A nullable `?T` is reported with the name of `T`.
   */
  datatype RetType = NoType | Named(name: string)

  /** An object: its class and its identity. */
  datatype Instance = Instance(cls: ClassName, id: nat)

  /** The PHP values the library is handed (floats are not modelled). */
  datatype Value =
    | Obj(inst: Instance)
    | Str(s: string)
    | Arr(items: seq<Value>)
    | Int(i: int)
    | Bool(b: bool)
    | Null
    | Resource(handle: nat)

  /** The scope argument given to `Closure::bindTo`: a class name, an object whose class is used, or none. */
  datatype ScopeArg = NoScope | ScopeName(name: ClassName) | ScopeOf(inst: Instance)

  /** The context a closure runs in: as created, or rebound to a receiver and a scope. */
  datatype Binding = Unbound | BoundTo(receiver: Option<Instance>, scope: ScopeArg)

  datatype Error =
    | NotInvokable(subject: string, invoke: MethodName)  // the TypeError raised by `closure`
    | ArgumentTypeError                                  // a value refused by a declared parameter type
    | ReturnTypeError                                    // a value refused by a declared return type
    | UndefinedMethod(cls: ClassName, invoke: MethodName)
    | ClassNotFound(name: string)
    | NotInstantiable                                    // `new` applied to a value that is not a class name
    | Thrown(exception: nat)                             // an exception raised by user code

  datatype Result<T> = Ok(value: T) | Err(error: Error)

  /** A custom resolution callback: called with the descriptor, it returns a value or throws. */
  type Resolver = (Value, nat) -> Result<Value>

  datatype Env = Env(
    /** Every existing class, with the methods it has and their declared return types. */
    classes: map<ClassName, map<MethodName, RetType>>,
    /**
     * The declared return type of one closure object's own `__invoke`:
     * reflection reports each closure's signature, not one shared by the
     * class `Closure`.
     */
    closureReturn: Instance -> RetType,
    /** PHP's `is_callable`. */
    isCallable: Value -> bool,
    /** Running the constructor of a class with no arguments: `None` when it returns normally. */
    construct: (ClassName, nat) -> Option<Error>,
    /** Running a method of an object on an argument list. */
    runMethod: (Instance, MethodName, seq<Value>, nat) -> Result<Value>,
    /** Calling a callable value (a closure object, a function name, an array callable) in a context. */
    runCallable: (Value, Binding, seq<Value>, nat) -> Result<Value>,
    /**
     * Whether `bindTo` accepts the closure made from this callable value (or
     * this closure object) with the given receiver and scope. PHP refuses,
     * warning and returning null, for a closure made from a method or a named
     * function bound to an unrelated object or moved to another scope.
     */
    canRebind: (Value, Option<Instance>, ScopeArg) -> bool)

  /** `method_exists` on an object or an existing class. */
  predicate Declares(env: Env, cls: ClassName, m: MethodName)
  {
    cls in env.classes && m in env.classes[cls]
  }

  /** A closure object: an instance of the class `Closure`. */
  predicate IsClosureObject(v: Value)
  {
    v.Obj? && v.inst.cls == ClosureClass
  }

  /** `$object->$method(...$args)`: PHP refuses a method the class does not have. */
  function InvokeMethod(env: Env, inst: Instance, m: MethodName, args: seq<Value>, stamp: nat): Result<Value>
  {
    if Declares(env, inst.cls, m) then env.runMethod(inst, m, args, stamp)
    else Err(UndefinedMethod(inst.cls, m))
  }

  /** The running PHP process: the environment and a clock that every call into user code advances. */
  class Runtime {
    const env: Env
    var clock: nat

    constructor (env: Env)
      ensures this.env == env && clock == 0
    {
      this.env := env;
      clock := 0;
    }

    /** Takes the stamp for one call into user code. */
    method Tick() returns (stamp: nat)
      modifies this
      ensures stamp == old(clock) && clock == old(clock) + 1
    {
      stamp := clock;
      clock := clock + 1;
    }
  }
}
