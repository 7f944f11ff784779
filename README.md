# henzeb/closure — a verified model of closure normalisation

The PHP library `henzeb/closure` turns three kinds of "thing to call" into one `Closure`:

- a plain callable;
- an object that has an invocation method (`__invoke`, or a method named by an `invoke` override);
- the name of a class that has such a method.

This project models that decision procedure in Dafny and proves what it promises.

- `Invokable` holds the capability queries of `Support\Invokable`. They are `getInvokeMethod`, `isInvokable`, `returnsClosure` and `resolve`.
- `InvokableReflection` is the unused duplicate `Support\InvokableReflection`. Its contracts prove that it agrees with `Invokable` on every input.
- `Memo` models the lazy closure's memo cell, the `static $resolved` that `??=` fills. `CallStep` is one call and `Run` is a sequence of calls. Lemmas prove that the cell is filled at most once, that later calls reuse that instance and pass it their full argument list, and that a failed resolution is retried. `LazyClosure` is the closure as an object whose `Call` updates the cell in place.
- `Closures` covers `closure`, `wrap`, `bind`, `call`, `binding` and `invokable`. `Dispatch` is the four-way case split `closure` makes. `Produced` states what each case yields. The methods carry it out on a `Runtime`.
- `Scenarios` holds small concrete scenarios. Two of them come from the library's tests; the other three exhibit behaviour of `src/Closure.php` directly.

The host is explicit (`Host`):

- The class table is a map from class names to their methods and declared return types. It stands for `class_exists`, `method_exists` and `getReturnType()?->getName()`.
- Reflection on a closure object's `__invoke` reports that closure's own signature. So the environment also gives each closure object's declared return type, separately from the class table.
- `is_callable` is a predicate supplied with the environment.
- Constructors, resolver callbacks, methods and plain callables are user code. Each is a function that also receives a stamp from the runtime's clock, so user code may behave differently from one call to the next.
- Every call into user code advances the clock. A default-constructed instance takes the stamp as its identity.

Behaviour the code has that is worth knowing:

- `$resolved ??= Invokable::resolve(...)` assigns nothing when resolution throws. A lazy closure whose constructor fails therefore tries again on its next call. `Memo.FailingResolutionIsRetried` proves this.
- `wrap` can still fail. It never takes `closure`'s TypeError branch. But on the eager path, resolving the target or calling its method at creation can throw.

## Model

| member | source | states |
|---|---|---|
| `Invokable.GetInvokeMethod` | src/Support/Invokable.php:14-17 | the override when given, else `__invoke` |
| `Invokable.IsInvokable` | src/Support/Invokable.php:19-25 | false for anything that is not an object or a string, and for a string naming no class. Otherwise true exactly when that class has the chosen method |
| `Invokable.ReturnsClosure` | src/Support/Invokable.php:30-44 | implies `IsInvokable`. For an invokable value it is true exactly when the declared return type's name is `Closure`, and false when no return type is declared. For a closure object's `__invoke` the return type is that closure's own |
| `Invokable.Resolve` | src/Support/Invokable.php:46-53 | returns an object itself. With a resolver it returns exactly the object the resolver returned, `ReturnTypeError` for a non-object, or the resolver's exception. With no resolver, a string naming a class whose constructor returns normally gives a new instance of that class, and the constructor's exception otherwise. A string naming no class gives `ClassNotFound`, and any other value gives `NotInstantiable` |
| `InvokableReflection.GetInvokeMethod` | src/Support/InvokableReflection.php:14-17 | defaults to `__invoke` and agrees with `Invokable.GetInvokeMethod` |
| `InvokableReflection.Invokable` | src/Support/InvokableReflection.php:19-25 | false for non-objects, non-strings and unknown class names. Equals `Invokable.IsInvokable` on every input |
| `InvokableReflection.ReturnTypeIsClosure` | src/Support/InvokableReflection.php:30-44 | implies `Invokable`. Equals `Invokable.ReturnsClosure` on every input |
| `Memo.CallStep` | src/Closure.php:39-43 | a filled cell never changes. A filled cell means the call passed its whole argument list to the chosen method of that instance. An empty cell is filled only from a successful resolution. A failed resolution leaves the cell empty and its error is the call's outcome |
| `Memo.Run` | src/Closure.php:38-44 | one step per call, each ending later than the start of the run |
| `Memo.FilledCellIsKept` | src/Closure.php:40-42 | from a filled cell, every later call keeps the instance and forwards to it |
| `Memo.ResolvedInstanceIsReused` | src/Closure.php:40-42 | once call i holds an instance, every later call j holds the same one and forwards its own arguments to it |
| `Memo.FilledAtMostOnce` | src/Closure.php:40-41 | over any sequence of calls the cell is filled at most once, and never when it starts filled |
| `Memo.FailingResolutionIsRetried` | src/Closure.php:40-41 | if resolution always throws, every call throws that resolution's error and the cell stays empty |
| `Memo.LazyClosure.constructor` | src/Closure.php:38-44 | creation captures the descriptor, resolver and method, and resolves nothing |
| `Memo.LazyClosure.Call` | src/Closure.php:39-43 | updates the cell and returns exactly what `CallStep` says. It counts one resolution attempt only when the cell was empty |
| `Closures.Dispatch` | src/Closure.php:16-36 | takes the fast path exactly when the value is callable and the chosen method does not return `Closure`, whatever the override. Fails exactly when the value is neither callable nor invokable, naming the value and the method. Unwraps eagerly exactly on a `Closure` return type. Otherwise builds a lazy closure on the chosen method |
| `Closures.DispatchAsWritten` | src/Closure.php:16-19 | a callable array is refused with a TypeError. Agrees with `Dispatch` on objects and strings |
| `Closures.ArrayCallableRefusedAsWritten` | src/Closure.php:16-17 | for every callable array, the as-written dispatch fails where `Dispatch` takes the fast path |
| `Closures.AsClosure` | src/Closure.php:34-35 | the eager result is the method's closure object itself, with no wrapper. A failure propagates. A non-closure return is a `ReturnTypeError` |
| `Closures.EagerResultIsMethodClosure` | src/Closure.php:34-35 | on the eager path the target is resolved once at creation. The result is what the chosen method returned when called with no arguments |
| `Closures.ClosureSignatureDecidesRoute` | src/Support/Invokable.php:40-43 | two callable closure objects in one process: the one whose own `__invoke` declares `Closure` is unwrapped eagerly, and the one with no declared return type takes the fast path |
| `Closures.MakeClosure` | src/Closure.php:11-45 | produces what `Produced` describes for the route `Dispatch` picks. A lazy closure gets a fresh, empty cell |
| `Closures.Apply` | src/Closure.php:38-44 | calling a produced closure. A constant returns its value, a callable or unwrapped closure is called in its binding, and a lazy closure takes one `CallStep` |
| `Closures.Wrap` | src/Closure.php:47-59 | a value neither callable nor invokable becomes a constant closure, with no user code run. Otherwise the result is exactly `closure`'s, and never its TypeError branch |
| `Closures.Rebind` | src/Closure.php:72-75 | keeps the body and sets the receiver to `newThis`. The scope is `newScope` when given, else the receiver, else none |
| `Closures.Bind` | src/Closure.php:61-76 | `closure`'s failure unchanged. Otherwise `closure`'s result rebound when `bindTo` accepts it, and a TypeError from the `Closure` return type when `bindTo` refuses and returns null |
| `Closures.Call` | src/Closure.php:78-90 | corrected `call`: the closure is built with the given resolver and method and called once with no arguments. It is rebound first when a receiver or scope is given, and a refused rebinding is the TypeError `bind` throws, with no call made |
| `Closures.CallAsWritten` | src/Closure.php:85-89 | with neither receiver nor scope it builds the closure without resolver or override. Otherwise it calls the bound closure, or fails with `bind`'s TypeError when the rebinding is refused |
| `Closures.Binding` | src/Closure.php:96-104 | wraps `closure`'s result and fails exactly as `closure` does, with the TypeError when the value is neither callable nor invokable |
| `Closures.Invokable` | src/Closure.php:106-109 | is `Invokable.IsInvokable`, and true only for objects and existing class names |
| `Scenarios.MemoisedInstanceIsShared` | tests/Unit/ClosureTest.php:59-72 | two calls of one lazy closure reach the same instance |
| `Scenarios.ConstructionFailureIsDeferred` | tests/Unit/ClosureTest.php:149-171 | `closure` succeeds on a class whose constructor throws, and each call throws that exception |
| `Scenarios.CallIgnoresOverride` | src/Closure.php:85-87 | `call` with only an override fails as written and runs the override once corrected |
| `Scenarios.RefusedRebindingThrows` | src/Closure.php:72-75 | binding the fast-path closure of an invokable object to an unrelated object is refused, so both `bind` and `call` fail with the TypeError |
| `Scenarios.WrappedValueIsReturned` | src/Closure.php:52-56 | a wrapped plain value is returned whatever the arguments |

## Left out

- `ClosureBinding`, the introspector `binding` returns (`getScope`, `getThis`, `get`, `__debugInfo`), only reads PHP reflection. `Closures.ClosureBinding` records which closure it inspects and nothing more.
- PHP's runtime is not implemented: `is_callable`, `Closure::fromCallable`, `Closure::bindTo` and calling a closure. `is_callable` and calling are environment functions. `FromCallable` calls its value as given, including when that value is already a closure object, which PHP returns unchanged.
- What rebinding does to member visibility is runtime behaviour. Only the receiver and scope passed to `bindTo` are modelled. Whether `bindTo` refuses is decided by the environment (`canRebind`), not derived from PHP's rules. The model consults it for closures made by `Closure::fromCallable` and for closure objects a method returned. It treats the library's own anonymous functions as always rebindable, including to the scope of an internal class, which PHP refuses.
- `bindTo` copies static variables into the new closure. In the model a rebound lazy closure shares its cell with the original. `bind` builds a fresh closure on every call, so the difference cannot be observed through the library.
- A closure produced by the library and passed back in as a descriptor is an opaque host closure object. Its memo cell is modelled on `LazyClosure` directly.
- The exact text of the TypeError is not modelled. `NotInvokable` carries the class or string and the method name.
- PHP compares class and method names case-insensitively. The model compares them exactly.
- `method_exists` also sees private and protected methods, and `__call` can answer for missing ones. The model calls whatever the class table lists.
- `Invokable.Resolve`: a default-constructed instance takes the clock's stamp as its identity. It is distinct from other constructions, but the model does not promise that it is distinct from an object the caller already holds, as `new` does.
- Every closure object has an `__invoke` in PHP. In the model that holds when the class table lists `__invoke` for `Closure`; it is not forced.
- Union and intersection return types are not modelled, nor what `getName()` does on them. A declared return type is absent or a single name.
- `Closures.Dispatch` and the methods that use it require the value to satisfy `closure`'s parameter type `callable|object|string`. In coercive typing mode PHP would first turn an int or a bool into a string; that conversion is not modelled.
- Float values are not modelled, and concurrency is out of scope because PHP runs this code single-threaded.

## Findings

| source | as written | input that shows it | evidently intended | confidence | as-written member | corrected member |
|---|---|---|---|---|---|---|
| src/Closure.php:16-17 | a callable array passes `is_callable` and is then handed to `returnsClosure`, whose parameter is declared `string\|object`, which raises a TypeError | `closure([$object, 'method'])` | the fast path, `Closure::fromCallable` | high; not executed | `Closures.DispatchAsWritten` | `Closures.Dispatch` |
| src/Closure.php:85-87 | with neither receiver nor scope, `call` evaluates `closure($callable)()` and drops `$resolve` and `$invoke` | `call(Greeter::class, invoke: 'test')` where `Greeter` has `test` but no `__invoke` | `closure($callable, $resolve, $invoke)()` | medium; not executed | `Closures.CallAsWritten` | `Closures.Call` |

The rest of the model (`MakeClosure`, `Wrap`, `Bind`, `Binding`, `Call`, and `CallAsWritten` through `MakeClosure`) uses the corrected `Dispatch`. So `CallAsWritten` is as written only in how it drops the resolver and the override: on a callable array it runs the callable, where the code as written throws the TypeError. The two dispatches differ only on callable values that are neither objects nor strings. `Scenarios.CallIgnoresOverride` runs the second finding's input through both `call`s.
