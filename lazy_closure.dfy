/**
 * The closure `closure` builds when the chosen method does not declare a
 * `Closure` return type: an anonymous function that captures the
 * descriptor, the resolver and the method name, and keeps the resolved
 * target in a `static $resolved` variable filled with `??=` on first call.
 *
 * `CallStep` says what one call does to that memo cell and what it returns;
 * `Run` chains calls; the lemmas state the one-shot behaviour of the cell.
 * `LazyClosure` is the closure itself, an object whose `Call` updates the
 * cell in place as `CallStep` says.
 */
module Memo {
  import opened Host
  import Inv = Invokable

  /** What the anonymous function captures with `use`. */
  datatype Captured = Captured(callable: Value, resolver: Option<Resolver>, invoke: MethodName)

  /** The cell after one call, the call's outcome, and the clock after it. */
  datatype Step = Step(memo: Option<Instance>, result: Result<Value>, clock: nat)

  /**
   * One call with argument list `args`, starting from memo `memo` at clock
   * `clock`. An empty cell is filled by resolving the captured descriptor; a
   * resolution that throws leaves it empty (the assignment of `??=` does not
   * happen) and the exception is the call's outcome. A filled cell is never
   * changed, and whenever the cell is filled the call forwards its whole
   * argument list to the chosen method of the cell's instance, as the last
   * call into user code.
   */
  function CallStep(env: Env, cap: Captured, memo: Option<Instance>, args: seq<Value>, clock: nat): (s: Step)
    ensures s.clock > clock
    ensures memo.Some? ==> s.memo == memo
    ensures s.memo.Some? ==> s.result == InvokeMethod(env, s.memo.value, cap.invoke, args, s.clock - 1)
    ensures memo.None? && s.memo.Some? ==> Inv.Resolve(env, cap.callable, cap.resolver, clock) == Ok(s.memo.value)
    ensures s.memo.None? ==>
              memo.None? && Inv.Resolve(env, cap.callable, cap.resolver, clock).Err? &&
              s.result == Err(Inv.Resolve(env, cap.callable, cap.resolver, clock).error)
  {
    match memo
    case Some(inst) =>
      Step(memo, InvokeMethod(env, inst, cap.invoke, args, clock), clock + 1)
    case None =>
      match Inv.Resolve(env, cap.callable, cap.resolver, clock)
      case Err(e) => Step(None, Err(e), clock + 1)
      case Ok(inst) => Step(Some(inst), InvokeMethod(env, inst, cap.invoke, args, clock + 1), clock + 2)
  }

  /** The steps of a sequence of calls to one closure, each starting where the previous one ended. */
  function Run(env: Env, cap: Captured, memo: Option<Instance>, calls: seq<seq<Value>>, clock: nat): (trace: seq<Step>)
    ensures |trace| == |calls|
    ensures forall k :: 0 <= k < |trace| ==> trace[k].clock > clock
    decreases |calls|
  {
    if calls == [] then []
    else
      var s := CallStep(env, cap, memo, calls[0], clock);
      [s] + Run(env, cap, s.memo, calls[1..], s.clock)
  }

  /** How many calls of a trace filled the cell, starting from memo `memo`. */
  function Fills(memo: Option<Instance>, trace: seq<Step>): nat
    decreases |trace|
  {
    if trace == [] then 0
    else (if memo.None? && trace[0].memo.Some? then 1 else 0) + Fills(trace[0].memo, trace[1..])
  }

  /** Once the cell holds an instance, every later call keeps it and forwards to that same instance. */
  lemma {:induction false} FilledCellIsKept(env: Env, cap: Captured, inst: Instance, calls: seq<seq<Value>>, clock: nat, j: nat)
    requires j < |calls|
    ensures Run(env, cap, Some(inst), calls, clock)[j].memo == Some(inst)
    ensures Run(env, cap, Some(inst), calls, clock)[j].result ==
              InvokeMethod(env, inst, cap.invoke, calls[j], Run(env, cap, Some(inst), calls, clock)[j].clock - 1)
    decreases j
  {
    var s := CallStep(env, cap, Some(inst), calls[0], clock);
    var trace := Run(env, cap, Some(inst), calls, clock);
    assert trace == [s] + Run(env, cap, s.memo, calls[1..], s.clock);
    if j > 0 {
      FilledCellIsKept(env, cap, inst, calls[1..], s.clock, j - 1);
    }
  }

  /**
   * Whatever the starting memo, once call `i` leaves an instance in the cell,
   * call `j >= i` still holds that instance and forwards its own argument
   * list to the chosen method of it: resolution is not repeated.
   */
  lemma {:induction false} ResolvedInstanceIsReused(env: Env, cap: Captured, memo: Option<Instance>, calls: seq<seq<Value>>, clock: nat, i: nat, j: nat)
    requires i <= j < |calls|
    requires Run(env, cap, memo, calls, clock)[i].memo.Some?
    ensures Run(env, cap, memo, calls, clock)[j].memo == Run(env, cap, memo, calls, clock)[i].memo
    ensures Run(env, cap, memo, calls, clock)[j].result ==
              InvokeMethod(env, Run(env, cap, memo, calls, clock)[i].memo.value, cap.invoke, calls[j],
                           Run(env, cap, memo, calls, clock)[j].clock - 1)
    decreases i
  {
    var s := CallStep(env, cap, memo, calls[0], clock);
    var rest := Run(env, cap, s.memo, calls[1..], s.clock);
    assert Run(env, cap, memo, calls, clock) == [s] + rest;
    if i > 0 {
      ResolvedInstanceIsReused(env, cap, s.memo, calls[1..], s.clock, i - 1, j - 1);
    } else if j > 0 {
      FilledCellIsKept(env, cap, s.memo.value, calls[1..], s.clock, j - 1);
    }
  }

  /** Over any sequence of calls the cell is filled at most once, and never when it starts filled. */
  lemma {:induction false} FilledAtMostOnce(env: Env, cap: Captured, memo: Option<Instance>, calls: seq<seq<Value>>, clock: nat)
    ensures Fills(memo, Run(env, cap, memo, calls, clock)) <= (if memo.None? then 1 else 0)
    decreases |calls|
  {
    if calls != [] {
      var s := CallStep(env, cap, memo, calls[0], clock);
      var rest := Run(env, cap, s.memo, calls[1..], s.clock);
      var trace := Run(env, cap, memo, calls, clock);
      assert trace == [s] + rest;
      assert trace[0] == s && trace[1..] == rest;
      FilledAtMostOnce(env, cap, s.memo, calls[1..], s.clock);
    }
  }

  /**
   * When every resolution attempt throws (a constructor that always fails),
   * every call throws what that attempt threw and the cell stays empty: a
   * failed resolution is retried on the next call, never remembered.
   */
  lemma {:induction false} FailingResolutionIsRetried(env: Env, cap: Captured, calls: seq<seq<Value>>, clock: nat, k: nat)
    requires forall t: nat :: Inv.Resolve(env, cap.callable, cap.resolver, t).Err?
    requires k < |calls|
    ensures Run(env, cap, None, calls, clock)[k].memo.None?
    ensures Run(env, cap, None, calls, clock)[k].result ==
              Err(Inv.Resolve(env, cap.callable, cap.resolver, Run(env, cap, None, calls, clock)[k].clock - 1).error)
    decreases k
  {
    var s := CallStep(env, cap, None, calls[0], clock);
    var rest := Run(env, cap, s.memo, calls[1..], s.clock);
    assert Run(env, cap, None, calls, clock) == [s] + rest;
    assert Inv.Resolve(env, cap.callable, cap.resolver, clock).Err?;
    if k > 0 {
      FailingResolutionIsRetried(env, cap, calls[1..], s.clock, k - 1);
    }
  }

  /** The lazy closure: its captured variables and its `static $resolved` cell. */
  class LazyClosure {
    const captured: Captured
    var resolved: Option<Instance>
    /** How many times resolution has been attempted. */
    var attempts: nat

    /** Creating the closure resolves nothing: a failing constructor is not run yet. */
    constructor (captured: Captured)
      ensures this.captured == captured && resolved == None && attempts == 0
    {
      this.captured := captured;
      resolved := None;
      attempts := 0;
    }

    /** Calls the closure: fills the cell when it is empty, then forwards the arguments. */
    method Call(rt: Runtime, args: seq<Value>) returns (r: Result<Value>)
      modifies this, rt
      ensures var s := CallStep(rt.env, captured, old(resolved), args, old(rt.clock));
              resolved == s.memo && r == s.result && rt.clock == s.clock
      ensures attempts == old(attempts) + (if old(resolved).None? then 1 else 0)
    {
      if resolved.None? {
        var stamp := rt.Tick();
        attempts := attempts + 1;
        var target := Inv.Resolve(rt.env, captured.callable, captured.resolver, stamp);
        if target.Err? {
          return Err(target.error);
        }
        resolved := Some(target.value);
      }
      var stamp := rt.Tick();
      r := InvokeMethod(rt.env, resolved.value, captured.invoke, args, stamp);
    }
  }
}
