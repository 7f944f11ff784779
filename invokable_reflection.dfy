/**
 * `Support\InvokableReflection`: a second copy of the capability queries,
 * under other names, that nothing in the library calls. Its functions are
 * written out from that file; their contracts state that each one agrees
 * with its counterpart in `Invokable` on every input.
 */
module InvokableReflection {
  import opened Host
  import Inv = Invokable

  function GetInvokeMethod(invoke: Option<MethodName>): (m: MethodName)
    ensures invoke.None? ==> m == DefaultInvoke
    ensures m == Inv.GetInvokeMethod(invoke)
  {
    if invoke.Some? then invoke.value else DefaultInvoke
  }

  /** False for values that are neither objects nor names of existing classes; otherwise whether the method exists. */
  function Invokable(env: Env, v: Value, invoke: Option<MethodName>): (b: bool)
    ensures !(v.Obj? || v.Str?) ==> !b
    ensures v.Str? && v.s !in env.classes ==> !b
    ensures b == Inv.IsInvokable(env, v, invoke)
  {
    var m := GetInvokeMethod(invoke);
    (v.Obj? || (v.Str? && v.s in env.classes))
      && Declares(env, if v.Obj? then v.inst.cls else v.s, m)
  }

  /** Whether the chosen method declares the return type `Closure`; false when `Invokable` is. */
  function ReturnTypeIsClosure(env: Env, v: Value, invoke: Option<MethodName>): (b: bool)
    requires v.Obj? || v.Str?
    ensures b ==> Invokable(env, v, invoke)
    ensures b == Inv.ReturnsClosure(env, v, invoke)
  {
    if !Invokable(env, v, invoke) then false
    else
      var m := GetInvokeMethod(invoke);
      var ret := if v.Obj? && v.inst.cls == ClosureClass && m == DefaultInvoke then env.closureReturn(v.inst)
                 else env.classes[if v.Obj? then v.inst.cls else v.s][m];
      ret.Named? && ret.name == ClosureClass
  }
}
