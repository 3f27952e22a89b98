/** Calls and returns bracket, on any code whatever: while an activation runs, however deeply it calls
    and whatever tail calls it makes, nothing below its frame changes, and when it returns the callee
    and its arguments have become one value and the caller goes on where it was. */
module Brackets {
  import opened Values
  import opened Syntax
  import opened Bytecode
  import opened Machine

  /** Every saved frame from number d on, and the running one, starts at or above base. */
  ghost predicate Above(s: State, d: nat, base: nat) {
    base <= s.slots && forall i :: d <= i < |s.frames| ==> base <= s.frames[i].slots
  }

  /** The activation that was entered in the state s0, with d frames below it, is still running in r. */
  ghost predicate Inside(s0: State, r: State) {
    && r.status == Running
    && s0.frames <= r.frames && Above(r, |s0.frames|, s0.slots)
    && s0.slots < |r.stack| && s0.slots <= |s0.stack| && r.stack[..s0.slots] == s0.stack[..s0.slots]
    && (r.frames == s0.frames ==> r.slots == s0.slots)
    && (r.frames != s0.frames ==> r.frames[|s0.frames|].slots == s0.slots)
  }

  /** The activation that was entered in s0 has returned v to its caller. */
  ghost predicate Back(s0: State, r: State, v: Value)
    requires s0.frames != []
  {
    var f := s0.frames[|s0.frames| - 1];
    && r.status == Running
    && r.frames == s0.frames[..|s0.frames| - 1] && r.cl == f.cl && r.ip == f.ip && r.slots == f.slots
    && s0.slots <= |s0.stack| && r.stack == s0.stack[..s0.slots] + [v]
  }

  /** The machine has stopped. */
  ghost predicate Stopped(r: State) {
    r.status != Running
  }

  lemma ReturnInside(s0: State, r: State)
    requires s0.frames != [] && Inside(s0, r)
    ensures var r' := Machine.DoReturn(r); Stopped(r') || Inside(s0, r') || exists v :: Back(s0, r', v)
  {
    var r' := Machine.DoReturn(r);
    if !Stopped(r') {
      var frame := r.frames[|r.frames| - 1];
      if r.frames == s0.frames {
        assert Back(s0, r', Peek(r, 0));
      } else {
        assert s0.frames <= r'.frames;
        assert r'.stack[..s0.slots] == r.stack[..s0.slots];
      }
    }
  }

  lemma CallInside(lim: Limits, s0: State, r: State, n: byte)
    requires Inside(s0, r)
    ensures var r' := Machine.DoCall(lim, r, n); Stopped(r') || Inside(s0, r')
    ensures var r' := Machine.DoTailCall(r, n); Stopped(r') || Inside(s0, r')
  {
    hide Peek, TypeOf;
    var t := Machine.DoTailCall(r, n);
    if !Stopped(t) {
      assert t.stack[..s0.slots] == r.stack[..s0.slots];
    }
  }

  /** An instruction that neither calls nor returns touches nothing below its frame. */
  lemma PlainExec(lim: Limits, r: State, i: Instr, base: nat)
    requires r.cl < |r.heap| && r.status == Running && base <= r.slots && base < |r.stack|
    requires !i.ICall? && !i.ITailCall? && !i.IReturn?
    ensures var r' := Exec(lim, r, i);
      Stopped(r') ||
      (r'.frames == r.frames && r'.slots == r.slots && base < |r'.stack| && r'.stack[..base] == r.stack[..base])
  {
    hide BinaryOp, CanCapture, Capture, TypeOf, Peek, IsFalsy;
  }

  lemma ExecInside(lim: Limits, s0: State, r: State, i: Instr)
    requires s0.frames != [] && Inside(s0, r) && r.cl < |r.heap|
    ensures var r' := Exec(lim, r, i); Stopped(r') || Inside(s0, r') || exists v :: Back(s0, r', v)
  {
    hide CheckCall, Machine.DoCall, Machine.DoTailCall, Machine.DoReturn, MakeClosure, Replace, Machine.Push,
      Machine.DoUnary;
    match i
    case ICall(n) => CallInside(lim, s0, r, n);
    case ITailCall(n) => CallInside(lim, s0, r, n);
    case IReturn => ReturnInside(s0, r);
    case _ =>
      hide Exec;
      PlainExec(lim, r, i, s0.slots);
  }

  lemma StepInside(lim: Limits, s0: State, r: State)
    requires s0.frames != [] && Inside(s0, r)
    ensures var r' := Step(lim, r); Stopped(r') || Inside(s0, r') || exists v :: Back(s0, r', v)
  {
    hide Exec, Decode, Encode;
    if r.cl < |r.heap| && Decode(r.heap[r.cl].fn.code, r.ip).Some? {
      var i := Decode(r.heap[r.cl].fn.code, r.ip).value;
      ExecInside(lim, s0, r.(ip := r.ip + |Encode(i)|), i);
    }
  }

  /** After n steps the activation is still running, or the machine has stopped, or the activation has
      returned once, having run until then. */
  ghost predicate Bracketed(lim: Limits, s0: State, n: nat)
    requires s0.frames != []
  {
    || (forall i: nat :: i <= n ==> Inside(s0, Run(lim, s0, i)))
    || (exists j: nat :: j <= n && Stopped(Run(lim, s0, j)) && forall i: nat :: i < j ==> Inside(s0, Run(lim, s0, i)))
    || (exists j: nat, v :: j <= n && Back(s0, Run(lim, s0, j), v)
          && forall i: nat :: i < j ==> Inside(s0, Run(lim, s0, i)))
  }

  lemma {:induction false} ActivationBracketed(lim: Limits, s0: State, n: nat)
    requires s0.frames != [] && Inside(s0, s0)
    ensures Bracketed(lim, s0, n)
    decreases n
  {
    hide Inside, Step, Stopped, Back;
    if n > 0 {
      ActivationBracketed(lim, s0, n - 1);
      if forall i: nat :: i <= n - 1 ==> Inside(s0, Run(lim, s0, i)) {
        var r := Run(lim, s0, n - 1);
        assert Inside(s0, r);
        StepInside(lim, s0, r);
        RunSum(lim, s0, n - 1, 1);
        assert Run(lim, r, 1) == Run(lim, Step(lim, r), 0);
        assert Run(lim, s0, n) == Step(lim, r);
      }
    }
  }

  /** The call bracket. A call with n arguments that succeeds enters an activation whose frame starts at
      the callee's slot; every slot below is unchanged as long as it runs, and if it returns, the
      callstack, the closure and the position of the caller are those at the call and exactly one value
      stands for the callee and its arguments. */
  lemma CallBracket(lim: Limits, s: State, nargs: byte, n: nat)
    requires s.status == Running && s.slots < |s.stack|
    requires Machine.DoCall(lim, s, nargs).status == Running
    ensures var s0 := Machine.DoCall(lim, s, nargs);
      && s0.frames == s.frames + [CallFrame(s.cl, s.ip, s.slots)]
      && s0.stack == s.stack && s0.slots == |s.stack| - 1 - nargs
      && Bracketed(lim, s0, n)
  {
    hide Peek, TypeOf, Bracketed;
    var s0 := Machine.DoCall(lim, s, nargs);
    assert s0.frames == s.frames + [CallFrame(s.cl, s.ip, s.slots)];
    assert s0.stack == s.stack && s0.slots == |s.stack| - 1 - nargs;
    assert Inside(s0, s0);
    hide Machine.DoCall;
    ActivationBracketed(lim, s0, n);
  }
}
