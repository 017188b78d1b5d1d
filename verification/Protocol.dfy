/** The call/return protocol at any nesting depth, for the virtual machine and for the registers of
the computer that runs its translation. */
module Protocol {
  import opened Asm
  import opened Layout
  import opened Linking
  import opened Options
  import opened Translator
  import opened Words
  import Calls
  import Compiler
  import Simulation
  import Vm

  function Count(fs: Vm.Frames): nat {
    match fs
    case Bottom => 0
    case Frames(outer, _) => Count(outer) + 1
  }

  /** base is what is left of fs after some returns. */
  predicate Under(fs: Vm.Frames, base: Vm.Frames) {
    fs == base || (fs.Frames? && Under(fs.outer, base))
  }

  lemma {:induction false} UnderCount(fs: Vm.Frames, base: Vm.Frames)
    requires Under(fs, base)
    ensures Count(fs) >= Count(base)
    ensures Count(fs) == Count(base) ==> fs == base
  {
    if fs != base {
      UnderCount(fs.outer, base);
    }
  }

  /** The machine makes k steps and has at least d suspended activations all along. */
  ghost predicate StaysAbove(p: Vm.Program, v: Vm.State, k: nat, d: nat)
    requires v.Valid()
    decreases k
  {
    && Count(v.callers) >= d
    && (k > 0 ==>
          && Vm.Step(p, v).Some?
          && Vm.Step(p, v).value.Valid()
          && StaysAbove(p, Vm.Step(p, v).value, k - 1, d))
  }

  /** What one command can do to the suspended activations. */
  lemma StepCallers(p: Vm.Program, v: Vm.State)
    requires v.Valid() && Vm.Step(p, v).Some?
    ensures var v' := Vm.Step(p, v).value;
            || v'.callers == v.callers
            || (v'.callers.Frames? && v'.callers.outer == v.callers)
            || (v.callers.Frames? && v.callers.outer == v'.callers)
  {
    hide Vm.BinaryOp, Vm.UnaryOp, Vm.HasRoom, Vm.LabelTarget, Vm.FunctionEntry;
  }

  /** Activations below the lowest point of a run are untouched by it. */
  lemma {:induction false} CallersKept(p: Vm.Program, v: Vm.State, k: nat, base: Vm.Frames)
    requires v.Valid() && StaysAbove(p, v, k, Count(base)) && Under(v.callers, base)
    ensures Vm.Run(p, v, k).Some? && Under(Vm.Run(p, v, k).value.callers, base)
    decreases k
  {
    if k > 0 {
      var v' := Vm.Step(p, v).value;
      StepCallers(p, v);
      hide Vm.Step;
      UnderCount(v.callers, base);
      assert Count(v'.callers) >= Count(base);
      UnderOne(v.callers, v'.callers, base);
      CallersKept(p, v', k - 1, base);
    }
  }

  /** The commands from a call to just before the matching return. */
  ghost predicate CallBody(p: Vm.Program, v: Vm.State, k: nat)
    requires v.Valid()
  {
    && v.pc < |p.commands| && p.commands[v.pc].Call?
    && Vm.Step(p, v).Some?
    && var v1 := Vm.Step(p, v).value;
       && v1.Valid()
       && StaysAbove(p, v1, k, Count(v1.callers))
       && Vm.Run(p, v1, k).Some?
       && var v2 := Vm.Run(p, v1, k).value;
          && Count(v2.callers) == Count(v1.callers)
          && v2.pc < |p.commands| && p.commands[v2.pc].Return?
          && Vm.Step(p, v2).Some?
  }

  /** The state after the matching return, k + 2 commands after the call. */
  ghost function AfterReturn(p: Vm.Program, v: Vm.State, k: nat): Vm.State
    requires v.Valid() && CallBody(p, v, k)
  {
    Vm.Step(p, Vm.Run(p, Vm.Step(p, v).value, k).value).value
  }

  /** What the callee leaves on top of its stack. */
  ghost function ReturnValue(p: Vm.Program, v: Vm.State, k: nat): Word
    requires v.Valid() && CallBody(p, v, k)
  {
    var stack := Vm.Run(p, Vm.Step(p, v).value, k).value.top.stack;
    stack[|stack| - 1]
  }

  /** A call and its matching return, whatever happens in between, replace the arguments by one result
  and continue behind the call: the caller's arguments, locals, pointers and the rest of its stack
  are what they were. */
  lemma CallReturns(p: Vm.Program, v: Vm.State, k: nat)
    requires v.Valid() && CallBody(p, v, k)
    ensures Vm.Run(p, v, k + 2) == Some(AfterReturn(p, v, k))
    ensures var v', nargs := AfterReturn(p, v, k), p.commands[v.pc].nargs;
            && v'.pc == v.pc + 1
            && v'.callers == v.callers
            && nargs <= |v.top.stack|
            && v'.top == v.top.(stack := v.top.stack[..|v.top.stack| - nargs] + [ReturnValue(p, v, k)])
  {
    var v1 := Vm.Step(p, v).value;
    var v2 := Vm.Run(p, v1, k).value;
    CallersKept(p, v1, k, v1.callers);
    UnderCount(v2.callers, v1.callers);
    StepByStep(p, v, v1, k, v2, AfterReturn(p, v, k));
    CalleeReturns(p, v1, k);
    var nargs := p.commands[v.pc].nargs;
    var caller := v.top.(stack := v.top.stack[..|v.top.stack| - nargs]);
    assert v1.callers == Vm.Frames(v.callers, caller) && v1.top.ret == v.pc + 1;
    assert AfterReturn(p, v, k).top == caller.(stack := caller.stack + [ReturnValue(p, v, k)]);
  }

  lemma StepByStep(p: Vm.Program, v: Vm.State, v1: Vm.State, k: nat, v2: Vm.State, v3: Vm.State)
    requires v.Valid() && Vm.Step(p, v) == Some(v1)
    requires v1.Valid() && Vm.Run(p, v1, k) == Some(v2) && Vm.Step(p, v2) == Some(v3)
    ensures v3.Valid() && Vm.Run(p, v, k + 2) == Some(v3)
  {
    hide Vm.Step;
    RunConcat(p, v1, k, 1);
    Vm.StepValid(p, v2);
    assert Vm.Run(p, v2, 1) == Vm.Run(p, v3, 0);
    assert Vm.Run(p, v, k + 2) == Vm.Run(p, v1, k + 1);
  }

  lemma {:induction false} RunConcat(p: Vm.Program, v: Vm.State, m: nat, n: nat)
    requires v.Valid() && Vm.Run(p, v, m).Some?
    ensures Vm.Run(p, v, m + n) == Vm.Run(p, Vm.Run(p, v, m).value, n)
    decreases m
  {
    hide Vm.Step;
    if m > 0 {
      Vm.StepValid(p, v);
      RunConcat(p, Vm.Step(p, v).value, m - 1, n);
    }
  }

  /** The callee keeps its return point: only its own activation changes while it is on top. */
  lemma {:induction false} CalleeReturns(p: Vm.Program, v: Vm.State, k: nat)
    requires v.Valid() && StaysAbove(p, v, k, Count(v.callers))
    requires Vm.Run(p, v, k).Some? && Count(Vm.Run(p, v, k).value.callers) == Count(v.callers)
    ensures Vm.Run(p, v, k).value.top.ret == v.top.ret
  {
    RetKept(p, v, k, v.callers, v.top.ret);
  }

  /** The return point of the activation just above base. */
  function RetAbove(fs: Vm.Frames, top: Vm.Frame, base: Vm.Frames): nat {
    if fs == base then top.ret
    else if fs.Bottom? then 0
    else RetAbove(fs.outer, fs.inner, base)
  }

  lemma StepRet(p: Vm.Program, v: Vm.State)
    requires v.Valid() && Vm.Step(p, v).Some?
    ensures var v' := Vm.Step(p, v).value;
            || (v'.callers == v.callers && v'.top.ret == v.top.ret)
            || (v'.callers.Frames? && v'.callers.outer == v.callers && v'.callers.inner.ret == v.top.ret)
            || (v.callers.Frames? && v.callers.outer == v'.callers && v'.top.ret == v.callers.inner.ret)
  {
    hide Vm.BinaryOp, Vm.UnaryOp, Vm.HasRoom, Vm.LabelTarget, Vm.FunctionEntry;
  }

  lemma {:induction false} RetKept(p: Vm.Program, v: Vm.State, k: nat, base: Vm.Frames, ret: nat)
    requires v.Valid() && StaysAbove(p, v, k, Count(base)) && Under(v.callers, base)
    requires RetAbove(v.callers, v.top, base) == ret
    ensures Vm.Run(p, v, k).Some?
    ensures var r := Vm.Run(p, v, k).value; RetAbove(r.callers, r.top, base) == ret
    ensures var r := Vm.Run(p, v, k).value; Count(r.callers) == Count(base) ==> r.top.ret == ret
    decreases k
  {
    CallersKept(p, v, k, base);
    UnderCount(Vm.Run(p, v, k).value.callers, base);
    if k > 0 {
      var v' := Vm.Step(p, v).value;
      StepRet(p, v);
      hide Vm.Step;
      UnderCount(v.callers, base);
      assert Count(v'.callers) >= Count(base);
      UnderOne(v.callers, v'.callers, base);
      RetKept(p, v', k - 1, base, ret);
    }
  }

  /** One frame more or less stays above base when it is no fewer. */
  lemma UnderOne(fs: Vm.Frames, fs': Vm.Frames, base: Vm.Frames)
    requires Under(fs, base) && Count(fs') >= Count(base)
    requires fs' == fs || (fs'.Frames? && fs'.outer == fs) || (fs.Frames? && fs.outer == fs')
    ensures Under(fs', base)
    ensures fs'.Frames? && fs'.outer == fs ==> fs' != base
    ensures fs.Frames? && fs.outer == fs' ==> fs != base
  {
    UnderCount(fs, base);
    assert fs.Frames? && fs.outer == fs' ==> Count(fs) == Count(fs') + 1;
  }

  /** Registers and memory around a call: LCL, ARG, THIS and THAT are the caller's, SP has moved from
  behind the arguments to behind the one result, and the stack below the arguments is unchanged. */
  ghost predicate Restored(ram: Ram, nargs: Word, w: Word, ram': Ram) {
    var sp: int := ram[0] - nargs as int + 1;
    && 1 <= sp <= 0x8000
    && ram'[0] == sp
    && ram'[1] == ram[1] && ram'[2] == ram[2] && ram'[3] == ram[3] && ram'[4] == ram[4]
    && ram'[sp - 1] == w
    && forall a :: Vm.STACK_BASE <= a < sp - 1 ==> ram'[a] == ram[a]
  }

  lemma RegistersRestored(p: Vm.Program, prog: seq<Instruction>, env: Env, boot: Boot, ram0: Ram, v: Vm.State, s: Cpu,
        k: nat)
      returns (n: nat)
    requires Simulation.Ready(p, prog, env, boot, ram0, v, s) && CallBody(p, v, k)
    ensures var r := Run(prog, env, s, n);
            && r.Some?
            && r.value.pc == CodeAddress(p, v.pc + 1)
            && Restored(s.ram, p.commands[v.pc].nargs, ReturnValue(p, v, k), r.value.ram)
  {
    hide Linked, StackImage, FrameImage, Vm.Step, Vm.Run, Represents, CallBody, AfterReturn, ReturnValue, Restored,
        Simulation.Ready, CodeAddress, Run;
    ReadyValid(p, prog, env, boot, ram0, v, s);
    IsCall(p, v, k);
    CallReturns(p, v, k);
    n := RunsTo(p, prog, env, boot, ram0, v, s, k + 2, AfterReturn(p, v, k));
    RestoredAfter(p, env, boot, ram0, v, s.ram, k, Run(prog, env, s, n).value.ram);
  }

  lemma RestoredAfter(p: Vm.Program, env: Env, boot: Boot, ram0: Ram, v: Vm.State, ram: Ram, k: nat, ram': Ram)
    requires v.Valid() && CallBody(p, v, k)
    requires Represents(p, env, boot, ram0, v, ram) && Represents(p, env, boot, ram0, AfterReturn(p, v, k), ram')
    ensures Restored(ram, p.commands[v.pc].nargs, ReturnValue(p, v, k), ram')
  {
    IsCall(p, v, k);
    hide StackImage, FrameImage, Vm.Step, Vm.Run, Represents, CallBody, AfterReturn, ReturnValue, Restored;
    CallReturns(p, v, k);
    RestoredBetween(p, env, boot, ram0, v, ram, AfterReturn(p, v, k), ram', p.commands[v.pc].nargs,
                    ReturnValue(p, v, k));
  }

  lemma IsCall(p: Vm.Program, v: Vm.State, k: nat)
    requires v.Valid() && CallBody(p, v, k)
    ensures v.pc < |p.commands| && p.commands[v.pc].Call?
  {
  }

  lemma ReadyValid(p: Vm.Program, prog: seq<Instruction>, env: Env, boot: Boot, ram0: Ram, v: Vm.State, s: Cpu)
    requires Simulation.Ready(p, prog, env, boot, ram0, v, s)
    ensures AllFit(p.commands) && v.Valid() && Represents(p, env, boot, ram0, v, s.ram)
  {
    hide Represents, LabelsPlaced;
    Simulation.FrameHeld(p, env, boot, ram0, v, s.ram);
  }

  /** The simulation of a whole run, from a state ready for its command. */
  lemma RunsTo(p: Vm.Program, prog: seq<Instruction>, env: Env, boot: Boot, ram0: Ram, v: Vm.State, s: Cpu, k: nat,
        v': Vm.State)
      returns (n: nat)
    requires Simulation.Ready(p, prog, env, boot, ram0, v, s) && v.Valid() && Vm.Run(p, v, k) == Some(v')
    ensures AllFit(p.commands) && v'.pc <= |p.commands|
    ensures var r := Run(prog, env, s, n);
            r.Some? && r.value.pc == CodeAddress(p, v'.pc) && Represents(p, env, boot, ram0, v', r.value.ram)
  {
    hide Represents, LabelsPlaced, CodeAddress, Run, Vm.Run, Simulation.ReturnsPlaced;
    n := Compiler.SimRun(p, prog, env, boot, ram0, v, s, k);
  }

  lemma RestoredBetween(p: Vm.Program, env: Env, boot: Boot, ram0: Ram, v: Vm.State, ram: Ram, v': Vm.State,
        ram': Ram, nargs: Word, w: Word)
    requires Represents(p, env, boot, ram0, v, ram) && Represents(p, env, boot, ram0, v', ram')
    requires v'.callers == v.callers && nargs <= |v.top.stack|
    requires v'.top == v.top.(stack := v.top.stack[..|v.top.stack| - nargs] + [w])
    ensures Restored(ram, nargs, w, ram')
  {
    hide Represents, Vm.Depth;
    Simulation.FrameHeld(p, env, boot, ram0, v, ram);
    Simulation.FrameHeld(p, env, boot, ram0, v', ram');
    Simulation.StackHolds(p, env, boot, ram0, v', ram', 1);
    BelowArguments(p, env, boot, ram0, v, ram, v', ram', nargs, w);
  }

  /** Memory below the arguments is the same when the frames below them are. */
  lemma BelowArguments(p: Vm.Program, env: Env, boot: Boot, ram0: Ram, v: Vm.State, ram: Ram, v': Vm.State, ram': Ram,
        nargs: nat, w: Word)
    requires Represents(p, env, boot, ram0, v, ram) && Represents(p, env, boot, ram0, v', ram')
    requires v'.callers == v.callers && nargs <= |v.top.stack|
    requires v'.top == v.top.(stack := v.top.stack[..|v.top.stack| - nargs] + [w])
    ensures forall a :: Vm.STACK_BASE <= a < SpOf(v.callers, v.top) - nargs ==> ram'[a] == ram[a]
  {
    hide Vm.Depth, Untouched, StaticsHold;
    var image, image' := FrameImage(p, boot, v.callers, v.top), FrameImage(p, boot, v.callers, v'.top);
    var n := |image| - nargs;
    assert image[..n] == image'[..n];
    forall a | ArgOf(v.callers) <= a < SpOf(v.callers, v.top) - nargs ensures ram'[a] == ram[a] {
      assert image[..n][a - ArgOf(v.callers)] == image'[..n][a - ArgOf(v.callers)];
    }
  }
}
