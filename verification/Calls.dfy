/** Forward simulation of function entry, call and return. */
module Calls {
  import opened Asm
  import opened Execution
  import opened Layout
  import opened Linking
  import opened Options
  import opened Simulation
  import opened Translator
  import opened Words
  import Vm

  // ----- function entry -----

  lemma {:induction false} ZerosStraight(n: nat)
    ensures Straight(PushZeros(n))
  {
    if n > 0 {
      ZerosStraight(n - 1);
    }
  }

  /** n words of the stack are cleared. */
  lemma {:induction false} PushZerosEffect(n: nat, env: Env, s: Cpu)
    requires RegistersPlaced(env) && 0 < s.ram[0] && s.ram[0] + n < 0x8000
    ensures var r, sp := Exec(PushZeros(n), env, s), s.ram[0];
            && r.ram[0] == sp + n
            && forall a :: 0 < a < 0x8000 ==> r.ram[a] == if sp <= a < sp + n then 0 else s.ram[a]
  {
    hide Exec1, PUSH_ZERO, RegistersPlaced;
    if n > 0 {
      PushZerosEffect(n - 1, env, s);
      ExecConcat(PushZeros(n - 1), PUSH_ZERO, env, s);
      assert PUSH_ZERO == [Num(0), Set(DestD, A)] + PUSH_D by { ZeroCode(); }
      PushAddressEffect(Num(0), env, Exec(PushZeros(n - 1), env, s));
    }
  }

  lemma ZeroCode()
    ensures PUSH_ZERO == [Num(0), Set(DestD, A)] + PUSH_D
  {
  }

  lemma FunctionBlock(p: Vm.Program, i: nat)
    requires i < |p.commands| && p.commands[i].Function?
    ensures Strip(Block(p, i)) == PushZeros(p.commands[i].nvars)
  {
    var c := p.commands[i];
    hide PushZeros, Strip, Lines;
    StripConcat([Label(c.name)], Lines(PushZeros(c.nvars)));
    StripLines(PushZeros(c.nvars));
    StripLabel(c.name);
  }

  lemma LocalsRepresent(p: Vm.Program, env: Env, boot: Boot, ram0: Ram, v: Vm.State, ram: Ram, nvars: Word, ram': Ram)
    requires StaticsPlaced(p.file, env) && Represents(p, env, boot, ram0, v, ram)
    requires Vm.StepFunction(v, nvars).Some?
    requires var sp := SpOf(v.callers, v.top);
             && ram'[0] == sp + nvars
             && forall a :: 0 < a < 0x8000 ==> ram'[a] == if sp <= a < sp + nvars then 0 else ram[a]
    ensures Represents(p, env, boot, ram0, Vm.StepFunction(v, nvars).value, ram')
  {
    hide StackImage, Vm.Depth, Represents, StaticsPlaced;
    FrameHeld(p, env, boot, ram0, v, ram);
    var v' := Vm.StepFunction(v, nvars).value;
    assert FrameImage(p, boot, v.callers, v'.top) == FrameImage(p, boot, v.callers, v.top) + v'.top.locals;
    FrameChanged(p, env, boot, ram0, v, ram, v', ram');
  }

  lemma SimFunction(p: Vm.Program, prog: seq<Instruction>, env: Env, boot: Boot, ram0: Ram, v: Vm.State, s: Cpu)
      returns (n: nat)
    requires Ready(p, prog, env, boot, ram0, v, s)
    requires p.commands[v.pc].Function? && Vm.Step(p, v).Some?
    ensures Reaches(p, prog, env, boot, ram0, s, n, Vm.Step(p, v).value)
  {
    hide Bootstrap, Block, Body, Link, CodeAddress, RegistersPlaced, StaticsPlaced, LabelsPlaced, Exec, Run,
        Represents, PushZeros;
    var nvars := p.commands[v.pc].nvars;
    FrameHeld(p, env, boot, ram0, v, s.ram);
    BlockStands(p, prog, v.pc);
    FunctionBlock(p, v.pc);
    ZerosStraight(nvars);
    RunStraight(prog, env, s, PushZeros(nvars));
    PushZerosEffect(nvars, env, s);
    var r := Exec(PushZeros(nvars), env, s);
    n := |PushZeros(nvars)|;
    LocalsRepresent(p, env, boot, ram0, v, s.ram, nvars, r.ram);
    Repositioned(p, env, boot, ram0, Vm.StepFunction(v, nvars).value, Vm.Step(p, v).value, r.ram);
  }

  // ----- call -----

  /** Five words are saved on the stack. */
  ghost predicate SavedOn(ram: Ram, returnAddress: int, ram': Ram) {
    var sp := ram[0];
    && 0 < sp < 0x7FF0
    && ram'[0] == sp + 5
    && ram'[sp] == returnAddress
    && (forall k :: 1 <= k < 5 ==> ram'[sp + k] == ram[k])
    && (forall a :: 0 < a < 0x8000 && !(sp <= a < sp + 5) ==> ram'[a] == ram[a])
  }

  lemma SaveCallerEffect(ret: string, env: Env, s: Cpu)
    requires RegistersPlaced(env) && 4 < s.ram[0] < 0x7FF0
    requires ret in env && env[ret] < 0x8000
    ensures SavedOn(s.ram, env[ret], Exec(SaveCaller(ret), env, s).ram)
  {
    hide Exec, PUSH_D, PushRegister;
    var first := [At(ret), Set(DestD, A)] + PUSH_D;
    PushAddressEffect(At(ret), env, s);
    var s1 := Exec(first, env, s);
    ExecConcat(first, PushRegister("LCL"), env, s);
    PushRegisterEffect("LCL", env, s1);
    var s2 := Exec(PushRegister("LCL"), env, s1);
    ExecConcat(first + PushRegister("LCL"), PushRegister("ARG"), env, s);
    PushRegisterEffect("ARG", env, s2);
    var s3 := Exec(PushRegister("ARG"), env, s2);
    ExecConcat(first + PushRegister("LCL") + PushRegister("ARG"), PushRegister("THIS"), env, s);
    PushRegisterEffect("THIS", env, s3);
    var s4 := Exec(PushRegister("THIS"), env, s3);
    ExecConcat(first + PushRegister("LCL") + PushRegister("ARG") + PushRegister("THIS"), PushRegister("THAT"), env, s);
    PushRegisterEffect("THAT", env, s4);
  }

  lemma CallStraight(ret: string, nargs: Word)
    requires nargs + 5 < 0x1_0000
    ensures Straight(SaveCaller(ret) + Reposition(nargs))
  {
  }

  lemma CallBlock(p: Vm.Program, i: nat)
    requires i < |p.commands| && Fits(p.commands[i]) && p.commands[i].Call?
    ensures var c, ret := p.commands[i], ReturnLabel(Vm.FunctionAt(p.commands, i), CounterAt(p.commands, i));
            Strip(Block(p, i)) == SaveCaller(ret) + Reposition(c.nargs) + [At(c.name), GOTO]
  {
    hide SaveCaller, Reposition, Strip, Lines, ReturnLabel;
    var c, ret := p.commands[i], ReturnLabel(Vm.FunctionAt(p.commands, i), CounterAt(p.commands, i));
    var code := SaveCaller(ret) + Reposition(c.nargs) + [At(c.name), GOTO];
    StripConcat(Lines(code), [Label(ret)]);
    StripLines(code);
    StripLabel(ret);
  }

  /** What a call leaves in memory. */
  ghost predicate Called(ram: Ram, returnAddress: int, nargs: nat, ram': Ram) {
    var sp := ram[0];
    && 0 < sp < 0x7FF0 && nargs <= sp
    && ram'[0] == sp + 5 && ram'[1] == sp + 5 && ram'[2] == sp - nargs
    && ram'[3] == ram[3] && ram'[4] == ram[4]
    && ram'[sp] == returnAddress
    && (forall k :: 1 <= k < 5 ==> ram'[sp + k] == ram[k])
    && (forall a :: 5 <= a < 0x8000 && !(sp <= a < sp + 5) ==> ram'[a] == ram[a])
  }

  /** The callee's activation lies above what is left of the caller's. */
  lemma CallRepresents(p: Vm.Program, env: Env, boot: Boot, ram0: Ram, v: Vm.State, ram: Ram, name: string,
        nargs: Word, ram': Ram)
    requires AllFit(p.commands) && v.pc < |p.commands|
    requires StaticsPlaced(p.file, env) && Represents(p, env, boot, ram0, v, ram)
    requires Vm.StepCall(p, v, name, nargs).Some?
    requires Called(ram, CodeAddress(p, v.pc + 1), nargs, ram')
    ensures Represents(p, env, boot, ram0, Vm.StepCall(p, v, name, nargs).value, ram')
  {
    hide Vm.Depth, StaticsPlaced, CodeAddress, Vm.FunctionEntry, StaticsHold, StackImage, FrameImage;
    var v' := Vm.StepCall(p, v, name, nargs).value;
    var caller := v'.callers.inner;
    DepthOf(v.callers, caller);
    assert StaticsHold(p.file, env, v.statics, ram') by { StaticsKept(p.file, env, v.statics, ram, ram'); }
    CallerImage(p, boot, v, ram, nargs, ram');
    CalleeImage(p, boot, v.callers, caller, v'.top);
    assert StackImage(p, boot, v'.callers)
           == StackImage(p, boot, v.callers) + FrameImage(p, boot, v.callers, caller) by {
      StackOf(p, boot, v.callers, caller);
    }
  }

  lemma StackOf(p: Vm.Program, boot: Boot, outer: Vm.Frames, f: Vm.Frame)
    ensures StackImage(p, boot, Vm.Frames(outer, f)) == StackImage(p, boot, outer) + FrameImage(p, boot, outer, f)
  {
  }

  /** The caller's words below its arguments to the callee, and those arguments, stay where they are. */
  lemma CallerImage(p: Vm.Program, boot: Boot, v: Vm.State, ram: Ram, nargs: Word, ram': Ram)
    requires nargs <= |v.top.stack|
    requires Holds(ram, ArgOf(v.callers), FrameImage(p, boot, v.callers, v.top))
    requires SpOf(v.callers, v.top) <= 0x8000
    requires forall a :: Vm.STACK_BASE <= a < SpOf(v.callers, v.top) ==> ram'[a] == ram[a]
    ensures var n := |v.top.stack| - nargs;
            var caller := v.top.(stack := v.top.stack[..n]);
            && Holds(ram', ArgOf(v.callers), FrameImage(p, boot, v.callers, caller))
            && Holds(ram', ArgOf(v.callers) + Vm.FrameSize(caller), v.top.stack[n..])
  {
    hide Vm.Depth, Saved;
    var n := |v.top.stack| - nargs;
    var caller := v.top.(stack := v.top.stack[..n]);
    assert v.top.stack == v.top.stack[..n] + v.top.stack[n..];
    assert FrameImage(p, boot, v.callers, v.top) == FrameImage(p, boot, v.callers, caller) + v.top.stack[n..];
    SubImages(ram, ArgOf(v.callers), FrameImage(p, boot, v.callers, caller), v.top.stack[n..]);
  }

  lemma DepthOf(outer: Vm.Frames, f: Vm.Frame)
    ensures Vm.Depth(Vm.Frames(outer, f)) == Vm.Depth(outer) + Vm.FrameSize(f)
  {
  }

  lemma CalleeImage(p: Vm.Program, boot: Boot, outer: Vm.Frames, caller: Vm.Frame, callee: Vm.Frame)
    requires callee.locals == [] && callee.stack == []
    ensures FrameImage(p, boot, Vm.Frames(outer, caller), callee)
         == callee.args
            + [ReturnAddress(p, callee.ret), LclOf(outer, caller), ArgOf(outer), caller.thisBase, caller.thatBase]
  {
    hide ReturnAddress, LclOf, ArgOf;
  }

  lemma StaticsKept(file: string, env: Env, statics: map<nat, Word>, ram: Ram, ram': Ram)
    requires StaticsPlaced(file, env) && StaticsHold(file, env, statics, ram)
    requires forall a :: 15 <= a < Vm.STACK_BASE ==> ram'[a] == ram[a]
    ensures StaticsHold(file, env, statics, ram')
  {
  }

  lemma EntryPlaced(p: Vm.Program, prog: seq<Instruction>, env: Env, name: string)
    requires Linked(p, prog, env) && Vm.FunctionEntry(p, name).Some?
    ensures var entry := Vm.FunctionEntry(p, name).value;
            entry < |p.commands| && Bound(env, name, CodeAddress(p, entry))
  {
    var entry := Vm.FunctionEntry(p, name).value;
    assert LabelsPlaced(p, env, entry);
  }

  lemma ReturnBound(p: Vm.Program, prog: seq<Instruction>, env: Env, i: nat)
    requires Linked(p, prog, env) && i < |p.commands| && p.commands[i].Call?
    ensures Bound(env, ReturnLabel(Vm.FunctionAt(p.commands, i), CounterAt(p.commands, i)), CodeAddress(p, i + 1))
  {
    assert LabelsPlaced(p, env, i);
  }

  /** A call's code loads its return address and its argument count. */
  lemma CallLoads(p: Vm.Program, prog: seq<Instruction>, i: nat)
    requires AllFit(p.commands) && prog == Strip(Link(p)) && i < |p.commands| && p.commands[i].Call?
    ensures p.commands[i].nargs + 5 < 0x1_0000
    ensures At(ReturnLabel(Vm.FunctionAt(p.commands, i), CounterAt(p.commands, i))) in prog
    ensures Num(p.commands[i].nargs + 5) in prog
  {
    hide Bootstrap, Block, Body, Link, CodeAddress, ReturnLabel, PushRegister, PUSH_D, Strip;
    var c, ret := p.commands[i], ReturnLabel(Vm.FunctionAt(p.commands, i), CounterAt(p.commands, i));
    assert Fits(c);
    var here := CodeAddress(p, i);
    BlockStands(p, prog, i);
    CallBlock(p, i);
    SaveCallerFirst(ret);
    RepositionThird(c.nargs);
    hide SaveCaller, Reposition;
    AtConcat(prog, here, SaveCaller(ret) + Reposition(c.nargs), [At(c.name), GOTO]);
    AtConcat(prog, here, SaveCaller(ret), Reposition(c.nargs));
    hide StandsAt;
    StandsIndex(prog, here, SaveCaller(ret), 0);
    StandsIndex(prog, here + |SaveCaller(ret)|, Reposition(c.nargs), 2);
  }

  lemma ReturnPlaced(p: Vm.Program, prog: seq<Instruction>, env: Env, i: nat)
    requires Linked(p, prog, env) && i < |p.commands| && p.commands[i].Call?
    ensures var ret := ReturnLabel(Vm.FunctionAt(p.commands, i), CounterAt(p.commands, i));
            Bound(env, ret, CodeAddress(p, i + 1)) && env[ret] < 0x8000
            && p.commands[i].nargs + 5 < 0x8000
  {
    hide Strip, Link, CodeAddress, RegistersPlaced, StaticsPlaced, LabelsPlaced, ReturnLabel;
    ReturnBound(p, prog, env, i);
    CallLoads(p, prog, i);
  }

  lemma StandsIndex(prog: seq<Instruction>, pc: nat, piece: seq<Instruction>, k: nat)
    requires StandsAt(prog, pc, piece) && k < |piece|
    ensures prog[pc + k] == piece[k] && piece[k] in prog
  {
    assert prog[pc..pc + |piece|][k] == piece[k];
  }

  lemma SaveCallerFirst(ret: string)
    ensures |SaveCaller(ret)| > 0 && SaveCaller(ret)[0] == At(ret)
  {
    hide PushRegister, PUSH_D;
  }

  lemma RepositionThird(nargs: Word)
    requires nargs + 5 < 0x1_0000
    ensures |Reposition(nargs)| > 2 && Reposition(nargs)[2] == Num(nargs + 5)
  {
  }

  lemma CallRuns(p: Vm.Program, prog: seq<Instruction>, env: Env, i: nat, s: Cpu) returns (n: nat, t: Cpu)
    requires Linked(p, prog, env) && i < |p.commands| && p.commands[i].Call?
    requires Vm.FunctionEntry(p, p.commands[i].name).Some?
    requires s.pc == CodeAddress(p, i) && 4 < s.ram[0] < 0x7FF0 && p.commands[i].nargs <= s.ram[0]
    ensures Run(prog, env, s, n) == Some(t) && t.pc == CodeAddress(p, Vm.FunctionEntry(p, p.commands[i].name).value)
    ensures Called(s.ram, CodeAddress(p, i + 1), p.commands[i].nargs, t.ram)
    ensures CodeAddress(p, i + 1) < 0x8000
  {
    hide Bootstrap, Block, Body, Link, CodeAddress, RegistersPlaced, StaticsPlaced, LabelsPlaced, Exec, Run,
        SaveCaller, Reposition,
      ReturnLabel, StandsAt, Straight, Vm.FunctionEntry, JumpTaken;
    var c, ret := p.commands[i], ReturnLabel(Vm.FunctionAt(p.commands, i), CounterAt(p.commands, i));
    ReturnPlaced(p, prog, env, i);
    EntryPlaced(p, prog, env, c.name);
    BlockStands(p, prog, i);
    CallBlock(p, i);
    CallStraight(ret, c.nargs);
    var save := SaveCaller(ret) + Reposition(c.nargs);
    AtConcat(prog, s.pc, save, [At(c.name), GOTO]);
    RunStraight(prog, env, s, save);
    ExecConcat(SaveCaller(ret), Reposition(c.nargs), env, s);
    SaveCallerEffect(ret, env, s);
    var s1 := Exec(SaveCaller(ret), env, s);
    RepositionEffect(c.nargs, env, s1);
    var s2 := Exec(save, env, s);
    RunJump(prog, env, s2, c.name, Zero, JMP);
    JumpAlways();
    RunThen(prog, env, s, |save|, s2, 2);
    n, t := |save| + 2, Run(prog, env, s2, 2).value;
  }

  lemma SimCall(p: Vm.Program, prog: seq<Instruction>, env: Env, boot: Boot, ram0: Ram, v: Vm.State, s: Cpu)
      returns (n: nat)
    requires Ready(p, prog, env, boot, ram0, v, s)
    requires p.commands[v.pc].Call? && Vm.Step(p, v).Some?
    ensures Reaches(p, prog, env, boot, ram0, s, n, Vm.Step(p, v).value)
  {
    hide Bootstrap, Block, Body, Link, CodeAddress, RegistersPlaced, StaticsPlaced, LabelsPlaced, Exec, Run,
        Represents, Called,
      Vm.FunctionEntry;
    var c := p.commands[v.pc];
    FrameHeld(p, env, boot, ram0, v, s.ram);
    var m, t := CallRuns(p, prog, env, v.pc, s);
    n := m;
    CallRepresents(p, env, boot, ram0, v, s.ram, c.name, c.nargs, t.ram);
    EntryPlaced(p, prog, env, c.name);
    var v' := Vm.Step(p, v).value;
    ReturnsKept(p, v.callers, v.top, v'.callers.inner);
    assert ReturnsPlaced(p, v'.callers, v'.top);
  }

  lemma ReturnsKept(p: Vm.Program, outer: Vm.Frames, f: Vm.Frame, f': Vm.Frame)
    requires AllFit(p.commands) && ReturnsPlaced(p, outer, f) && f'.ret == f.ret
    ensures ReturnsPlaced(p, outer, f')
  {
    hide CodeAddress;
  }

  // ----- return -----

  /** The words below the locals are the saved ones. */
  lemma SavedHeld(p: Vm.Program, env: Env, boot: Boot, ram0: Ram, v: Vm.State, ram: Ram)
    requires Represents(p, env, boot, ram0, v, ram)
    ensures Holds(ram, LclOf(v.callers, v.top) - 5, Saved(p, boot, v.callers, v.top.ret))
  {
    hide StackImage, Vm.Depth, Represents, Saved;
    FrameHeld(p, env, boot, ram0, v, ram);
    var image, saved := FrameImage(p, boot, v.callers, v.top), Saved(p, boot, v.callers, v.top.ret);
    assert forall k :: 0 <= k < 5 ==> saved[k] == image[|v.top.args| + k];
  }

  ghost predicate Returnable(ram: Ram) {
    var lcl: int := ram[1];
    var arg: int := ram[2];
    20 < arg && arg + 5 <= lcl < ram[0] < 0x8000
  }

  /** The registers of the caller are restored and the result is put at ARG. */
  ghost predicate Returned(ram: Ram, ram': Ram) {
    var lcl: int := ram[1];
    var arg: int := ram[2];
    && Returnable(ram)
    && ram'[0] == arg + 1
    && ram'[1] == ram[lcl - 4]
    && ram'[2] == ram[lcl - 3]
    && ram'[3] == ram[lcl - 2]
    && ram'[4] == ram[lcl - 1]
    && ram'[14] == ram[lcl - 5]
    && ram'[arg] == ram[ram[0] - 1]
    && forall a :: 5 <= a < 0x8000 && a != 13 && a != 14 && a != arg ==> ram'[a] == ram[a]
  }

  const RETURN_CODE: seq<Instruction> := SAVE_FRAME + RETURN_VALUE + RESTORE_CALLER

  lemma ReturnEffect(env: Env, s: Cpu)
    requires RegistersPlaced(env)
    requires Returnable(s.ram)
    ensures Returned(s.ram, Exec(RETURN_CODE, env, s).ram)
  {
    hide Exec, SAVE_FRAME, RETURN_VALUE, Restore, RESTORE_CALLER;
    SaveFrameEffect(env, s);
    var s1 := Exec(SAVE_FRAME, env, s);
    ExecConcat(SAVE_FRAME, RETURN_VALUE, env, s);
    ReturnValueEffect(env, s1);
    var s2 := Exec(RETURN_VALUE, env, s1);
    ExecConcat(SAVE_FRAME + RETURN_VALUE, RESTORE_CALLER, env, s);
    RestoreCallerEffect(env, s2);
  }

  lemma RestoreCallerEffect(env: Env, s: Cpu)
    requires RegistersPlaced(env) && 20 < s.ram[13] < 0x8000
    ensures var f := s.ram[13];
            Exec(RESTORE_CALLER, env, s).ram
            == s.ram[4 := s.ram[f - 1]][3 := s.ram[f - 2]][2 := s.ram[f - 3]][1 := s.ram[f - 4]]
  {
    hide Exec, Restore;
    RestoreEffect("THAT", 1, env, s);
    var s1 := Exec(Restore("THAT", 1), env, s);
    ExecConcat(Restore("THAT", 1), Restore("THIS", 2), env, s);
    RestoreEffect("THIS", 2, env, s1);
    var s2 := Exec(Restore("THIS", 2), env, s1);
    ExecConcat(Restore("THAT", 1) + Restore("THIS", 2), Restore("ARG", 3), env, s);
    RestoreEffect("ARG", 3, env, s2);
    var s3 := Exec(Restore("ARG", 3), env, s2);
    ExecConcat(Restore("THAT", 1) + Restore("THIS", 2) + Restore("ARG", 3), Restore("LCL", 4), env, s);
    RestoreEffect("LCL", 4, env, s3);
  }

  lemma ReturnBlock(p: Vm.Program, i: nat)
    requires i < |p.commands| && p.commands[i].Return?
    ensures Strip(Block(p, i)) == RETURN_CODE + JUMP_BACK
  {
    hide SAVE_FRAME, RETURN_VALUE, RESTORE_CALLER, JUMP_BACK, Strip, Lines;
    StripLines(RETURN_CODE + JUMP_BACK);
  }

  lemma ReturnStraight()
    ensures Straight(RETURN_CODE)
  {
  }

  /** Jump to the address in R14. */
  lemma JumpBackRuns(prog: seq<Instruction>, env: Env, s: Cpu)
    requires Resolved(prog, env) && RegistersPlaced(env) && StandsAt(prog, s.pc, JUMP_BACK) && s.ram[14] < 0x8000
    ensures var r := Run(prog, env, s, 3);
            r.Some? && r.value.ram == s.ram && r.value.pc == s.ram[14]
  {
    hide Exec, JumpTaken;
    JumpAlways();
    var load := [At("R14"), Set(DestA, M)];
    assert JUMP_BACK == load + [GOTO];
    AtConcat(prog, s.pc, load, [GOTO]);
    RunStraight(prog, env, s, load);
    Exec2(At("R14"), Set(DestA, M), env, s);
    var s1 := Exec(load, env, s);
    assert prog[s1.pc] == [GOTO][0];
    Step1(prog, env, s1);
    RunThen(prog, env, s, 2, s1, 1);
    assert Run(prog, env, s1, 1) == Run(prog, env, Exec1(GOTO, env, s1), 0);
  }

  lemma ReturnRuns(p: Vm.Program, prog: seq<Instruction>, env: Env, i: nat, s: Cpu) returns (n: nat, t: Cpu)
    requires Linked(p, prog, env) && i < |p.commands| && p.commands[i].Return?
    requires s.pc == CodeAddress(p, i)
    requires Returnable(s.ram) && s.ram[s.ram[1] - 5] < 0x8000
    ensures Run(prog, env, s, n) == Some(t) && t.pc == s.ram[s.ram[1] - 5]
    ensures Returned(s.ram, t.ram)
  {
    hide Bootstrap, Block, Body, Link, CodeAddress, RegistersPlaced, StaticsPlaced, LabelsPlaced, Exec, Run, StandsAt,
        RETURN_CODE,
      JUMP_BACK, Straight;
    BlockStands(p, prog, i);
    ReturnBlock(p, i);
    ReturnStraight();
    AtConcat(prog, s.pc, RETURN_CODE, JUMP_BACK);
    RunStraight(prog, env, s, RETURN_CODE);
    ReturnEffect(env, s);
    var s1 := Exec(RETURN_CODE, env, s);
    JumpBackRuns(prog, env, s1);
    RunThen(prog, env, s, |RETURN_CODE|, s1, 3);
    n, t := |RETURN_CODE| + 3, Run(prog, env, s1, 3).value;
  }

  /** The registers after a return are the caller's. */
  lemma ReturnPointers(p: Vm.Program, env: Env, boot: Boot, ram0: Ram, v: Vm.State, ram: Ram, ram': Ram)
    requires Represents(p, env, boot, ram0, v, ram)
    requires Vm.StepReturn(v).Some? && Returned(ram, ram')
    ensures PointersHold(Vm.StepReturn(v).value, ram')
    ensures ArgOf(v.callers) < Vm.HEAP_BASE && ram'[ArgOf(v.callers)] == v.top.stack[|v.top.stack| - 1]
  {
    hide Vm.Depth, StaticsHold, Represents, StackImage, FrameImage, ReturnAddress;
    DepthOf(v.callers.outer, v.callers.inner);
    FrameHeld(p, env, boot, ram0, v, ram);
    SavedHeld(p, env, boot, ram0, v, ram);
    StackHolds(p, env, boot, ram0, v, ram, 1);
  }

  /** The caller's frame lies where it lay, with the result on top. */
  lemma ReturnFrame(p: Vm.Program, env: Env, boot: Boot, ram0: Ram, v: Vm.State, ram: Ram, ram': Ram)
    requires Represents(p, env, boot, ram0, v, ram)
    requires Vm.StepReturn(v).Some? && Returned(ram, ram')
    ensures var v' := Vm.StepReturn(v).value;
            && Holds(ram', Vm.STACK_BASE, StackImage(p, boot, v'.callers))
            && Holds(ram', ArgOf(v'.callers), FrameImage(p, boot, v'.callers, v'.top))
  {
    hide Vm.Depth, StackImage, FrameImage, Represents, PointersHold, Holds, Returnable;
    var outer, caller := v.callers.outer, v.callers.inner;
    ReturnPointers(p, env, boot, ram0, v, ram, ram');
    StackHeld(p, env, boot, ram0, v, ram);
    DepthOf(outer, caller);
    ReturnImages(p, boot, outer, caller, Vm.StepReturn(v).value.top, v.top.stack[|v.top.stack| - 1]);
    var below, frame := StackImage(p, boot, outer), FrameImage(p, boot, outer, caller);
    SubImages(ram, Vm.STACK_BASE, below, frame);
    var arg, w := ArgOf(v.callers), v.top.stack[|v.top.stack| - 1];
    HoldsKept(ram, ram', Vm.STACK_BASE, below, arg);
    HoldsGrown(ram, ram', ArgOf(outer), frame, arg, w);
  }

  lemma StackHeld(p: Vm.Program, env: Env, boot: Boot, ram0: Ram, v: Vm.State, ram: Ram)
    requires Represents(p, env, boot, ram0, v, ram)
    ensures ram[2] == ArgOf(v.callers) && Holds(ram, Vm.STACK_BASE, StackImage(p, boot, v.callers))
  {
    hide Vm.Depth, StackImage, FrameImage, StaticsHold, Untouched, Holds;
  }

  lemma HoldsKept(ram: Ram, ram': Ram, base: nat, image: seq<int>, arg: nat)
    requires Holds(ram, base, image) && 15 <= base && base + |image| <= arg
    requires forall a :: 15 <= a < 0x8000 && a != arg ==> ram'[a] == ram[a]
    ensures Holds(ram', base, image)
  {
  }

  lemma HoldsGrown(ram: Ram, ram': Ram, base: nat, image: seq<int>, arg: nat, w: Word)
    requires Holds(ram, base, image) && 15 <= base && base + |image| == arg < 0x8000 && ram'[arg] == w
    requires forall a :: 15 <= a < 0x8000 && a != arg ==> ram'[a] == ram[a]
    ensures Holds(ram', base, image + [w])
  {
  }

  /** The result lies on the caller's stack, and the caller's registers are back. */
  lemma ReturnRepresents(p: Vm.Program, env: Env, boot: Boot, ram0: Ram, v: Vm.State, ram: Ram, ram': Ram)
    requires StaticsPlaced(p.file, env) && Represents(p, env, boot, ram0, v, ram)
    requires Vm.StepReturn(v).Some? && Returned(ram, ram')
    ensures Represents(p, env, boot, ram0, Vm.StepReturn(v).value, ram')
  {
    ReturnPointers(p, env, boot, ram0, v, ram, ram');
    ReturnFrame(p, env, boot, ram0, v, ram, ram');
    DepthOf(v.callers.outer, v.callers.inner);
    hide Vm.Depth, StackImage, FrameImage, PointersHold, StaticsPlaced, StaticsHold, Returnable;
    assert StaticsHold(p.file, env, v.statics, ram') by { StaticsKept(p.file, env, v.statics, ram, ram'); }
  }

  lemma ReturnImages(p: Vm.Program, boot: Boot, outer: Vm.Frames, caller: Vm.Frame, top: Vm.Frame, w: Word)
    requires top == caller.(stack := caller.stack + [w])
    ensures StackImage(p, boot, Vm.Frames(outer, caller))
            == StackImage(p, boot, outer) + FrameImage(p, boot, outer, caller)
    ensures FrameImage(p, boot, outer, top) == FrameImage(p, boot, outer, caller) + [w]
  {
    hide Saved, ReturnAddress;
  }

  lemma SubImages(ram: Ram, base: nat, a: seq<int>, b: seq<int>)
    requires Holds(ram, base, a + b)
    ensures Holds(ram, base, a) && Holds(ram, base + |a|, b)
  {
    forall k | base <= k < base + |a| ensures ram[k] == a[k - base] {
      assert (a + b)[k - base] == a[k - base];
    }
    forall k | base + |a| <= k < base + |a| + |b| ensures ram[k] == b[k - base - |a|] {
      assert (a + b)[k - base] == b[k - base - |a|];
    }
  }

  lemma SimReturn(p: Vm.Program, prog: seq<Instruction>, env: Env, boot: Boot, ram0: Ram, v: Vm.State, s: Cpu)
      returns (n: nat)
    requires Ready(p, prog, env, boot, ram0, v, s)
    requires p.commands[v.pc].Return? && Vm.Step(p, v).Some?
    ensures Reaches(p, prog, env, boot, ram0, s, n, Vm.Step(p, v).value)
  {
    hide Bootstrap, Block, Body, Link, CodeAddress, RegistersPlaced, StaticsPlaced, LabelsPlaced, Exec, Run,
        Represents, Returned;
    FrameHeld(p, env, boot, ram0, v, s.ram);
    SavedHeld(p, env, boot, ram0, v, s.ram);
    var lcl := LclOf(v.callers, v.top);
    assert s.ram[lcl - 5] == Saved(p, boot, v.callers, v.top.ret)[0] == CodeAddress(p, v.top.ret);
    var m, t := ReturnRuns(p, prog, env, v.pc, s);
    n := m;
    ReturnRepresents(p, env, boot, ram0, v, s.ram, t.ram);
    ReturnsKept(p, v.callers.outer, v.callers.inner, Vm.Step(p, v).value.top);
  }
}
