/** The whole pipeline: a well-named file, translated, linked with its bootstrap code and assembled,
runs on the Hack computer as the virtual machine runs it. */
module Compiler {
  import opened Asm
  import opened Calls
  import opened Execution
  import opened Layout
  import opened Linking
  import opened Options
  import opened Simulation
  import opened Translator
  import opened Words
  import A = Assembler
  import HackCpu
  import Vm

  // ----- one command, many commands -----

  lemma SimStep(p: Vm.Program, prog: seq<Instruction>, env: Env, boot: Boot, ram0: Ram, v: Vm.State, s: Cpu)
      returns (n: nat)
    requires Ready(p, prog, env, boot, ram0, v, s)
    requires Vm.Step(p, v).Some?
    ensures Reaches(p, prog, env, boot, ram0, s, n, Vm.Step(p, v).value)
  {
    hide Bootstrap, Block, Body, Link, CodeAddress, RegistersPlaced, StaticsPlaced, LabelsPlaced, Run, Represents,
        Vm.Step;
    var c := p.commands[v.pc];
    if Vm.IsUnary(c) {
      n := SimUnary(p, prog, env, boot, ram0, v, s);
    } else if Vm.IsComparison(c) {
      n := SimComparison(p, prog, env, boot, ram0, v, s);
    } else if Vm.IsBinary(c) {
      n := SimArithmetic(p, prog, env, boot, ram0, v, s);
    } else {
      match c
      case Push(_, _) => n := SimPush(p, prog, env, boot, ram0, v, s);
      case Pop(_, _) => n := SimPop(p, prog, env, boot, ram0, v, s);
      case Label(_) => n := SimLabel(p, prog, env, boot, ram0, v, s);
      case Goto(_) => n := SimGoto(p, prog, env, boot, ram0, v, s);
      case IfGoto(_) => n := SimIfGoto(p, prog, env, boot, ram0, v, s);
      case Function(_, _) => n := SimFunction(p, prog, env, boot, ram0, v, s);
      case Call(_, _) => n := SimCall(p, prog, env, boot, ram0, v, s);
      case Return => n := SimReturn(p, prog, env, boot, ram0, v, s);
    }
  }

  /** Whole runs: however far the virtual machine gets, the assembly program gets to a related state. */
  lemma {:induction false} SimRun(p: Vm.Program, prog: seq<Instruction>, env: Env, boot: Boot, ram0: Ram, v: Vm.State,
        s: Cpu,
                                  k: nat) returns (n: nat)
    requires Linked(p, prog, env) && Related(p, env, boot, ram0, v, s)
    requires Vm.Run(p, v, k).Some?
    ensures Reaches(p, prog, env, boot, ram0, s, n, Vm.Run(p, v, k).value)
    decreases k
  {
    hide Bootstrap, Block, Body, Link, CodeAddress, RegistersPlaced, StaticsPlaced, LabelsPlaced, Represents;
    if k == 0 {
      n := 0;
    } else {
      FrameHeld(p, env, boot, ram0, v, s.ram);
      assert v.pc < |p.commands| && Vm.Step(p, v).Some?;
      Vm.StepValid(p, v);
      hide Vm.Step;
      var m := SimStep(p, prog, env, boot, ram0, v, s);
      var t := Run(prog, env, s, m).value;
      var rest := SimRun(p, prog, env, boot, ram0, Vm.Step(p, v).value, t, k - 1);
      RunThen(prog, env, s, m, t, rest);
      n := m + rest;
    }
  }

  // ----- starting up -----

  predicate UsesStatic(c: Vm.Command) {
    (c.Push? || c.Pop?) && c.segment.Static?
  }

  ghost function StaticIndices(p: Vm.Program): set<nat> {
    set i | 0 <= i < |p.commands| && UsesStatic(p.commands[i]) :: p.commands[i].index as nat
  }

  function Place(env: Env, name: string): (r: nat)
    ensures r < 0x8000
  {
    if name in env && env[name] < 0x8000 then env[name] else 0
  }

  /** The virtual machine about to execute Sys.init; memory contents are what the computer holds. */
  ghost function Initial(p: Vm.Program, env: Env, ram: Ram): (v: Vm.State)
    requires Vm.FunctionEntry(p, MAIN).Some?
    ensures v.Valid()
  {
    Vm.State(Vm.FunctionEntry(p, MAIN).value, Vm.Bottom, Vm.Frame(0, [], [], [], ram[3], ram[4]),
             map k | k in StaticIndices(p) :: ram[Place(env, StaticName(p.file, k))],
             ram[5..13], ram[Vm.HEAP_BASE..])
  }

  lemma StaticBlock(p: Vm.Program, i: nat)
    requires i < |p.commands| && Fits(p.commands[i]) && UsesStatic(p.commands[i])
    ensures At(StaticName(p.file, p.commands[i].index)) in Strip(Block(p, i))
  {
    var c := p.commands[i];
    hide Strip, PUSH_D, SAVE_TARGET, POP_D, STORE_TARGET;
    var fetch := FetchSegment(p.file, c.segment, c.index);
    var rest := if c.Push? then [LoadOperand(c.segment)] + PUSH_D else SAVE_TARGET + POP_D + STORE_TARGET;
    assert Block(p, i) == Lines(fetch + rest);
    StripLines(fetch + rest);
    assert (fetch + rest)[0] == At(StaticName(p.file, c.index));
  }

  /** Every static variable that the file uses has a place below the stack. */
  lemma StaticsBound(p: Vm.Program, prog: seq<Instruction>, env: Env)
    requires Linked(p, prog, env)
    ensures forall k :: k in StaticIndices(p) ==>
               StaticName(p.file, k) in env && env[StaticName(p.file, k)] < Vm.STACK_BASE
  {
    hide Bootstrap, Block, Body, Link, CodeAddress, RegistersPlaced, LabelsPlaced, StaticName;
    forall k | k in StaticIndices(p)
      ensures StaticName(p.file, k) in env && env[StaticName(p.file, k)] < Vm.STACK_BASE
    {
      var i :| 0 <= i < |p.commands| && UsesStatic(p.commands[i]) && p.commands[i].index == k;
      StaticBlock(p, i);
      BlockStands(p, prog, i);
      var block := Strip(Block(p, i));
      var j :| 0 <= j < |block| && block[j] == At(StaticName(p.file, k));
      assert prog[CodeAddress(p, i) + j] == At(StaticName(p.file, k));
    }
  }

  const BOOT_RETURN: string := "$ret.0"

  lemma BootstrapCode()
    ensures ReturnLabel("", 0) == BOOT_RETURN
    ensures Strip(Bootstrap()) == SET_STACK + (SaveCaller(BOOT_RETURN) + Reposition(0)) + [At(MAIN), GOTO]
  {
    assert Decimal(0) == "0";
    assert ReturnLabel("", 0) == BOOT_RETURN;
    hide SET_STACK, SaveCaller, Reposition, Strip, Lines, ReturnLabel;
    var code := SaveCaller(BOOT_RETURN) + Reposition(0) + [At(MAIN), GOTO];
    StripLines(SET_STACK);
    StripLines(code);
    StripConcat(Lines(code), [Label(BOOT_RETURN)]);
    StripLabel(BOOT_RETURN);
    StripConcat(Lines(SET_STACK), Lines(code) + [Label(BOOT_RETURN)]);
    assert Bootstrap() == Lines(SET_STACK) + (Lines(code) + [Label(BOOT_RETURN)]);
  }

  lemma BootstrapStands(p: Vm.Program, prog: seq<Instruction>)
    requires AllFit(p.commands) && prog == Strip(Link(p))
    ensures StandsAt(prog, 0, SET_STACK)
    ensures StandsAt(prog, 4, SaveCaller(BOOT_RETURN) + Reposition(0))
    ensures StandsAt(prog, 4 + |SaveCaller(BOOT_RETURN) + Reposition(0)|, [At(MAIN), GOTO])
  {
    assert |SET_STACK| == 4;
    hide SET_STACK, SaveCaller, Reposition, Bootstrap, Body, Link, FOOTER;
    BootstrapCode();
    var rest := Body(p, |p.commands|) + FOOTER;
    assert Link(p) == Bootstrap() + rest by { LinkParts(p); }
    StripConcat(Bootstrap(), rest);
    var call := SaveCaller(BOOT_RETURN) + Reposition(0);
    AtConcat(prog, 0, SET_STACK + call, [At(MAIN), GOTO]);
    AtConcat(prog, 0, SET_STACK, call);
  }

  lemma LinkParts(p: Vm.Program)
    requires AllFit(p.commands)
    ensures Link(p) == Bootstrap() + (Body(p, |p.commands|) + FOOTER)
  {
    hide Bootstrap, Body, FOOTER;
  }

  lemma SetStackEffect(env: Env, s: Cpu)
    requires RegistersPlaced(env)
    ensures Exec(SET_STACK, env, s).ram == s.ram[0 := 256]
  {
    hide Exec, Address, And, Or;
    Exec4(Num(256), Set(DestD, A), At("SP"), Set(DestM, D), env, s);
  }

  /** The bootstrap code calls Sys.init on an empty stack. */
  lemma BootstrapRuns(p: Vm.Program, prog: seq<Instruction>, env: Env, s: Cpu) returns (n: nat, t: Cpu)
    requires Linked(p, prog, env) && Vm.FunctionEntry(p, MAIN).Some? && s.pc == 0
    ensures Run(prog, env, s, n) == Some(t) && t.pc == CodeAddress(p, Vm.FunctionEntry(p, MAIN).value)
    ensures t.ram[0] == 261 && t.ram[1] == 261 && t.ram[2] == 256
    ensures forall a :: 3 <= a < 0x8000 && !(256 <= a < 261) ==> t.ram[a] == s.ram[a]
  {
    hide Bootstrap, Block, Body, Link, CodeAddress, RegistersPlaced, StaticsPlaced, LabelsPlaced, Exec, Run,
        SaveCaller, Reposition,
      StandsAt, Vm.FunctionEntry, JumpTaken, SET_STACK, MAIN;
    BootstrapStands(p, prog);
    assert |SET_STACK| == 4 && Straight(SET_STACK) by { SetStackStraight(); }
    RunStraight(prog, env, s, SET_STACK);
    SetStackEffect(env, s);
    var s1 := Exec(SET_STACK, env, s);
    var call := SaveCaller(BOOT_RETURN) + Reposition(0);
    CallStraight(BOOT_RETURN, 0);
    RunStraight(prog, env, s1, call);
    var s2 := Exec(call, env, s1);
    BootReturnBound(p, prog, env);
    BootCallEffect(env, s1);
    RunThen(prog, env, s, 4, s1, |call|);
    RunJump(prog, env, s2, MAIN, Zero, JMP);
    JumpAlways();
    EntryPlaced(p, prog, env, MAIN);
    RunThen(prog, env, s, 4 + |call|, s2, 2);
    n, t := 4 + |call| + 2, Run(prog, env, s2, 2).value;
  }

  lemma SetStackStraight()
    ensures |SET_STACK| == 4 && Straight(SET_STACK)
  {
  }

  lemma BootCallEffect(env: Env, s: Cpu)
    requires RegistersPlaced(env) && s.ram[0] == 256
    requires BOOT_RETURN in env && env[BOOT_RETURN] < 0x8000
    ensures var r := Exec(SaveCaller(BOOT_RETURN) + Reposition(0), env, s).ram;
            && r[0] == 261 && r[1] == 261 && r[2] == 256
            && forall a :: 3 <= a < 0x8000 && !(256 <= a < 261) ==> r[a] == s.ram[a]
  {
    hide RegistersPlaced, Exec, SaveCaller, Reposition;
    ExecConcat(SaveCaller(BOOT_RETURN), Reposition(0), env, s);
    SaveCallerEffect(BOOT_RETURN, env, s);
    RepositionEffect(0, env, Exec(SaveCaller(BOOT_RETURN), env, s));
  }

  lemma BootReturnBound(p: Vm.Program, prog: seq<Instruction>, env: Env)
    requires Linked(p, prog, env)
    ensures BOOT_RETURN in env && env[BOOT_RETURN] < 0x8000
  {
    hide Bootstrap, Block, Body, Link, CodeAddress, RegistersPlaced, StaticsPlaced, LabelsPlaced, PUSH_D,
        PushRegister, Reposition, SET_STACK;
    BootstrapStands(p, prog);
    AtConcat(prog, 4, SaveCaller(BOOT_RETURN), Reposition(0));
    assert prog[4] == SaveCaller(BOOT_RETURN)[0] == At(BOOT_RETURN);
  }

  lemma InitialRepresented(p: Vm.Program, env: Env, ram0: Ram, ram: Ram) returns (boot: Boot)
    requires StaticsPlaced(p.file, env) && Vm.FunctionEntry(p, MAIN).Some?
    requires forall k :: k in StaticIndices(p) ==>
               StaticName(p.file, k) in env && env[StaticName(p.file, k)] < Vm.STACK_BASE
    requires ram[0] == 261 && ram[1] == 261 && ram[2] == 256
    requires forall a :: 3 <= a < 0x8000 && !(256 <= a < 261) ==> ram[a] == ram0[a]
    ensures Represents(p, env, boot, ram0, Initial(p, env, ram0), ram)
  {
    hide Vm.FunctionEntry, StaticName, StaticIndices;
    boot := ram[256..261];
    var v := Initial(p, env, ram0);
    assert FrameImage(p, boot, v.callers, v.top) == ram[256..261];
  }

  // ----- the main theorem -----

  /** What the assembled program needs of the file: no clash of names that matters, an entry point, and,
  if there are variables, few enough labels and variables that these stay below the stack. */
  ghost predicate Acceptable(p: Vm.Program) {
    && AllFit(p.commands)
    && NamesApart(p)
    && Vm.FunctionEntry(p, MAIN).Some?
    && RoomForVariables(p)
  }

  lemma AcceptableStatics(p: Vm.Program, code: seq<HackCpu.Bits16>)
    requires Acceptable(p) && A.Assembled(Link(p), code)
    ensures Linked(p, Strip(Link(p)), A.SymbolTable(Link(p)))
    ensures forall k :: k in StaticIndices(p) ==>
              var env := A.SymbolTable(Link(p));
              StaticName(p.file, k) in env && env[StaticName(p.file, k)] < Vm.STACK_BASE
  {
    hide Link, A.Assembled, A.SymbolTable, NamesApart, RoomForVariables, StaticIndices, Linked;
    AssembledIsLinked(p, code);
    StaticsBound(p, Strip(Link(p)), A.SymbolTable(Link(p)));
  }

  /** From power-on with any memory: if the virtual machine makes k steps from its initial state, the
  Hack computer running the assembled words reaches, at the instruction of the corresponding command,
  a memory that represents the machine's state. */
  lemma CompilerCorrect(p: Vm.Program, code: seq<HackCpu.Bits16>, s: Cpu, k: nat) returns (n: nat, boot: Boot)
    requires Acceptable(p) && A.Assembled(Link(p), code)
    requires s.pc == 0
    requires Vm.Run(p, Initial(p, A.SymbolTable(Link(p)), s.ram), k).Some?
    ensures var env := A.SymbolTable(Link(p));
            var v := Vm.Run(p, Initial(p, env, s.ram), k).value;
            var r := HackCpu.Run(code, s, n);
            && r.Some?
            && v.pc <= |p.commands| && r.value.pc == CodeAddress(p, v.pc)
            && Represents(p, env, boot, s.ram, v, r.value.ram)
  {
    hide Link, A.Assembled, A.SymbolTable, NamesApart, RoomForVariables, StaticIndices, CodeAddress, Represents,
        Vm.FunctionEntry, LabelsPlaced, StaticsPlaced, RegistersPlaced, Run;
    var prog, env := Strip(Link(p)), A.SymbolTable(Link(p));
    AcceptableStatics(p, code);
    var m, t := BootstrapRuns(p, prog, env, s);
    boot := InitialRepresented(p, env, s.ram, t.ram);
    EntryPlaced(p, prog, env, MAIN);
    var v := Initial(p, env, s.ram);
    assert Related(p, env, boot, s.ram, v, t);
    hide Initial, Linked, Related;
    var rest := SimRun(p, prog, env, boot, s.ram, v, t, k);
    RunThen(prog, env, s, m, t, rest);
    n := m + rest;
    A.AssembledRuns(Link(p), code, s, n);
  }

  /** The two programs one after the other: translate the file between bootstrap code and footer, then
  assemble. None where the translator or the assembler gives up. */
  method Build(p: Vm.Program) returns (r: Option<seq<HackCpu.Bits16>>)
    ensures r.Some? ==> AllFit(p.commands) && A.Assembled(Link(p), r.value)
    ensures r.None? ==> !AllFit(p.commands) || !exists code :: A.Assembled(Link(p), code)
  {
    var state := new TranslationState();
    var boot := Lines(SET_STACK);
    var start := state.CommandToAsm(BOOT_FILE, Vm.Call(MAIN, 0));
    var body := VmToAsm(p);
    if body.None? {
      return None;
    }
    r := A.Assemble(boot + start.value + body.value + FOOTER);
  }
}
