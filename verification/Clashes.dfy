/** Where labels of the translator clash: a file that is not translated as meant, one whose clash does no
harm, and files translated one after the other. */
module Clashes {
  import opened Asm
  import opened Linking
  import opened Naming
  import opened Options
  import opened SmallPrograms
  import opened Translator
  import A = Assembler
  import Calls
  import Compiler
  import Execution
  import HackCpu
  import Simulation
  import Vm

  const RET: string := "Sys.init$ret.0"

  /** The user label "ret.0" takes the name of the first return label of the same function, and the call
  comes later: the jump goes behind the call. */
  const CLASHING: Vm.Program := Vm.Program("Main",
    [Vm.Function("Sys.init", 0), Vm.Goto("ret.0"), Vm.Label("ret.0"), Vm.Push(Vm.Constant, 7), Vm.Call("Sys.init", 0)])

  /** The same two definitions, but no instruction between them. */
  const HARMLESS: Vm.Program := Vm.Program("Main",
    [Vm.Function("Sys.init", 0), Vm.Call("Sys.init", 0), Vm.Label("ret.0"), Vm.Goto("ret.0")])

  lemma RetNames()
    ensures LabelName("Sys.init", "ret.0") == RET == ReturnLabel("Sys.init", 0)
  {
    assert Decimal(0) == "0";
  }

  /** The labels of the two files, with those of the bootstrap code and the footer. */
  const NAMES: set<string> := {"$ret.0", MAIN, RET, "_vm_END"}

  ghost predicate FewLabels(es: seq<Element>) {
    forall name :: Label(name) in es ==> name in NAMES
  }

  lemma FewConcat(a: seq<Element>, b: seq<Element>)
    requires FewLabels(a) && FewLabels(b)
    ensures FewLabels(a + b)
  {
  }

  lemma FewCode(prog: seq<Instruction>)
    ensures FewLabels(Lines(prog)) && FewLabels([Label(MAIN)]) && FewLabels([Label(RET)])
  {
  }

  lemma {:induction false} FewBody(p: Vm.Program, n: nat)
    requires AllFit(p.commands) && n <= |p.commands|
    requires forall i :: 0 <= i < n ==> FewLabels(Block(p, i))
    ensures FewLabels(Body(p, n))
  {
    hide Block;
    if n > 0 {
      FewBody(p, n - 1);
      FewConcat(Body(p, n - 1), Block(p, n - 1));
    }
  }

  lemma FewAround()
    ensures FewLabels(Bootstrap()) && FewLabels(FOOTER)
  {
    hide SaveCaller, Reposition, SET_STACK;
    assert Decimal(0) == "0";
    assert ReturnLabel("", 0) == "$ret.0";
  }

  lemma NamesFree(name: string)
    requires name in NAMES
    ensures name !in REGISTERS && forall k :: name != StaticName("Main", k)
  {
    assert |name| > 4;
    forall k ensures name != StaticName("Main", k) {
      assert StaticName("Main", k)[0] == 'M' != name[0];
    }
  }

  /** A file with no other labels keeps clear of registers and static variables. */
  lemma FewLabelsFree(p: Vm.Program)
    requires AllFit(p.commands) && p.file == "Main" && FewLabels(Body(p, |p.commands|))
    ensures RegistersFree(p) && StaticsFree(p)
  {
    FewAround();
    assert FewLabels(Link(p)) by {
      hide FewLabels, Bootstrap, Body, FOOTER;
      FewConcat(Bootstrap(), Body(p, |p.commands|));
      FewConcat(Bootstrap() + Body(p, |p.commands|), FOOTER);
    }
    hide Link, StaticName, NAMES, REGISTERS;
    forall name | Label(name) in Link(p)
      ensures name !in REGISTERS && forall k :: name != StaticName("Main", k)
    {
      NamesFree(name);
    }
  }

  lemma SmallAndFew(p: Vm.Program)
    requires AllFit(p.commands) && p.file == "Main"
    requires forall i :: 0 <= i < |p.commands| ==> FewLabels(Block(p, i))
    requires LengthUpTo(p, |p.commands|) <= 100
    ensures |Link(p)| <= 217 && RegistersFree(p) && StaticsFree(p)
  {
    BootstrapLength();
    assert |FOOTER| == 3;
    hide Block, Bootstrap, FOOTER, FewLabels;
    FewBody(p, |p.commands|);
    FewLabelsFree(p);
    BodyLength(p, |p.commands|);
  }

  // ----- the harmful clash -----

  lemma LinkResolves(p: Vm.Program, before: seq<Element>, name: string, after: seq<Element>)
    requires AllFit(p.commands) && Link(p) == before + [Label(name)] + after && Label(name) !in after
    ensures Bound(A.SymbolTable(Link(p)), name, |Strip(before)|)
  {
    A.LabelResolves(before, name, after);
    A.VariablesDistinct(Strip(Link(p)), A.LabelTable(Link(p)));
  }

  ghost function ClashCall(): seq<Instruction> {
    SaveCaller(RET) + Reposition(0) + [At(MAIN), GOTO]
  }

  const PUSH_SEVEN: seq<Instruction> := [Num(7), Set(DestD, A)] + PUSH_D

  lemma ClashBlocks()
    ensures AllFit(CLASHING.commands)
    ensures Block(CLASHING, 0) == [Label(MAIN)]
    ensures Block(CLASHING, 1) == Lines([At(RET), GOTO])
    ensures Block(CLASHING, 2) == [Label(RET)]
    ensures Block(CLASHING, 3) == Lines(PUSH_SEVEN) && |PUSH_SEVEN| == 7
    ensures Block(CLASHING, 4) == Lines(ClashCall()) + [Label(RET)] && |ClashCall()| == 47
  {
    var p := CLASHING;
    ClashFunctions();
    RetNames();
    CallLength(RET);
    hide Block, SaveCaller, Reposition, LabelName, ReturnLabel, Vm.FunctionAt, CounterAt, FetchSegment;
    EntryBlock(p, 0);
    JumpBlock(p, 1);
    PlaceBlock(p, 2);
    Simulation.PushBlock(p, 3);
    assert FetchSegment("Main", Vm.Constant, 7) + [LoadOperand(Vm.Constant)] + PUSH_D == PUSH_SEVEN by { Sevens(); }
    CallerBlock(p, 4);
  }

  lemma Sevens()
    ensures FetchSegment("Main", Vm.Constant, 7) + [LoadOperand(Vm.Constant)] + PUSH_D == PUSH_SEVEN
  {
  }

  lemma EntryBlock(p: Vm.Program, i: nat)
    requires i < |p.commands| && p.commands[i].Function? && p.commands[i].nvars == 0
    ensures Fits(p.commands[i]) && Block(p, i) == [Label(p.commands[i].name)]
  {
    assert Lines(PushZeros(0)) == [];
  }

  lemma JumpBlock(p: Vm.Program, i: nat)
    requires i < |p.commands| && p.commands[i].Goto?
    ensures Fits(p.commands[i])
    ensures Block(p, i) == Lines([At(LabelName(Vm.FunctionAt(p.commands, i), p.commands[i].sym)), GOTO])
  {
  }

  lemma PlaceBlock(p: Vm.Program, i: nat)
    requires i < |p.commands| && p.commands[i].Label?
    ensures Fits(p.commands[i]) && Block(p, i) == [Label(LabelName(Vm.FunctionAt(p.commands, i), p.commands[i].sym))]
  {
  }

  lemma CallerBlock(p: Vm.Program, i: nat)
    requires i < |p.commands| && p.commands[i] == Vm.Call(MAIN, 0)
    ensures Fits(p.commands[i])
    ensures var ret := ReturnLabel(Vm.FunctionAt(p.commands, i), CounterAt(p.commands, i));
            Block(p, i) == Lines(SaveCaller(ret) + Reposition(0) + [At(MAIN), GOTO]) + [Label(ret)]
  {
  }

  lemma ClashFunctions()
    ensures forall i :: 1 <= i <= 4 ==> Vm.FunctionAt(CLASHING.commands, i) == MAIN
    ensures CounterAt(CLASHING.commands, 4) == 0
  {
    var cs := CLASHING.commands;
    assert Vm.FunctionAt(cs, 1) == MAIN;
    assert Vm.FunctionAt(cs, 2) == Vm.FunctionAt(cs, 1);
    assert Vm.FunctionAt(cs, 3) == Vm.FunctionAt(cs, 2);
    assert Vm.FunctionAt(cs, 4) == Vm.FunctionAt(cs, 3);
    assert CounterAt(cs, 2) == 0;
    assert CounterAt(cs, 4) == CounterAt(cs, 2);
  }

  lemma ClashAddresses()
    ensures AllFit(CLASHING.commands)
    ensures CodeAddress(CLASHING, 0) == CodeAddress(CLASHING, 1) == 51
    ensures CodeAddress(CLASHING, 2) == CodeAddress(CLASHING, 3) == 53
    ensures CodeAddress(CLASHING, 4) == 60 && CodeAddress(CLASHING, 5) == 107
  {
    ClashBlocks();
    BootstrapLabel("");
    hide Bootstrap, Block, Strip, PUSH_SEVEN, ClashCall;
    var p := CLASHING;
    StripLabel(MAIN);
    StripLabel(RET);
    StripLines([At(RET), GOTO]);
    StripLines(PUSH_SEVEN);
    StripLines(ClashCall());
    StripConcat(Lines(ClashCall()), [Label(RET)]);
    assert Bootstrap() + Body(p, 0) == Bootstrap();
    hide CodeAddress, Body;
    CodeAddressNext(p, 0);
    CodeAddressNext(p, 1);
    CodeAddressNext(p, 2);
    CodeAddressNext(p, 3);
    CodeAddressNext(p, 4);
  }

  lemma ClashTable()
    ensures AllFit(CLASHING.commands)
    ensures var t := A.SymbolTable(Link(CLASHING)); Bound(t, MAIN, 51) && Bound(t, RET, 107) && Bound(t, "_vm_END", 107)
  {
    ClashBlocks();
    ClashAddresses();
    BootstrapLabel("");
    var p := CLASHING;
    hide Bootstrap, Block, Strip, PUSH_SEVEN, ClashCall, A.SymbolTable, Bound, MAIN;
    LinkSplit(p, 0);
    LinkSplit(p, 4);
    LinkSplit(p, 5);
    var jump := Lines([At("_vm_END"), GOTO]);
    assert Tail(p, 5) == FOOTER == [Label("_vm_END")] + jump;
    assert Tail(p, 4) == Lines(ClashCall()) + [Label(RET)] + FOOTER;
    assert Label(MAIN) !in Tail(p, 1) by {
      assert Tail(p, 1) == Block(p, 1) + (Block(p, 2) + (Block(p, 3) + Tail(p, 4)));
      assert MAIN != RET && MAIN != "_vm_END" by { NamesDiffer(); }
    }
    LinkResolves(p, Bootstrap(), MAIN, Tail(p, 1));
    LinkResolves(p, Bootstrap() + Body(p, 4) + Lines(ClashCall()), RET, FOOTER);
    LinkResolves(p, Bootstrap() + Body(p, 5), "_vm_END", jump);
    StripConcat(Bootstrap() + Body(p, 4), Lines(ClashCall()));
    StripLines(ClashCall());
  }

  lemma NamesDiffer()
    ensures MAIN != RET && MAIN != "_vm_END" && RET != "_vm_END"
  {
    assert |MAIN| == 8;
  }

  /** Where the Hack computer can be: in the bootstrap code, at the jump, or in the loop of the footer. */
  ghost predicate Astray(s: Cpu) {
    || (s.pc < 53 && (s.pc == 50 ==> s.a == 51) && (s.pc == 52 ==> s.a == 107))
    || s.pc == 107
    || (s.pc == 108 && s.a == 107)
  }

  lemma ClashCode(prog: seq<Instruction>)
    requires AllFit(CLASHING.commands) && prog == Strip(Link(CLASHING))
    ensures |prog| == 109
    ensures forall i :: 0 <= i < 50 && prog[i].CInst? ==> prog[i].jump.NoJump?
    ensures prog[49] == At(MAIN) && prog[50] == GOTO && prog[51] == At(RET) && prog[52] == GOTO
    ensures prog[107] == At("_vm_END") && prog[108] == GOTO
  {
    ClashBlocks();
    ClashAddresses();
    var p := CLASHING;
    hide Bootstrap, Block, Body, Link, Strip, PUSH_SEVEN, ClashCall, MAIN, CodeAddress;
    BootstrapHasNoJump(p, prog);
    Simulation.BlockStands(p, prog, 1);
    StripLines([At(RET), GOTO]);
    assert prog[51..53] == [At(RET), GOTO];
    FooterStands(p, prog);
  }

  lemma BootstrapHasNoJump(p: Vm.Program, prog: seq<Instruction>)
    requires AllFit(p.commands) && prog == Strip(Link(p))
    ensures |prog| >= 51
    ensures forall i :: 0 <= i < 50 && prog[i].CInst? ==> prog[i].jump.NoJump?
    ensures prog[49] == At(MAIN) && prog[50] == GOTO
  {
    var call := SaveCaller(Compiler.BOOT_RETURN) + Reposition(0);
    Calls.CallStraight(Compiler.BOOT_RETURN, 0);
    CallLength(Compiler.BOOT_RETURN);
    Compiler.SetStackStraight();
    hide Bootstrap, Body, Link, Strip, MAIN, SaveCaller, Reposition, SET_STACK;
    Compiler.BootstrapStands(p, prog);
    assert prog[0..4] == SET_STACK && prog[4..49] == call && prog[49..51] == [At(MAIN), GOTO];
    assert forall i :: 0 <= i < 4 ==> prog[i] == SET_STACK[i];
    assert forall i :: 4 <= i < 49 ==> prog[i] == call[i - 4];
  }

  lemma FooterStands(p: Vm.Program, prog: seq<Instruction>)
    requires AllFit(p.commands) && prog == Strip(Link(p))
    ensures var n := CodeAddress(p, |p.commands|);
            |prog| == n + 2 && prog[n] == At("_vm_END") && prog[n + 1] == GOTO
  {
    hide Bootstrap, Body, Strip;
    StripConcat(Bootstrap() + Body(p, |p.commands|), FOOTER);
    StripConcat([Label("_vm_END")], Lines([At("_vm_END"), GOTO]));
    StripLabel("_vm_END");
    StripLines([At("_vm_END"), GOTO]);
  }

  lemma AstrayStep(prog: seq<Instruction>, env: Env, s: Cpu)
    requires |prog| == 109
    requires forall i :: 0 <= i < 50 && prog[i].CInst? ==> prog[i].jump.NoJump?
    requires prog[49] == At(MAIN) && prog[50] == GOTO && prog[51] == At(RET) && prog[52] == GOTO
    requires prog[107] == At("_vm_END") && prog[108] == GOTO
    requires Bound(env, MAIN, 51) && Bound(env, RET, 107) && Bound(env, "_vm_END", 107)
    requires Astray(s) && Asm.Step(prog, env, s).Some?
    ensures Astray(Asm.Step(prog, env, s).value)
  {
    hide CompValue;
  }

  lemma {:induction false} AstrayRun(prog: seq<Instruction>, env: Env, s: Cpu, n: nat)
    requires |prog| == 109
    requires forall i :: 0 <= i < 50 && prog[i].CInst? ==> prog[i].jump.NoJump?
    requires prog[49] == At(MAIN) && prog[50] == GOTO && prog[51] == At(RET) && prog[52] == GOTO
    requires prog[107] == At("_vm_END") && prog[108] == GOTO
    requires Bound(env, MAIN, 51) && Bound(env, RET, 107) && Bound(env, "_vm_END", 107)
    requires Astray(s) && Asm.Run(prog, env, s, n).Some?
    ensures Astray(Asm.Run(prog, env, s, n).value)
    decreases n
  {
    if n > 0 {
      AstrayStep(prog, env, s);
      AstrayRun(prog, env, Asm.Step(prog, env, s).value, n - 1);
    }
  }

  lemma ClashMachine(v: Vm.State)
    requires v.Valid() && v.pc == 0 && v.top.locals == v.top.stack == [] && Vm.HasRoom(v, 1)
    ensures var r := Vm.Run(CLASHING, v, 4); r.Some? && r.value.pc == 4 && r.value.top.stack == [7]
  {
    var p := CLASHING;
    var s1 := v.(pc := 1);
    assert Vm.Step(p, v) == Some(s1) by { assert seq(0, _ => 0) == []; }
    assert Vm.FunctionAt(p.commands, 1) == MAIN;
    assert Vm.FunctionAt(p.commands, 2) == Vm.FunctionAt(p.commands, 1);
    var s2 := v.(pc := 2);
    assert Vm.Step(p, s1) == Some(s2);
    var s3 := v.(pc := 3);
    assert Vm.Step(p, s2) == Some(s3);
    var s4 := Vm.Step(p, s3).value;
    assert s4.pc == 4 && s4.top.stack == [7];
    hide Vm.Step;
    assert Vm.Run(p, s3, 1) == Vm.Run(p, s4, 0) == Some(s4);
    assert Vm.Run(p, s2, 2) == Vm.Run(p, s3, 1);
    assert Vm.Run(p, s1, 3) == Vm.Run(p, s2, 2);
    assert Vm.Run(p, v, 4) == Vm.Run(p, s1, 3);
  }

  lemma ClashNames()
    ensures AllFit(CLASHING.commands) && |Link(CLASHING)| <= 217
    ensures RegistersFree(CLASHING) && StaticsFree(CLASHING)
  {
    ClashBlocks();
    var p := CLASHING;
    FewCode([At(RET), GOTO]);
    FewCode(PUSH_SEVEN);
    FewCode(ClashCall());
    hide Bootstrap, Block, ClashCall, PUSH_SEVEN;
    FewConcat(Lines(ClashCall()), [Label(RET)]);
    assert forall i | i in {0, 1, 2, 3, 4} :: FewLabels(Block(p, i));
    SmallAndFew(p);
  }

  lemma ClashApart()
    ensures AllFit(CLASHING.commands) && !LabelsTogether(CLASHING)
  {
    var p := CLASHING;
    ClashTable();
    ClashAddresses();
    ClashLabel();
    LabelsPlacedIff(p);
    LabelAt(p, A.SymbolTable(Link(p)), 2, "ret.0");
    hide LabelsTogether, LabelsPlaced, Link, CodeAddress, A.SymbolTable, AllFit;
    assert !LabelsPlaced(p, A.SymbolTable(Link(p)), 2);
  }

  lemma LabelAt(p: Vm.Program, env: Env, i: nat, sym: string)
    requires AllFit(p.commands) && i < |p.commands| && p.commands[i] == Vm.Label(sym)
    ensures LabelsPlaced(p, env, i) <==> Bound(env, LabelName(Vm.FunctionAt(p.commands, i), sym), CodeAddress(p, i))
  {
    hide Bound, CodeAddress, LabelName;
  }

  lemma ClashLabel()
    ensures LabelName(Vm.FunctionAt(CLASHING.commands, 2), "ret.0") == RET
  {
    ClashFunctions();
    RetNames();
  }

  lemma ClashEntry()
    ensures Vm.FunctionEntry(CLASHING, MAIN) == Some(0)
  {
  }

  /** The file is translated and assembled, and nothing is wrong with it but that one clash: the virtual
  machine pushes 7 and arrives at the call, the Hack computer never comes to the call's code. */
  lemma ReturnLabelClash(code: seq<HackCpu.Bits16>, s: Cpu)
    requires AllFit(CLASHING.commands) && A.Assembled(Link(CLASHING), code) && s.pc == 0
    ensures !LabelsTogether(CLASHING)
    ensures RegistersFree(CLASHING) && StaticsFree(CLASHING) && RoomForVariables(CLASHING)
    ensures Vm.FunctionEntry(CLASHING, MAIN).Some?
    ensures var v := Vm.Run(CLASHING, Compiler.Initial(CLASHING, A.SymbolTable(Link(CLASHING)), s.ram), 4);
            v.Some? && v.value.pc == 4 && v.value.top.stack == [7]
    ensures forall n :: var r := HackCpu.Run(code, s, n);
                        r.Some? ==> r.value.pc != CodeAddress(CLASHING, 4)
  {
    var p := CLASHING;
    ClashNames();
    ClashApart();
    ShortProgramsFit(Link(p));
    ClashEntry();
    ClashMachine(Compiler.Initial(p, A.SymbolTable(Link(p)), s.ram));
    ClashAddresses();
    ClashTable();
    ClashCode(Strip(Link(p)));
    hide Link, CodeAddress, A.SymbolTable, A.Assembled, Strip, LabelsTogether, RegistersFree, StaticsFree, Bound,
        Vm.Run;
    forall n: nat
      ensures var r := HackCpu.Run(code, s, n); r.Some? ==> r.value.pc != CodeAddress(p, 4)
    {
      A.AssembledRuns(Link(p), code, s, n);
      if HackCpu.Run(code, s, n).Some? {
        AstrayRun(Strip(Link(p)), A.SymbolTable(Link(p)), s, n);
      }
    }
  }

  /** There are such words. */
  lemma ClashAssembles()
    ensures AllFit(CLASHING.commands) && exists code :: A.Assembled(Link(CLASHING), code)
  {
    var p := CLASHING;
    assert forall i :: 0 <= i < |p.commands| ==> OperandSmall(p.commands[i]);
    ClashNames();
    hide AllFit, OperandSmall, A.Assembled, Link, RegistersFree, StaticsFree;
    SmallFilesAssemble(p);
  }

  // ----- the harmless clash -----

  lemma HarmlessBlocks()
    ensures AllFit(HARMLESS.commands)
    ensures Block(HARMLESS, 0) == [Label(MAIN)]
    ensures Block(HARMLESS, 1) == Lines(ClashCall()) + [Label(RET)] && |ClashCall()| == 47
    ensures Block(HARMLESS, 2) == [Label(RET)]
    ensures Block(HARMLESS, 3) == Lines([At(RET), GOTO])
    ensures Vm.FunctionAt(HARMLESS.commands, 1) == Vm.FunctionAt(HARMLESS.commands, 2) == MAIN
    ensures CounterAt(HARMLESS.commands, 1) == 0
  {
    var p := HARMLESS;
    HarmlessFunctions();
    RetNames();
    CallLength(RET);
    hide Block, SaveCaller, Reposition, LabelName, ReturnLabel, Vm.FunctionAt, CounterAt;
    EntryBlock(p, 0);
    CallerBlock(p, 1);
    PlaceBlock(p, 2);
    JumpBlock(p, 3);
  }

  lemma HarmlessFunctions()
    ensures forall i :: 1 <= i <= 3 ==> Vm.FunctionAt(HARMLESS.commands, i) == MAIN
    ensures CounterAt(HARMLESS.commands, 1) == 0
  {
    var cs := HARMLESS.commands;
    assert Vm.FunctionAt(cs, 1) == MAIN;
    assert Vm.FunctionAt(cs, 2) == Vm.FunctionAt(cs, 1);
    assert Vm.FunctionAt(cs, 3) == Vm.FunctionAt(cs, 2);
  }

  lemma HarmlessNames()
    ensures AllFit(HARMLESS.commands) && |Link(HARMLESS)| <= 217
    ensures RegistersFree(HARMLESS) && StaticsFree(HARMLESS)
  {
    HarmlessBlocks();
    var p := HARMLESS;
    FewCode([At(RET), GOTO]);
    FewCode(ClashCall());
    hide Bootstrap, Block, ClashCall;
    FewConcat(Lines(ClashCall()), [Label(RET)]);
    assert forall i | i in {0, 1, 2, 3} :: FewLabels(Block(p, i));
    SmallAndFew(p);
  }

  lemma HarmlessTable()
    ensures AllFit(HARMLESS.commands)
    ensures var t := A.SymbolTable(Link(HARMLESS));
            Bound(t, MAIN, CodeAddress(HARMLESS, 0)) && Bound(t, RET, CodeAddress(HARMLESS, 2))
  {
    HarmlessBlocks();
    NamesDiffer();
    var p := HARMLESS;
    hide Bootstrap, Block, Strip, ClashCall, A.SymbolTable, Bound, MAIN;
    LinkSplit(p, 0);
    LinkSplit(p, 2);
    assert Tail(p, 4) == FOOTER;
    assert Tail(p, 3) == Block(p, 3) + FOOTER;
    assert Tail(p, 2) == [Label(RET)] + Tail(p, 3);
    assert Tail(p, 0) == [Label(MAIN)] + Tail(p, 1);
    assert Label(MAIN) !in Tail(p, 1) by {
      assert Tail(p, 1) == Block(p, 1) + Tail(p, 2);
    }
    LinkResolves(p, Bootstrap() + Body(p, 0), MAIN, Tail(p, 1));
    LinkResolves(p, Bootstrap() + Body(p, 2), RET, Tail(p, 3));
  }

  /** A shared name with no instruction between its two labels is none of the translator's business:
  the main theorem covers a file that the naming discipline forbids. */
  lemma HarmlessIsAcceptable()
    ensures Compiler.Acceptable(HARMLESS) && !WellNamed(HARMLESS)
  {
    var p := HARMLESS;
    HarmlessBlocks();
    HarmlessTable();
    RetNames();
    CodeAddressNext(p, 0);
    StripLabel(MAIN);
    hide Bootstrap, Block, ClashCall, A.SymbolTable, Bound, Link, CodeAddress, Strip, WellNamed, RegistersFree,
        StaticsFree, RoomForVariables, LabelsTogether;
    forall i | 0 <= i < |p.commands| ensures LabelsPlaced(p, A.SymbolTable(Link(p)), i) {
      assert i == 0 || i == 1 || i == 2 || i == 3;
    }
    LabelsPlacedIff(p);
    HarmlessNames();
    HarmlessRest();
  }

  lemma HarmlessRest()
    ensures AllFit(HARMLESS.commands) && RoomForVariables(HARMLESS) && !WellNamed(HARMLESS)
    ensures Vm.FunctionEntry(HARMLESS, MAIN).Some?
  {
    HarmlessNames();
    ShortProgramsFit(Link(HARMLESS));
    HarmlessEntry();
    NotPlain();
    hide Link, RegistersFree, StaticsFree, PlainLabel, FunctionNameOk;
    assert HARMLESS.commands[2] == Vm.Label("ret.0");
  }

  lemma HarmlessEntry()
    ensures Vm.FunctionEntry(HARMLESS, MAIN) == Some(0)
  {
  }

  lemma NotPlain()
    ensures !PlainLabel("ret.0")
  {
    assert Decimal(0) == "0";
    assert "ret.0" == "ret." + Decimal(0);
  }

  // ----- several files -----

  /** Two files one after the other, as the compiler joins them: each is translated with a counter of its own. */
  ghost function LinkTwo(p: Vm.Program, q: Vm.Program): seq<Element>
    requires AllFit(p.commands) && AllFit(q.commands)
  {
    Bootstrap() + Body(p, |p.commands|) + Body(q, |q.commands|) + FOOTER
  }

  lemma {:induction false} BodyLine(p: Vm.Program, i: nat, n: nat, k: nat)
    requires AllFit(p.commands) && i < n <= |p.commands| && k < |Block(p, i)|
    ensures |Body(p, i)| + k < |Body(p, n)| && Body(p, n)[|Body(p, i)| + k] == Block(p, i)[k]
  {
    hide Block;
    if i < n - 1 {
      BodyLine(p, i, n - 1, k);
    }
  }

  lemma {:induction false} StripSome(es: seq<Element>, k: nat)
    requires k < |es| && es[k].Inst?
    ensures Strip(es) != []
  {
    if k < |es| - 1 {
      StripSome(es[..|es| - 1], k);
    }
  }

  lemma ComparisonLine(p: Vm.Program, i: nat)
    requires i < |p.commands| && Vm.IsComparison(p.commands[i])
    ensures |Block(p, i)| >= 12 && Block(p, i)[11].Inst?
    ensures Block(p, i)[10] == Label(SuccessLabel(CounterAt(p.commands, i)))
  {
    hide SuccessLabel, FailLabel, EndLabel;
  }

  /** If a comparison has the same number in both files, its labels in the first file are not where they
  should be, whatever the files are. */
  lemma FilesClash(p: Vm.Program, q: Vm.Program, i: nat, j: nat)
    requires AllFit(p.commands) && AllFit(q.commands) && i < |p.commands| && j < |q.commands|
    requires Vm.IsComparison(p.commands[i]) && Vm.IsComparison(q.commands[j])
    requires CounterAt(p.commands, i) == CounterAt(q.commands, j)
    ensures var from := |Bootstrap()|;
            && from + |Body(p, |p.commands|)| <= |LinkTwo(p, q)|
            && !A.LabelsResolved(LinkTwo(p, q), from, from + |Body(p, |p.commands|)|)
  {
    hide Block, Bootstrap, Body, FOOTER, A.LabelsResolved, A.DefinitionsTogether, Strip, SuccessLabel, CounterAt,
        AllFit;
    var es, from, here := LinkTwo(p, q), |Bootstrap()|, |Body(p, |p.commands|)|;
    ComparisonLine(p, i);
    ComparisonLine(q, j);
    LineInFirst(p, q, i, 10);
    LineInFirst(p, q, i, 11);
    LineInSecond(p, q, j, 10);
    BodyLine(p, i, |p.commands|, 11);
    var a, b := from + |Body(p, i)| + 10, from + here + |Body(q, j)| + 10;
    assert es[a] == es[b] == Label(SuccessLabel(CounterAt(p.commands, i)));
    assert es[a..b][1] == es[a + 1] == Block(p, i)[11];
    StripSome(es[a..b], 1);
    SeparatedTwice(es, from, from + here, a, b);
    A.LabelsResolvedIff(es, from, from + here);
  }

  lemma LineInFirst(p: Vm.Program, q: Vm.Program, i: nat, k: nat)
    requires AllFit(p.commands) && AllFit(q.commands) && i < |p.commands| && k < |Block(p, i)|
    ensures var line := |Bootstrap()| + |Body(p, i)| + k;
            line < |LinkTwo(p, q)| && LinkTwo(p, q)[line] == Block(p, i)[k]
  {
    hide Block, Bootstrap;
    BodyLine(p, i, |p.commands|, k);
  }

  lemma LineInSecond(p: Vm.Program, q: Vm.Program, j: nat, k: nat)
    requires AllFit(p.commands) && AllFit(q.commands) && j < |q.commands| && k < |Block(q, j)|
    ensures var line := |Bootstrap()| + |Body(p, |p.commands|)| + |Body(q, j)| + k;
            line < |LinkTwo(p, q)| && LinkTwo(p, q)[line] == Block(q, j)[k]
  {
    hide Block, Bootstrap, Body, FOOTER;
    BodyLine(q, j, |q.commands|, k);
    InThird(Bootstrap(), Body(p, |p.commands|), Body(q, |q.commands|), FOOTER, |Body(q, j)| + k);
  }

  lemma InThird<T>(a: seq<T>, b: seq<T>, c: seq<T>, d: seq<T>, k: nat)
    requires k < |c|
    ensures |a| + |b| + k < |a + b + c + d| && (a + b + c + d)[|a| + |b| + k] == c[k]
  {
  }

  lemma SeparatedTwice(es: seq<Element>, from: nat, to: nat, a: nat, b: nat)
    requires from <= a < to <= |es| && a < b < |es| && es[a].Label? && es[b] == es[a] && Strip(es[a..b]) != []
    ensures !A.DefinitionsTogether(es, from, to)
  {
    hide Strip;
  }
}
