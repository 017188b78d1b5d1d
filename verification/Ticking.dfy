/** A file that meets every condition of the main theorem and never stops: it calls a function that adds
one to a static variable, over and over. */
module Ticking {
  import opened Asm
  import opened Linking
  import opened Naming
  import opened Options
  import opened SmallPrograms
  import opened Translator
  import A = Assembler
  import Compiler
  import Vm
  import Words

  const TICKING: Vm.Program := Vm.Program("Main",
    [Vm.Function("Sys.init", 0), Vm.Label("L"), Vm.Call("Sys.next", 0), Vm.Pop(Vm.Static, 0), Vm.Goto("L"),
     Vm.Function("Sys.next", 0), Vm.Push(Vm.Static, 0), Vm.Push(Vm.Constant, 1), Vm.Add, Vm.Return])

  // ----- its names and its size -----

  lemma FunctionNamesOk(name: string)
    requires name == "Sys.init" || name == "Sys.next"
    ensures FunctionNameOk("Main", name)
  {
    assert '.' in name && name[0] != '_';
    if name in A.PREDEFINED { PredefinedNames(name); }
    forall k ensures name != StaticName("Main", k) {
      assert name[0] != StaticName("Main", k)[0];
    }
  }

  lemma LabelOk()
    ensures PlainLabel("L")
  {
    forall k ensures "L" != "ret." + Decimal(k) {
      assert |"ret." + Decimal(k)| > 1;
    }
  }

  lemma TickingNames()
    ensures WellNamed(TICKING)
  {
    FunctionNamesOk("Sys.init");
    FunctionNamesOk("Sys.next");
    LabelOk();
    hide FunctionNameOk, PlainLabel, Vm.FunctionAt;
    assert "Sys.init"[4] != "Sys.next"[4];
  }

  lemma CallLines(p: Vm.Program, i: nat)
    requires i < |p.commands| && Fits(p.commands[i]) && p.commands[i].Call?
    ensures |Block(p, i)| == 48
  {
    var ret := ReturnLabel(Vm.FunctionAt(p.commands, i), CounterAt(p.commands, i));
    assert |SaveCaller(ret)| == 35;
    assert |Reposition(p.commands[i].nargs)| == 10;
  }

  lemma ReturnLines(p: Vm.Program, i: nat)
    requires i < |p.commands| && p.commands[i].Return?
    ensures Fits(p.commands[i]) && |Block(p, i)| == 49
  {
    assert |SAVE_FRAME| == 9 && |RETURN_VALUE| == 9;
    assert |RESTORE_CALLER| == 28 && |JUMP_BACK| == 3;
  }

  lemma OneLine(p: Vm.Program, i: nat)
    requires i < |p.commands|
    requires p.commands[i].Label? || (p.commands[i].Function? && p.commands[i].nvars == 0)
    ensures Fits(p.commands[i]) && |Block(p, i)| == 1
  {
  }

  lemma GotoLines(p: Vm.Program, i: nat)
    requires i < |p.commands| && p.commands[i].Goto?
    ensures Fits(p.commands[i]) && |Block(p, i)| == 2
  {
  }

  lemma MoveLines(p: Vm.Program, i: nat)
    requires i < |p.commands| && (p.commands[i].Push? || p.commands[i].Pop?)
    requires p.commands[i].segment.Static? || p.commands[i].segment.Constant?
    ensures Fits(p.commands[i]) && |Block(p, i)| <= 10
  {
    hide StaticName;
  }

  lemma AddLines(p: Vm.Program, i: nat)
    requires i < |p.commands| && p.commands[i].Add?
    ensures Fits(p.commands[i]) && |Block(p, i)| <= 10
  {
  }

  lemma TickingBlocks()
    ensures AllFit(TICKING.commands)
    ensures forall i | i in {0, 1, 5} :: |Block(TICKING, i)| == 1
    ensures |Block(TICKING, 2)| == 48 && |Block(TICKING, 4)| == 2 && |Block(TICKING, 9)| == 49
    ensures forall i | i in {3, 6, 7, 8} :: |Block(TICKING, i)| <= 10
  {
    var p := TICKING;
    hide Block;
    assert AllFit(p.commands);
    OneLine(p, 0);
    OneLine(p, 1);
    CallLines(p, 2);
    MoveLines(p, 3);
    GotoLines(p, 4);
    OneLine(p, 5);
    MoveLines(p, 6);
    MoveLines(p, 7);
    AddLines(p, 8);
    ReturnLines(p, 9);
  }

  lemma TickingLength()
    ensures AllFit(TICKING.commands) && |Link(TICKING)| <= 217
  {
    var p := TICKING;
    TickingBlocks();
    BodyLength(p, 10);
    BootstrapLength();
    assert |FOOTER| == 3;
    hide Bootstrap, Body, Block, FOOTER, AllFit;
    assert LengthUpTo(p, 3) == LengthUpTo(p, 0) + 50;
    assert LengthUpTo(p, 6) <= LengthUpTo(p, 3) + 13;
    assert LengthUpTo(p, 9) <= LengthUpTo(p, 6) + 30;
  }

  lemma SmallOperands()
    ensures forall i :: 0 <= i < |TICKING.commands| ==> OperandSmall(TICKING.commands[i])
  {
  }

  lemma SmallAndNamed(p: Vm.Program)
    requires AllFit(p.commands) && |Link(p)| <= 217 && WellNamed(p) && Vm.FunctionEntry(p, MAIN).Some?
    requires forall i :: 0 <= i < |p.commands| ==> OperandSmall(p.commands[i])
    ensures Compiler.Acceptable(p)
    ensures exists code :: A.Assembled(Link(p), code)
  {
    hide Link, WellNamed, NamesApart, OperandSmall, AllFit, A.Assembled, Vm.FunctionEntry;
    WellNamedApart(p);
    ShortProgramsFit(Link(p));
    SmallFilesAssemble(p);
  }

  lemma TickingAssembles()
    ensures Compiler.Acceptable(TICKING)
    ensures exists code :: A.Assembled(Link(TICKING), code)
  {
    TickingNames();
    TickingLength();
    SmallOperands();
    TickingEntry();
    hide Link, WellNamed, NamesApart, OperandSmall, AllFit, A.Assembled, Vm.FunctionEntry, Compiler.Acceptable;
    SmallAndNamed(TICKING);
  }

  lemma TickingEntry()
    ensures Vm.FunctionEntry(TICKING, MAIN) == Some(0) && Vm.FunctionEntry(TICKING, "Sys.next") == Some(5)
  {
    assert TICKING.commands[0].name == MAIN;
    assert "Sys.init"[4] != "Sys.next"[4];
  }

  // ----- it never stops -----

  predicate Fresh(f: Vm.Frame, n: nat) {
    f.args == [] && f.locals == [] && |f.stack| == n
  }

  /** The activations and the depth of the working stack at each command. */
  predicate Going(v: Vm.State) {
    && v.Valid() && 0 in v.statics
    && if v.pc < 5 then v.callers.Bottom? && Fresh(v.top, if v.pc == 3 then 1 else 0)
       else
         && v.pc < 10 && v.top.ret == 3
         && v.callers.Frames? && v.callers.outer.Bottom? && Fresh(v.callers.inner, 0)
         && Fresh(v.top, if v.pc < 7 then 0 else if v.pc == 8 then 2 else 1)
  }

  lemma GoingStep(v: Vm.State)
    requires Going(v)
    ensures var r := Vm.Step(TICKING, v); r.Some? && Going(r.value)
  {
    var p := TICKING;
    TickingEntry();
    hide Vm.FunctionEntry, Vm.LabelTarget, Words.Add;
    assert seq(0, _ => 0) == [];
    if v.pc == 4 {
      TickingLabel();
    }
    assert v.pc >= 5 ==> Vm.Depth(v.callers) == Vm.Depth(Vm.Bottom) + 5;
  }

  lemma TickingLabel()
    ensures Vm.LabelTarget(TICKING, Vm.FunctionAt(TICKING.commands, 4), "L") == Some(1)
  {
    var cs := TICKING.commands;
    assert Vm.FunctionAt(cs, 1) == "Sys.init";
    assert Vm.FunctionAt(cs, 2) == Vm.FunctionAt(cs, 1);
    assert Vm.FunctionAt(cs, 3) == Vm.FunctionAt(cs, 2);
    assert Vm.FunctionAt(cs, 4) == Vm.FunctionAt(cs, 3);
  }

  lemma {:induction false} GoingRun(v: Vm.State, k: nat)
    requires Going(v)
    ensures Vm.Run(TICKING, v, k).Some?
    decreases k
  {
    hide Vm.Step;
    if k > 0 {
      GoingStep(v);
      GoingRun(Vm.Step(TICKING, v).value, k - 1);
    }
  }

  /** The conditions of the main theorem are met by a file with calls, returns and a static variable, and
  the run it speaks of goes on for ever. */
  lemma TickingForEver(ram: Ram, k: nat)
    ensures Compiler.Acceptable(TICKING)
    ensures exists code :: A.Assembled(Link(TICKING), code)
    ensures Vm.FunctionEntry(TICKING, MAIN).Some?
    ensures Vm.Run(TICKING, Compiler.Initial(TICKING, A.SymbolTable(Link(TICKING)), ram), k).Some?
  {
    TickingAssembles();
    TickingLength();
    TickingEntry();
    UsesStaticZero();
    hide Link, A.SymbolTable, Compiler.StaticIndices, Vm.FunctionEntry, Vm.Run, Compiler.Acceptable, A.Assembled,
        AllFit;
    GoingRun(Compiler.Initial(TICKING, A.SymbolTable(Link(TICKING)), ram), k);
  }

  lemma UsesStaticZero()
    ensures 0 in Compiler.StaticIndices(TICKING)
  {
    assert Compiler.UsesStatic(TICKING.commands[3]) && TICKING.commands[3].index == 0;
  }
}
