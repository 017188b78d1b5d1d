/** How large the assembler's tables get, and that a small translated file with small constants is accepted. */
module SmallPrograms {
  import opened Asm
  import opened Linking
  import opened Options
  import opened Translator
  import opened Words
  import A = Assembler
  import Vm

  // ----- the size of the tables -----

  /** No program has more symbols than lines besides the predefined ones. */
  lemma {:induction false} TableSize(es: seq<Element>)
    ensures |A.SymbolTable(es)| <= 23 + |es|
  {
    LabelTableSize(es);
    VariableTableSize(Strip(es), A.LabelTable(es));
  }

  lemma {:induction false} LabelTableSize(es: seq<Element>)
    ensures |A.LabelTable(es)| + |Strip(es)| <= 23 + |es|
  {
    hide A.PREDEFINED;
    if es == [] {
      A.PredefinedCount();
    } else {
      LabelTableSize(es[..|es| - 1]);
    }
  }

  lemma {:induction false} VariableTableSize(prog: seq<Instruction>, labels: Env)
    ensures |A.VariableTable(prog, labels)| <= |labels| + |prog|
  {
    if prog != [] {
      VariableTableSize(prog[..|prog| - 1], labels);
    }
  }

  /** A program of at most 217 lines keeps its variables below the stack. */
  lemma ShortProgramsFit(es: seq<Element>)
    requires |es| <= 217
    ensures |A.SymbolTable(es)| + 16 <= Vm.STACK_BASE
  {
    TableSize(es);
  }

  lemma BootstrapLength()
    ensures |Bootstrap()| == 52
  {
    assert |SaveCaller(ReturnLabel("", 0))| == 35;
    assert |Reposition(0)| == 10;
  }

  ghost function LengthUpTo(p: Vm.Program, i: nat): nat
    requires AllFit(p.commands) && i <= |p.commands|
  {
    if i == 0 then 0 else LengthUpTo(p, i - 1) + |Block(p, i - 1)|
  }

  lemma {:induction false} BodyLength(p: Vm.Program, i: nat)
    requires AllFit(p.commands) && i <= |p.commands|
    ensures |Body(p, i)| == LengthUpTo(p, i)
  {
    hide Block;
    if i > 0 {
      BodyLength(p, i - 1);
    }
  }

  // ----- acceptance -----

  ghost predicate NumbersSmall(es: seq<Element>) {
    forall e :: e in es ==> NumberSmall(e)
  }

  predicate NumberSmall(e: Element) {
    e.Inst? && e.inst.AInst? && e.inst.a.Number? ==> e.inst.a.n < 0x8000
  }

  lemma {:induction false} LabelValues(es: seq<Element>, name: string)
    requires |es| < 0x8000 && name in A.LabelTable(es)
    ensures A.LabelTable(es)[name] < 0x8000
  {
    if es != [] {
      var init := es[..|es| - 1];
      if es[|es| - 1] != Label(name) {
        LabelValues(init, name);
      }
    }
  }

  lemma {:induction false} StripFrom(es: seq<Element>, i: Instruction)
    requires i in Strip(es)
    ensures Inst(i) in es
  {
    if es != [] {
      var init := es[..|es| - 1];
      assert es == init + [es[|es| - 1]];
      if i in Strip(init) {
        StripFrom(init, i);
      }
    }
  }

  /** A short program without large numbers is accepted. */
  lemma ShortProgramsAssemble(es: seq<Element>)
    requires |es| <= 217 && NumbersSmall(es)
    ensures exists code :: A.Assembled(es, code)
  {
    hide A.LabelTable, A.VariableTable, Strip, A.Assembled;
    var prog, labels, t := Strip(es), A.LabelTable(es), A.SymbolTable(es);
    A.AcceptedIff(es);
    TableSize(es);
    A.VariablesDistinct(prog, labels);
    forall i | 0 <= i < |prog| && A.MentionsSymbol(prog[i])
      ensures |A.VariableTable(prog[..i], labels)| + 16 < 0x1_0000
    {
      VariableTableSize(prog[..i], labels);
    }
    forall i | 0 <= i < |prog| && prog[i].AInst?
      ensures A.Operand(prog[i].a, t) < 0x8000
    {
      StripFrom(es, prog[i]);
      assert NumberSmall(Inst(prog[i]));
      if prog[i].a.Symbol? && prog[i].a.name in labels {
        LabelValues(es, prog[i].a.name);
      }
    }
  }

  predicate OperandSmall(c: Vm.Command) {
    (c.Push? || c.Pop? ==> c.index < 0x7000) && (c.Call? ==> c.nargs < 0x7000)
  }

  lemma NumbersConcat(a: seq<Element>, b: seq<Element>)
    requires NumbersSmall(a) && NumbersSmall(b)
    ensures NumbersSmall(a + b)
  {
  }

  lemma CallNumbers(name: string, nargs: Word, ret: string)
    requires nargs < 0x7000
    ensures NumbersSmall(CallCode(name, nargs, ret))
  {
  }

  lemma {:induction false} ZerosNumbers(n: nat)
    ensures NumbersSmall(Lines(PushZeros(n)))
  {
    if n > 0 {
      ZerosNumbers(n - 1);
      assert Lines(PushZeros(n)) == Lines(PushZeros(n - 1)) + Lines(PUSH_ZERO);
    }
  }

  lemma ReturnNumbers()
    ensures NumbersSmall(Lines(SAVE_FRAME + RETURN_VALUE + RESTORE_CALLER + JUMP_BACK))
  {
  }

  lemma SegmentNumbers(file: string, segment: Vm.Segment, i: Word, rest: seq<Instruction>)
    requires i < 0x7000 && NumbersSmall(Lines(rest))
    ensures NumbersSmall(Lines(FetchSegment(file, segment, i) + rest))
  {
    var fetch := FetchSegment(file, segment, i);
    assert NumbersSmall(Lines(fetch));
    assert Lines(fetch + rest) == Lines(fetch) + Lines(rest);
  }

  lemma MovesNumbers(p: Vm.Program, i: nat)
    requires i < |p.commands| && Fits(p.commands[i]) && OperandSmall(p.commands[i])
    requires p.commands[i].Push? || p.commands[i].Pop?
    ensures NumbersSmall(Block(p, i))
  {
    hide FetchSegment;
    var segment, n := p.commands[i].segment, p.commands[i].index;
    var fetch := FetchSegment(p.file, segment, n);
    if p.commands[i].Push? {
      SegmentNumbers(p.file, segment, n, [LoadOperand(segment)] + PUSH_D);
      assert fetch + [LoadOperand(segment)] + PUSH_D == fetch + ([LoadOperand(segment)] + PUSH_D);
    } else {
      SegmentNumbers(p.file, segment, n, SAVE_TARGET + POP_D + STORE_TARGET);
      assert fetch + SAVE_TARGET + POP_D + STORE_TARGET == fetch + (SAVE_TARGET + POP_D + STORE_TARGET);
    }
  }

  lemma OperatorNumbers(p: Vm.Program, i: nat)
    requires i < |p.commands| && Fits(p.commands[i]) && (Vm.IsUnary(p.commands[i]) || Vm.IsBinary(p.commands[i]))
    ensures NumbersSmall(Block(p, i))
  {
    hide SuccessLabel, FailLabel, EndLabel, CounterAt;
    var c, k := p.commands[i], CounterAt(p.commands, i);
    if Vm.IsBinary(c) {
      var op := if Vm.IsComparison(c) then ComparisonOp(c, k) else Lines([Set(DestD, ArithmeticComp(c))]);
      assert NumbersSmall(Lines(BINARY_HEAD)) && NumbersSmall(op) && NumbersSmall(Lines(BINARY_TAIL));
    }
  }

  lemma JumpNumbers(p: Vm.Program, i: nat)
    requires i < |p.commands| && (p.commands[i].Label? || p.commands[i].Goto? || p.commands[i].IfGoto?)
    ensures Fits(p.commands[i]) && NumbersSmall(Block(p, i))
  {
    hide LabelName;
  }

  lemma BlockNumbers(p: Vm.Program, i: nat)
    requires i < |p.commands| && Fits(p.commands[i]) && OperandSmall(p.commands[i])
    ensures NumbersSmall(Block(p, i))
  {
    hide CallCode, PushZeros, FetchSegment, SAVE_FRAME, RETURN_VALUE, RESTORE_CALLER, JUMP_BACK;
    var c, ret := p.commands[i], ReturnLabel(Vm.FunctionAt(p.commands, i), CounterAt(p.commands, i));
    match c
    case Push(_, _) => MovesNumbers(p, i);
    case Pop(_, _) => MovesNumbers(p, i);
    case Label(_) => JumpNumbers(p, i);
    case Goto(_) => JumpNumbers(p, i);
    case IfGoto(_) => JumpNumbers(p, i);
    case Function(_, nvars) => ZerosNumbers(nvars);
    case Call(name, nargs) => CallNumbers(name, nargs, ret);
    case Return => ReturnNumbers();
    case _ => OperatorNumbers(p, i);
  }

  lemma {:induction false} BodyNumbers(p: Vm.Program, n: nat)
    requires AllFit(p.commands) && n <= |p.commands| && forall i :: 0 <= i < n ==> OperandSmall(p.commands[i])
    ensures NumbersSmall(Body(p, n))
  {
    hide Block, OperandSmall, NumberSmall;
    if n > 0 {
      BodyNumbers(p, n - 1);
      BlockNumbers(p, n - 1);
    }
  }

  /** A translated file of at most 217 lines whose constants are not near the limit is accepted. */
  lemma SmallFilesAssemble(p: Vm.Program)
    requires AllFit(p.commands) && |Link(p)| <= 217
    requires forall i :: 0 <= i < |p.commands| ==> OperandSmall(p.commands[i])
    ensures exists code :: A.Assembled(Link(p), code)
  {
    hide Body, A.Assembled, OperandSmall, CallCode;
    BodyNumbers(p, |p.commands|);
    CallNumbers(MAIN, 0, ReturnLabel("", 0));
    assert NumbersSmall(Lines(SET_STACK));
    NumbersConcat(Lines(SET_STACK), CallCode(MAIN, 0, ReturnLabel("", 0)));
    assert NumbersSmall(FOOTER);
    hide NumbersSmall, Bootstrap, FOOTER;
    NumbersConcat(Bootstrap(), Body(p, |p.commands|));
    NumbersConcat(Bootstrap() + Body(p, |p.commands|), FOOTER);
    ShortProgramsAssemble(Link(p));
  }
}
