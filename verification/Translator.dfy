/** The translator from virtual-machine commands to assembly. */
module Translator {
  import opened Asm
  import opened Options
  import opened Words
  import Vm

  function At(name: string): Instruction {
    AInst(Symbol(name))
  }

  function Num(n: Word): Instruction {
    AInst(Number(n))
  }

  function Set(dest: Dest, comp: Comp): Instruction {
    CInst(dest, comp, NoJump)
  }

  const GOTO: Instruction := CInst(DestNull, Zero, JMP)

  function Lines(prog: seq<Instruction>): (r: seq<Element>)
    ensures |r| == |prog|
    ensures forall i :: 0 <= i < |r| ==> r[i] == Inst(prog[i])
  {
    seq(|prog|, i requires 0 <= i < |prog| => Inst(prog[i]))
  }

  // ----- names -----

  function Digit(d: nat): char
    requires d < 10
  {
    "0123456789"[d]
  }

  function Decimal(n: nat): string {
    if n < 10 then [Digit(n)] else Decimal(n / 10) + [Digit(n % 10)]
  }

  function StaticName(file: string, index: nat): string {
    file + "." + Decimal(index)
  }

  function LabelName(fn: string, sym: string): string {
    fn + "$" + sym
  }

  function ReturnLabel(fn: string, counter: nat): string {
    fn + "$ret." + Decimal(counter)
  }

  function SuccessLabel(counter: nat): string {
    "_vm_comp_success_" + Decimal(counter)
  }

  function FailLabel(counter: nat): string {
    "_vm_comp_fail_" + Decimal(counter)
  }

  function EndLabel(counter: nat): string {
    "_vm_comp_end_" + Decimal(counter)
  }

  // ----- pieces of code -----

  /** Push D. */
  const PUSH_D: seq<Instruction> :=
    [At("SP"), Set(DestA, M), Set(DestM, D), At("SP"), Set(DestM, MPlusOne)]

  /** A := *base + offset. */
  function FetchOffset(base: string, offset: Word): seq<Instruction> {
    if offset == 0 then [At(base), Set(DestA, M)]
    else [At(base), Set(DestD, M), Num(offset), Set(DestA, DPlusA)]
  }

  /** A := the address of segment[index]; for constants, the constant itself. */
  function FetchSegment(file: string, segment: Vm.Segment, index: Word): seq<Instruction>
    requires segment.Pointer? ==> index + 3 < 0x1_0000
    requires segment.Temp? ==> index + 5 < 0x1_0000
  {
    match segment
    case Argument => FetchOffset("ARG", index)
    case Local => FetchOffset("LCL", index)
    case This => FetchOffset("THIS", index)
    case That => FetchOffset("THAT", index)
    case Static => [At(StaticName(file, index))]
    case Pointer => [Num(index + 3)]
    case Temp => [Num(index + 5)]
    case Constant => [Num(index)]
  }

  function LoadOperand(segment: Vm.Segment): Instruction {
    if segment.Constant? then Set(DestD, A) else Set(DestD, M)
  }

  /** Keep the target address in R13, pop into D, store D at the target. */
  const SAVE_TARGET: seq<Instruction> := [Set(DestD, A), At("R13"), Set(DestM, D)]
  const POP_D: seq<Instruction> := [At("SP"), Set(DestAM, MMinusOne), Set(DestD, M)]
  const STORE_TARGET: seq<Instruction> := [At("R13"), Set(DestA, M), Set(DestM, D)]

  function UnaryComp(c: Vm.Command): Comp
    requires Vm.IsUnary(c)
  {
    if c.Negate? then NegM else NotM
  }

  function UnaryCode(c: Vm.Command): seq<Instruction>
    requires Vm.IsUnary(c)
  {
    [At("SP"), Set(DestA, MMinusOne), Set(DestM, UnaryComp(c))]
  }

  /** Pop the second operand; D := the first, with A at the second. */
  const BINARY_HEAD: seq<Instruction> :=
    [At("SP"), Set(DestM, MMinusOne), Set(DestA, MMinusOne), Set(DestD, M), Set(DestA, APlusOne)]

  /** Replace the top of the stack by D. */
  const BINARY_TAIL: seq<Instruction> := [At("SP"), Set(DestA, MMinusOne), Set(DestM, D)]

  function ArithmeticComp(c: Vm.Command): Comp
    requires Vm.IsBinary(c) && !Vm.IsComparison(c)
  {
    match c
    case Add => DPlusM
    case Subtract => DMinusM
    case And => DAndM
    case _ => DOrM
  }

  function ComparisonJump(c: Vm.Command): Jump
    requires Vm.IsComparison(c)
  {
    match c
    case Equal => JEQ
    case GreaterThan => JGT
    case _ => JLT
  }

  function ComparisonTest(c: Vm.Command, counter: nat): seq<Instruction>
    requires Vm.IsComparison(c)
  {
    [Set(DestD, DMinusM), At(SuccessLabel(counter)), CInst(DestNull, D, ComparisonJump(c)),
     At(FailLabel(counter)), GOTO]
  }

  function ComparisonSuccess(counter: nat): seq<Instruction> {
    [Set(DestD, NegOne), At(EndLabel(counter)), GOTO]
  }

  const COMPARISON_FAIL: seq<Instruction> := [Set(DestD, Zero)]

  function ComparisonOp(c: Vm.Command, counter: nat): seq<Element>
    requires Vm.IsComparison(c)
  {
    Lines(ComparisonTest(c, counter)) + [Label(SuccessLabel(counter))]
    + Lines(ComparisonSuccess(counter)) + [Label(FailLabel(counter))]
    + Lines(COMPARISON_FAIL) + [Label(EndLabel(counter))]
  }

  function BinaryCode(c: Vm.Command, counter: nat): seq<Element>
    requires Vm.IsBinary(c)
  {
    Lines(BINARY_HEAD)
    + (if Vm.IsComparison(c) then ComparisonOp(c, counter) else Lines([Set(DestD, ArithmeticComp(c))]))
    + Lines(BINARY_TAIL)
  }

  /** Push the value of a register of the caller. */
  function PushRegister(reg: string): seq<Instruction> {
    [At(reg), Set(DestD, M)] + PUSH_D
  }

  const PUSH_ZERO: seq<Instruction> := [Num(0), Set(DestD, A)] + PUSH_D

  function PushZeros(n: nat): (r: seq<Instruction>)
    ensures |r| == 7 * n
  {
    if n == 0 then [] else PushZeros(n - 1) + PUSH_ZERO
  }

  /** ARG := SP - 5 - nargs. */
  function SetArg(nargs: Word): seq<Instruction>
    requires nargs + 5 < 0x1_0000
  {
    [At("SP"), Set(DestD, M), Num(nargs + 5), Set(DestD, DMinusA), At("ARG"), Set(DestM, D)]
  }

  /** LCL := SP. */
  const SET_LCL: seq<Instruction> := [At("SP"), Set(DestD, M), At("LCL"), Set(DestM, D)]

  function Reposition(nargs: Word): seq<Instruction>
    requires nargs + 5 < 0x1_0000
  {
    SetArg(nargs) + SET_LCL
  }

  function SaveCaller(returnLabel: string): seq<Instruction> {
    ([At(returnLabel), Set(DestD, A)] + PUSH_D)
    + PushRegister("LCL") + PushRegister("ARG") + PushRegister("THIS") + PushRegister("THAT")
  }

  function CallCode(name: string, nargs: Word, returnLabel: string): seq<Element>
    requires nargs + 5 < 0x1_0000
  {
    Lines(SaveCaller(returnLabel) + Reposition(nargs) + [At(name), GOTO]) + [Label(returnLabel)]
  }

  /** frame := LCL in R13; return address in R14. */
  const SAVE_FRAME: seq<Instruction> :=
    [At("LCL"), Set(DestD, M), At("R13"), Set(DestM, D)]
    + [Num(5), Set(DestA, DMinusA), Set(DestD, M), At("R14"), Set(DestM, D)]

  /** *ARG := pop(), leaving A at ARG; then SP := ARG + 1. */
  const STORE_RESULT: seq<Instruction> :=
    [At("SP"), Set(DestA, MMinusOne), Set(DestD, M), At("ARG"), Set(DestA, M), Set(DestM, D)]
  const DROP_FRAME: seq<Instruction> := [Set(DestD, APlusOne), At("SP"), Set(DestM, D)]
  const RETURN_VALUE: seq<Instruction> := STORE_RESULT + DROP_FRAME

  /** register := *(frame - k). */
  function Restore(reg: string, k: Word): seq<Instruction> {
    [At("R13"), Set(DestD, M), Num(k), Set(DestA, DMinusA), Set(DestD, M), At(reg), Set(DestM, D)]
  }

  const RESTORE_CALLER: seq<Instruction> :=
    Restore("THAT", 1) + Restore("THIS", 2) + Restore("ARG", 3) + Restore("LCL", 4)

  const JUMP_BACK: seq<Instruction> := [At("R14"), Set(DestA, M), GOTO]

  // ----- commands -----

  /** The 16-bit additions of the translator do not overflow. */
  predicate Fits(c: Vm.Command) {
    match c
    case Push(segment, i) => (segment.Pointer? ==> i + 3 < 0x1_0000) && (segment.Temp? ==> i + 5 < 0x1_0000)
    case Pop(segment, i) => (segment.Pointer? ==> i + 3 < 0x1_0000) && (segment.Temp? ==> i + 5 < 0x1_0000)
    case Call(_, nargs) => nargs + 5 < 0x1_0000
    case _ => true
  }

  /** The assembly of one command, given the current function and the label counter. */
  function CommandCode(file: string, c: Vm.Command, fn: string, counter: nat): seq<Element>
    requires Fits(c)
  {
    if Vm.IsUnary(c) then Lines(UnaryCode(c))
    else if Vm.IsBinary(c) then BinaryCode(c, counter)
    else match c
      case Push(segment, i) => Lines(FetchSegment(file, segment, i) + [LoadOperand(segment)] + PUSH_D)
      case Pop(segment, i) => Lines(FetchSegment(file, segment, i) + SAVE_TARGET + POP_D + STORE_TARGET)
      case Label(sym) => [Label(LabelName(fn, sym))]
      case Goto(sym) => Lines([At(LabelName(fn, sym)), GOTO])
      case IfGoto(sym) => Lines(POP_D + [At(LabelName(fn, sym)), CInst(DestNull, D, JNE)])
      case Function(name, nvars) => [Label(name)] + Lines(PushZeros(nvars))
      case Call(name, nargs) => CallCode(name, nargs, ReturnLabel(fn, counter))
      case _ => Lines(SAVE_FRAME + RETURN_VALUE + RESTORE_CALLER + JUMP_BACK)
  }

  predicate UsesCounter(c: Vm.Command) {
    Vm.IsComparison(c) || c.Call?
  }

  /** The label counter before command i. */
  function CounterAt(commands: seq<Vm.Command>, i: nat): nat
    requires i <= |commands|
  {
    if i == 0 then 0 else CounterAt(commands, i - 1) + (if UsesCounter(commands[i - 1]) then 1 else 0)
  }

  ghost predicate AllFit(commands: seq<Vm.Command>) {
    forall i :: 0 <= i < |commands| ==> Fits(commands[i])
  }

  /** The assembly of command i of a file. */
  function Block(p: Vm.Program, i: nat): seq<Element>
    requires i < |p.commands| && Fits(p.commands[i])
  {
    CommandCode(p.file, p.commands[i], Vm.FunctionAt(p.commands, i), CounterAt(p.commands, i))
  }

  /** The assembly of the first i commands of a file. */
  ghost function Body(p: Vm.Program, i: nat): seq<Element>
    requires i <= |p.commands| && AllFit(p.commands)
  {
    if i == 0 then [] else Body(p, i - 1) + Block(p, i - 1)
  }

  /** The translation state: the function being translated and a counter that keeps labels apart. */
  class TranslationState {
    var currentFunctionName: string
    var labelCounter: nat

    constructor ()
      ensures currentFunctionName == "" && labelCounter == 0
    {
      currentFunctionName, labelCounter := "", 0;
    }

    method ComparisonToAsm(c: Vm.Command) returns (lines: seq<Element>)
      requires Vm.IsComparison(c)
      modifies this`labelCounter
      ensures lines == ComparisonOp(c, old(labelCounter))
      ensures labelCounter == old(labelCounter) + 1
    {
      var success, fail, end := SuccessLabel(labelCounter), FailLabel(labelCounter), EndLabel(labelCounter);
      lines := Lines([Set(DestD, DMinusM), At(success), CInst(DestNull, D, ComparisonJump(c)), At(fail), GOTO]);
      lines := lines + [Label(success)] + Lines([Set(DestD, NegOne), At(end), GOTO]);
      lines := lines + [Label(fail)] + Lines([Set(DestD, Zero)]) + [Label(end)];
      labelCounter := labelCounter + 1;
    }

    method FunctionToAsm(name: string, nvars: Word) returns (lines: seq<Element>)
      modifies this`currentFunctionName
      ensures lines == [Label(name)] + Lines(PushZeros(nvars))
      ensures currentFunctionName == name
    {
      currentFunctionName := name;
      lines := [Label(name)];
      for i := 0 to nvars
        invariant lines == [Label(name)] + Lines(PushZeros(i))
      {
        lines := lines + Lines([Num(0), Set(DestD, A)]) + Lines(PUSH_D);
      }
    }

    method CallToAsm(name: string, nargs: Word) returns (lines: seq<Element>)
      requires nargs + 5 < 0x1_0000
      modifies this`labelCounter
      ensures lines == CallCode(name, nargs, ReturnLabel(currentFunctionName, old(labelCounter)))
      ensures labelCounter == old(labelCounter) + 1
    {
      var returnLabel := ReturnLabel(currentFunctionName, labelCounter);
      lines := Lines([At(returnLabel), Set(DestD, A)] + PUSH_D);
      lines := lines + Lines([At("LCL"), Set(DestD, M)] + PUSH_D);
      lines := lines + Lines([At("ARG"), Set(DestD, M)] + PUSH_D);
      lines := lines + Lines([At("THIS"), Set(DestD, M)] + PUSH_D);
      lines := lines + Lines([At("THAT"), Set(DestD, M)] + PUSH_D);
      assert lines == Lines(SaveCaller(returnLabel));
      lines := lines + Lines(Reposition(nargs)) + Lines([At(name), GOTO]);
      lines := lines + [Label(returnLabel)];
      labelCounter := labelCounter + 1;
    }

    /** Translate one command; None where a 16-bit addition of the translator overflows. */
    method CommandToAsm(file: string, c: Vm.Command) returns (r: Option<seq<Element>>)
      modifies this
      ensures r.Some? <==> Fits(c)
      ensures r.Some? ==> r.value == CommandCode(file, c, old(currentFunctionName), old(labelCounter))
      ensures r.Some? ==> currentFunctionName == if c.Function? then c.name else old(currentFunctionName)
      ensures r.Some? ==> labelCounter == old(labelCounter) + if UsesCounter(c) then 1 else 0
    {
      if !Fits(c) { return None; }
      var lines: seq<Element>;
      if Vm.IsComparison(c) {
        var op := ComparisonToAsm(c);
        lines := Lines(BINARY_HEAD) + op + Lines(BINARY_TAIL);
      } else if c.Function? {
        lines := FunctionToAsm(c.name, c.nvars);
      } else if c.Call? {
        lines := CallToAsm(c.name, c.nargs);
      } else {
        lines := CommandCode(file, c, currentFunctionName, labelCounter);
      }
      r := Some(lines);
    }
  }

  method VmToAsm(p: Vm.Program) returns (r: Option<seq<Element>>)
    ensures r.Some? <==> AllFit(p.commands)
    ensures r.Some? ==> r.value == Body(p, |p.commands|)
  {
    var state := new TranslationState();
    var lines: seq<Element> := [];
    for i := 0 to |p.commands|
      invariant fresh(state)
      invariant forall j :: 0 <= j < i ==> Fits(p.commands[j])
      invariant state.currentFunctionName == Vm.FunctionAt(p.commands, i)
      invariant state.labelCounter == CounterAt(p.commands, i)
      invariant AllFit(p.commands) ==> lines == Body(p, i)
    {
      var block := state.CommandToAsm(p.file, p.commands[i]);
      if block.None? { return None; }
      lines := lines + block.value;
    }
    r := Some(lines);
  }

  // ----- whole programs -----

  const MAIN: string := "Sys.init"
  const BOOT_FILE: string := "_vm_bootstrap"
  const SET_STACK: seq<Instruction> := [Num(256), Set(DestD, A), At("SP"), Set(DestM, D)]

  function Bootstrap(): seq<Element> {
    Lines(SET_STACK) + CommandCode(BOOT_FILE, Vm.Call(MAIN, 0), "", 0)
  }

  /** The endless loop after the last command. */
  const FOOTER: seq<Element> := [Label("_vm_END")] + Lines([At("_vm_END"), GOTO])

  /** The assembly program made from one file. */
  ghost function Link(p: Vm.Program): seq<Element>
    requires AllFit(p.commands)
  {
    Bootstrap() + Body(p, |p.commands|) + FOOTER
  }

  /** The index of the first instruction of command i in the assembly program. */
  ghost function CodeAddress(p: Vm.Program, i: nat): nat
    requires i <= |p.commands| && AllFit(p.commands)
  {
    |Strip(Bootstrap() + Body(p, i))|
  }
}
