/** The assembler: symbol resolution in three passes and the encoding of instructions as 16-bit words. */
module Assembler {
  import opened Asm
  import opened HackCpu
  import opened Options
  import opened Words

  /** The symbols known before the first pass. */
  const PREDEFINED: map<string, nat> := map[
    "R0" := 0, "R1" := 1, "R2" := 2, "R3" := 3, "R4" := 4, "R5" := 5, "R6" := 6, "R7" := 7,
    "R8" := 8, "R9" := 9, "R10" := 10, "R11" := 11, "R12" := 12, "R13" := 13, "R14" := 14, "R15" := 15,
    "SP" := 0, "LCL" := 1, "ARG" := 2, "THIS" := 3, "THAT" := 4, "SCREEN" := 16384, "KBD" := 24576]

  // ----- instruction encoding -----

  function CompBits(c: Comp): (r: seq<bool>)
    ensures |r| == 7
  {
    match c
    case Zero => [false, true, false, true, false, true, false]
    case One => [false, true, true, true, true, true, true]
    case NegOne => [false, true, true, true, false, true, false]
    case D => [false, false, false, true, true, false, false]
    case A => [false, true, true, false, false, false, false]
    case M => [true, true, true, false, false, false, false]
    case NotD => [false, false, false, true, true, false, true]
    case NotA => [false, true, true, false, false, false, true]
    case NotM => [true, true, true, false, false, false, true]
    case NegD => [false, false, false, true, true, true, true]
    case NegA => [false, true, true, false, false, true, true]
    case NegM => [true, true, true, false, false, true, true]
    case DPlusOne => [false, false, true, true, true, true, true]
    case APlusOne => [false, true, true, false, true, true, true]
    case MPlusOne => [true, true, true, false, true, true, true]
    case DMinusOne => [false, false, false, true, true, true, false]
    case AMinusOne => [false, true, true, false, false, true, false]
    case MMinusOne => [true, true, true, false, false, true, false]
    case DPlusA => [false, false, false, false, false, true, false]
    case DPlusM => [true, false, false, false, false, true, false]
    case DMinusA => [false, false, true, false, false, true, true]
    case DMinusM => [true, false, true, false, false, true, true]
    case AMinusD => [false, false, false, false, true, true, true]
    case MMinusD => [true, false, false, false, true, true, true]
    case DAndA => [false, false, false, false, false, false, false]
    case DAndM => [true, false, false, false, false, false, false]
    case DOrA => [false, false, true, false, true, false, true]
    case DOrM => [true, false, true, false, true, false, true]
  }

  function DestBits(d: Dest): (r: seq<bool>)
    ensures |r| == 3
  {
    match d
    case DestNull => [false, false, false]
    case DestM => [false, false, true]
    case DestD => [false, true, false]
    case DestMD => [false, true, true]
    case DestA => [true, false, false]
    case DestAM => [true, false, true]
    case DestAD => [true, true, false]
    case DestAMD => [true, true, true]
  }

  function JumpCode(j: Jump): (r: seq<bool>)
    ensures |r| == 3
  {
    match j
    case NoJump => [false, false, false]
    case JGT => [false, false, true]
    case JEQ => [false, true, false]
    case JGE => [false, true, true]
    case JLT => [true, false, false]
    case JNE => [true, false, true]
    case JLE => [true, true, false]
    case JMP => [true, true, true]
  }

  /** n bits of i, the most significant first. */
  function ToBits(n: nat, i: nat): (r: seq<bool>)
    ensures |r| == n
  {
    if n == 0 then [] else ToBits(n - 1, i / 2) + [i % 2 == 1]
  }

  lemma {:induction false} FromToBits(n: nat, i: nat)
    requires i < Pow2(n)
    ensures FromBits(ToBits(n, i)) == i
  {
    if n > 0 {
      FromToBits(n - 1, i / 2);
      assert ToBits(n, i)[..n - 1] == ToBits(n - 1, i / 2);
    }
  }

  /** The binary numeral of i without leading zeros. */
  function BinaryNumeral(i: nat): (r: string)
    ensures |r| >= 1
  {
    if i < 2 then [if i == 1 then '1' else '0']
    else BinaryNumeral(i / 2) + [if i % 2 == 1 then '1' else '0']
  }

  /** The numeral padded with blanks on the left to the given width, as a formatter does it. */
  function Padded(width: nat, i: nat): (r: string) {
    var s := BinaryNumeral(i);
    if |s| >= width then s else seq(width - |s|, _ => ' ') + s
  }

  lemma {:induction false} NumeralLength(width: nat, i: nat)
    requires width >= 1
    ensures |BinaryNumeral(i)| <= width <==> i < Pow2(width)
  {
    if width == 1 {
    } else if i < 2 {
      assert Pow2(width) >= 2 by { Pow2Positive(width - 1); }
    } else {
      NumeralLength(width - 1, i / 2);
    }
  }

  lemma {:induction false} Pow2Positive(n: nat)
    ensures Pow2(n) >= 1
  {
    if n > 0 {
      Pow2Positive(n - 1);
    }
  }

  lemma {:induction false} ToBitsOfZero(n: nat, k: nat)
    requires k < n
    ensures !ToBits(n, 0)[k]
  {
    if k < n - 1 {
      ToBitsOfZero(n - 1, k);
    }
  }

  lemma {:induction false} PaddedDigits(width: nat, i: nat, k: nat)
    requires i < Pow2(width) && k < width
    ensures |Padded(width, i)| == width
    ensures (Padded(width, i)[k] == '1') == ToBits(width, i)[k]
  {
    NumeralLength(width, i);
    if k < width - 1 {
      if i < 2 {
        ToBitsOfZero(width - 1, k);
      } else {
        PaddedDigits(width - 1, i / 2, k);
        NumeralLength(width - 1, i / 2);
      }
    }
  }

  lemma PaddedLength(i: Word)
    ensures |Padded(15, i)| == 15 <==> i < 0x8000
  {
    Pow2Of15();
    NumeralLength(15, i);
    hide BinaryNumeral, Pow2;
  }

  /** The 15 value bits of an A-instruction; None where the assembler panics. */
  method NumberToBinary(i: Word) returns (r: Option<seq<bool>>)
    ensures r.Some? <==> i < 0x8000
    ensures r.Some? ==> r.value == ToBits(15, i) && FromBits(r.value) == i
  {
    hide Padded, BinaryNumeral, Pow2, ToBits, FromBits;
    Pow2Of15();
    PaddedLength(i);
    var digits := new bool[15](_ => false);
    var s := Padded(15, i);
    if |s| != 15 {
      return None;
    }
    for k := 0 to |s|
      invariant forall j :: 0 <= j < k ==> digits[j] == ToBits(15, i)[j]
    {
      PaddedDigits(15, i, k);
      digits[k] := s[k] == '1';
    }
    assert digits[..] == ToBits(15, i);
    FromToBits(15, i);
    r := Some(digits[..]);
  }

  function Encode(i: Instruction, symbols: Env): Option<Bits16> {
    match i
    case AInst(a) =>
      var v :- AValue(a, symbols);
      Some([false] + ToBits(15, v))
    case CInst(dest, comp, jump) =>
      Some([true, true, true] + CompBits(comp) + DestBits(dest) + JumpCode(jump))
  }

  /** The truth table: with the six control bits of an expression the ALU computes that expression. */
  lemma AluComputes(c: Comp, a: Word, d: Word, m: Word)
    ensures Alu(d, if CompBits(c)[0] then m else a, CompBits(c)[1..]) == CompValue(c, a, d, m)
  {
    if c.Zero? || c.One? || c.NegOne? || c.D? || c.NotD? || c.NegD? || c.DPlusOne? || c.DMinusOne? {
      AluComputesConstant(c, a, d, m);
    } else {
      AluComputesOperand(c, a, d, m);
    }
  }

  lemma AluComputesConstant(c: Comp, a: Word, d: Word, m: Word)
    requires c.Zero? || c.One? || c.NegOne? || c.D? || c.NotD? || c.NegD? || c.DPlusOne? || c.DMinusOne?
    ensures Alu(d, a, CompBits(c)[1..]) == CompValue(c, a, d, m)
  {
    hide And, Or;
    BitwiseFacts(d, a);
    AdderFacts(d, a);
    AdderFacts(0xFFFF, 0xFFFF);
  }

  lemma AluComputesOperand(c: Comp, a: Word, d: Word, m: Word)
    requires !(c.Zero? || c.One? || c.NegOne? || c.D? || c.NotD? || c.NegD? || c.DPlusOne? || c.DMinusOne?)
    ensures Alu(d, if CompBits(c)[0] then m else a, CompBits(c)[1..]) == CompValue(c, a, d, m)
  {
    hide And, Or, Add, Sub, Neg;
    var y := if CompBits(c)[0] then m else a;
    BitwiseFacts(d, y);
    BitwiseFacts(y, d);
    AdderFacts(d, y);
    AdderFacts(y, d);
  }

  lemma JumpBitsCorrect(j: Jump, out: Word)
    ensures JumpBits(JumpCode(j), out) == JumpTaken(j, out)
  {
  }

  lemma DestBitsCorrect(d: Dest)
    ensures DestBits(d)[0] == d.WritesA() && DestBits(d)[1] == d.WritesD() && DestBits(d)[2] == d.WritesM()
  {
  }

  /** How the computer takes apart a word of the shape 111 a cccccc ddd jjj. */
  lemma ExecuteFields(c: seq<bool>, d: seq<bool>, j: seq<bool>, s: Cpu)
    requires |c| == 7 && |d| == 3 && |j| == 3
    ensures var out := Alu(s.d, if c[0] then s.ram[Address(s.a)] else s.a, c[1..]);
            Execute([true, true, true] + c + d + j, s) ==
            Cpu(if d[0] then out else s.a,
                if d[1] then out else s.d,
                if JumpBits(j, out) then Address(s.a) else s.pc + 1,
                if d[2] then s.ram[Address(s.a) := out] else s.ram)
  {
    var w: Bits16 := [true, true, true] + c + d + j;
    assert w[4..10] == c[1..];
    assert w[13..] == j;
  }

  /** Executing an encoded instruction is executing the instruction, in every state. */
  lemma EncodeCorrect(i: Instruction, symbols: Env, s: Cpu)
    requires Encode(i, symbols).Some?
    ensures var w := Encode(i, symbols).value;
            Execute(w, s) == if i.AInst? then s.(a := AValue(i.a, symbols).value, pc := s.pc + 1) else ExecC(i, s)
  {
    match i
    case AInst(a) =>
      var v := AValue(a, symbols).value;
      Pow2Of15();
      FromToBits(15, v);
      assert Encode(i, symbols).value[1..] == ToBits(15, v);
    case CInst(dest, comp, jump) =>
      var c, d, j := CompBits(comp), DestBits(dest), JumpCode(jump);
      var out := CompValue(comp, s.a, s.d, s.ram[Address(s.a)]);
      ExecuteFields(c, d, j, s);
      AluComputes(comp, s.a, s.d, s.ram[Address(s.a)]);
      JumpBitsCorrect(jump, out);
      DestBitsCorrect(dest);
  }

  // ----- symbol resolution -----

  /** First pass: each label is bound to the number of instructions before it; a later label of the
  same name wins. */
  function LabelTable(es: seq<Element>): Env {
    if es == [] then PREDEFINED
    else
      var init, last := es[..|es| - 1], es[|es| - 1];
      if last.Label? then LabelTable(init)[last.name := |Strip(init)|] else LabelTable(init)
  }

  predicate MentionsSymbol(i: Instruction) {
    i.AInst? && i.a.Symbol?
  }

  /** Second pass: a symbol that is not yet bound becomes a variable, numbered by the size of the table. */
  function VariableTable(prog: seq<Instruction>, labels: Env): Env {
    if prog == [] then labels
    else
      var t, last := VariableTable(prog[..|prog| - 1], labels), prog[|prog| - 1];
      if MentionsSymbol(last) && last.a.name !in t then t[last.a.name := |t| + 16] else t
  }

  function SymbolTable(es: seq<Element>): Env {
    VariableTable(Strip(es), LabelTable(es))
  }

  /** The instruction counts that the first pass stores fit in 16 bits. */
  ghost predicate LabelsFit(es: seq<Element>) {
    forall i :: 0 <= i < |es| && es[i].Label? ==> |Strip(es[..i])| < 0x1_0000
  }

  /** The variable numbers that the second pass computes fit in 16 bits. */
  ghost predicate VariablesFit(prog: seq<Instruction>, labels: Env) {
    forall i :: 0 <= i < |prog| && MentionsSymbol(prog[i]) ==> |VariableTable(prog[..i], labels)| + 16 < 0x1_0000
  }

  method EncodeInstruction(i: Instruction, symbols: Env) returns (r: Option<Bits16>)
    ensures r == Encode(i, symbols)
  {
    match i
    case AInst(Number(n)) =>
      var b := NumberToBinary(n);
      if b.None? { return None; }
      r := Some([false] + b.value);
    case AInst(Symbol(name)) =>
      if name !in symbols || symbols[name] >= 0x1_0000 { return None; }
      var b := NumberToBinary(symbols[name]);
      if b.None? { return None; }
      r := Some([false] + b.value);
    case CInst(dest, comp, jump) =>
      r := Some([true, true, true] + CompBits(comp) + DestBits(dest) + JumpCode(jump));
  }

  /** First pass: define labels and filter them out. */
  method DefineLabels(es: seq<Element>) returns (ok: bool, symbols: Env, instructions: seq<Instruction>)
    ensures ok <==> LabelsFit(es)
    ensures ok ==> symbols == LabelTable(es) && instructions == Strip(es)
  {
    ok, symbols, instructions := true, PREDEFINED, [];
    assert es[..0] == [];
    for i := 0 to |es|
      invariant ok && symbols == LabelTable(es[..i]) && instructions == Strip(es[..i])
      invariant forall j :: 0 <= j < i && es[j].Label? ==> |Strip(es[..j])| < 0x1_0000
    {
      assert es[..i + 1][..i] == es[..i];
      match es[i]
      case Label(name) =>
        if |instructions| >= 0x1_0000 {
          ok := false;
          return;
        }
        symbols := symbols[name := |instructions|];
      case Inst(inst) =>
        instructions := instructions + [inst];
    }
    assert es[..|es|] == es;
  }

  lemma TableNext(prog: seq<Instruction>, labels: Env, i: nat)
    requires i < |prog|
    ensures var t := VariableTable(prog[..i], labels);
            VariableTable(prog[..i + 1], labels)
            == if MentionsSymbol(prog[i]) && prog[i].a.name !in t then t[prog[i].a.name := |t| + 16] else t
  {
    assert prog[..i + 1][..i] == prog[..i];
  }

  lemma FitsNext(prog: seq<Instruction>, labels: Env, i: nat)
    requires i < |prog|
    ensures VariablesFit(prog[..i + 1], labels)
            <==> VariablesFit(prog[..i], labels)
                 && (MentionsSymbol(prog[i]) ==> |VariableTable(prog[..i], labels)| + 16 < 0x1_0000)
    ensures VariablesFit(prog, labels) ==> VariablesFit(prog[..i + 1], labels)
  {
    hide VariableTable;
    assert forall j :: 0 <= j <= i ==> prog[..i + 1][..j] == prog[..j];
    assert forall j :: 0 <= j <= i ==> prog[..i][..j] == prog[..j];
    assert forall j :: 0 <= j <= i ==> prog[..i + 1][j] == prog[j];
  }

  /** Second pass: define other variables. */
  method DefineVariables(prog: seq<Instruction>, labels: Env) returns (ok: bool, symbols: Env)
    ensures ok <==> VariablesFit(prog, labels)
    ensures ok ==> symbols == VariableTable(prog, labels)
  {
    ok, symbols := true, labels;
    assert prog[..0] == [] && VariableTable([], labels) == labels;
    hide VariableTable, VariablesFit;
    assert VariablesFit([], labels) by { NothingFits(labels); }
    for i := 0 to |prog|
      invariant ok && symbols == VariableTable(prog[..i], labels)
      invariant VariablesFit(prog[..i], labels)
    {
      TableNext(prog, labels, i);
      FitsNext(prog, labels, i);
      if MentionsSymbol(prog[i]) {
        var name := prog[i].a.name;
        var nextAddress := |symbols| + 16;
        if nextAddress >= 0x1_0000 {
          ok := false;
          return;
        }
        if name !in symbols {
          symbols := symbols[name := nextAddress];
        }
      }
    }
    assert prog[..|prog|] == prog;
  }

  lemma NothingFits(labels: Env)
    ensures VariablesFit([], labels)
  {
  }

  /** The words of a program, one for each instruction. */
  ghost predicate EncodedAs(prog: seq<Instruction>, symbols: Env, code: seq<Bits16>) {
    && |code| == |prog|
    && forall i :: 0 <= i < |code| ==> Encode(prog[i], symbols) == Some(code[i])
  }

  /** Third pass: use defined variables. */
  method EncodeAll(prog: seq<Instruction>, symbols: Env) returns (r: Option<seq<Bits16>>)
    ensures r.Some? ==> EncodedAs(prog, symbols, r.value)
    ensures r.None? ==> exists i :: 0 <= i < |prog| && Encode(prog[i], symbols).None?
  {
    var code: seq<Bits16> := [];
    for i := 0 to |prog|
      invariant |code| == i
      invariant forall j :: 0 <= j < i ==> Encode(prog[j], symbols) == Some(code[j])
    {
      var w := EncodeInstruction(prog[i], symbols);
      if w.None? { return None; }
      code := code + [w.value];
    }
    r := Some(code);
  }

  /** The program is assembled to these words. */
  ghost predicate Assembled(es: seq<Element>, code: seq<Bits16>) {
    && LabelsFit(es)
    && VariablesFit(Strip(es), LabelTable(es))
    && EncodedAs(Strip(es), SymbolTable(es), code)
  }

  /** The three passes; None where the assembler reports an error or panics. */
  method Assemble(es: seq<Element>) returns (r: Option<seq<Bits16>>)
    ensures r.Some? ==> Assembled(es, r.value)
    ensures r.None? ==> !exists code :: Assembled(es, code)
  {
    var ok, labels, instructions := DefineLabels(es);
    if !ok { return None; }
    var fit, symbols := DefineVariables(instructions, labels);
    if !fit { return None; }
    r := EncodeAll(instructions, symbols);
  }

  // ----- what the table means -----

  /** A label that is not defined again later stands for the index of the next real instruction. */
  lemma {:induction false} LabelResolves(before: seq<Element>, name: string, after: seq<Element>)
    requires Label(name) !in after
    ensures var t := LabelTable(before + [Label(name)] + after);
            name in t && t[name] == |Strip(before)|
  {
    var es := before + [Label(name)] + after;
    var init := es[..|es| - 1];
    if after == [] {
      assert init == before;
    } else {
      var rest := after[..|after| - 1];
      assert init == before + [Label(name)] + rest;
      assert after[|after| - 1] in after;
      LabelResolves(before, name, rest);
    }
  }

  /** A label stands for its own place exactly when it is the last of its name or no instruction
  comes between it and the last one. */
  lemma LabelResolvesIff(before: seq<Element>, name: string, between: seq<Element>, after: seq<Element>)
    requires Label(name) !in after
    ensures var t := LabelTable(before + [Label(name)] + between + [Label(name)] + after);
            name in t && (t[name] == |Strip(before)| <==> Strip(between) == [])
  {
    var start := before + [Label(name)] + between;
    LabelResolves(start, name, after);
    StripConcat(before + [Label(name)], between);
    StripConcat(before, [Label(name)]);
    assert Strip([Label(name)]) == [];
  }

  /** The label defined in line i stands for its own place. */
  ghost predicate ResolvesAt(es: seq<Element>, i: nat)
    requires i < |es| && es[i].Label?
  {
    var t := SymbolTable(es);
    es[i].name in t && t[es[i].name] == |Strip(es[..i])|
  }

  /** Every label defined in lines from to to - 1 stands for its own place. */
  ghost predicate LabelsResolved(es: seq<Element>, from: nat, to: nat)
    requires to <= |es|
  {
    forall i :: from <= i < to && es[i].Label? ==> ResolvesAt(es, i)
  }

  /** No instruction comes between a definition in those lines and a later one of the same name. */
  ghost predicate DefinitionsTogether(es: seq<Element>, from: nat, to: nat)
    requires to <= |es|
  {
    forall i, j :: from <= i < to && i < j < |es| && es[i].Label? && es[j] == es[i] ==> Strip(es[i..j]) == []
  }

  /** The line that defines a name last is the one the table knows. */
  lemma LastResolves(es: seq<Element>, i: nat)
    requires i < |es| && es[i].Label? && es[i] !in es[i + 1..]
    ensures ResolvesAt(es, i)
  {
    hide LabelTable, VariableTable, Strip;
    assert es == es[..i] + [Label(es[i].name)] + es[i + 1..];
    LabelResolves(es[..i], es[i].name, es[i + 1..]);
    VariablesDistinct(Strip(es), LabelTable(es));
  }

  lemma {:induction false} LastDefinition(es: seq<Element>, i: nat) returns (k: nat)
    requires i < |es| && es[i].Label?
    ensures i <= k < |es| && es[k] == es[i] && es[k] !in es[k + 1..]
    decreases |es| - i
  {
    k := i;
    if es[i] in es[i + 1..] {
      var j :| i < j < |es| && es[j] == es[i];
      k := LastDefinition(es, j);
    }
  }

  lemma StripBetween(es: seq<Element>, i: nat, j: nat)
    requires i <= j <= |es|
    ensures |Strip(es[..j])| == |Strip(es[..i])| + |Strip(es[i..j])|
  {
    assert es[..j] == es[..i] + es[i..j];
    StripConcat(es[..i], es[i..j]);
  }

  /** Labels defined more than once are no harm exactly when no instruction separates the definitions. */
  lemma LabelsResolvedIff(es: seq<Element>, from: nat, to: nat)
    requires to <= |es|
    ensures LabelsResolved(es, from, to) <==> DefinitionsTogether(es, from, to)
  {
    hide Strip, SymbolTable;
    if LabelsResolved(es, from, to) {
      forall i, j | from <= i < to && i < j < |es| && es[i].Label? && es[j] == es[i]
        ensures Strip(es[i..j]) == []
      {
        assert ResolvesAt(es, i);
        var k := LastDefinition(es, j);
        LastResolves(es, k);
        StripBetween(es, i, j);
        StripBetween(es, j, k);
      }
    }
    if DefinitionsTogether(es, from, to) {
      forall i | from <= i < to && es[i].Label?
        ensures ResolvesAt(es, i)
      {
        var k := LastDefinition(es, i);
        LastResolves(es, k);
        if i < k {
          StripBetween(es, i, k);
        }
      }
    }
  }

  /** A predefined symbol keeps its address unless a label takes its name; nothing but labels is added. */
  lemma {:induction false} LabelTableKeys(es: seq<Element>, name: string)
    ensures name in LabelTable(es) <==> name in PREDEFINED || Label(name) in es
    ensures name in PREDEFINED && Label(name) !in es ==> LabelTable(es)[name] == PREDEFINED[name]
  {
    if es != [] {
      var init := es[..|es| - 1];
      LabelTableKeys(init, name);
      assert es == init + [es[|es| - 1]];
    }
  }

  /** The variables numbered on top of the labels: distinct addresses, from the number of labels plus 16 on. */
  ghost predicate Numbered(labels: Env, t: Env) {
    && |labels| <= |t|
    && (forall k :: k in labels ==> k in t && t[k] == labels[k])
    && (forall k :: k in t && k !in labels ==> |labels| + 16 <= t[k] < |t| + 16)
    && (forall k, l :: k in t && l in t && k !in labels && l !in labels && k != l ==> t[k] != t[l])
    && (|labels| < |t| ==> exists k :: k in t && k !in labels && t[k] == |t| + 15)
  }

  lemma NumberedSelf(labels: Env)
    ensures Numbered(labels, labels)
  {
  }

  lemma NumberedNext(labels: Env, t: Env, name: string)
    requires Numbered(labels, t) && name !in t
    ensures Numbered(labels, t[name := |t| + 16])
  {
    var t' := t[name := |t| + 16];
    assert name in t' && t'[name] == |t'| + 15;
  }

  lemma {:induction false} VariablesNumbered(prog: seq<Instruction>, labels: Env)
    ensures Numbered(labels, VariableTable(prog, labels))
  {
    hide Numbered;
    if prog == [] {
      NumberedSelf(labels);
    } else {
      VariablesNumbered(prog[..|prog| - 1], labels);
      var t, last := VariableTable(prog[..|prog| - 1], labels), prog[|prog| - 1];
      if MentionsSymbol(last) && last.a.name !in t {
        NumberedNext(labels, t, last.a.name);
      }
    }
  }

  lemma {:induction false} VariablesAreMentioned(prog: seq<Instruction>, labels: Env, k: string)
    ensures k in VariableTable(prog, labels) <==> k in labels || AInst(Symbol(k)) in prog
  {
    if prog != [] {
      var init := prog[..|prog| - 1];
      VariablesAreMentioned(init, labels, k);
      assert prog == init + [prog[|prog| - 1]];
    }
  }

  /** The second pass binds exactly the symbols the program mentions, leaves labels alone, and gives
  distinct variables distinct addresses, all from the size of the label table plus 16 on. */
  lemma VariablesDistinct(prog: seq<Instruction>, labels: Env)
    ensures var t := VariableTable(prog, labels);
            && |labels| <= |t|
            && (forall k :: k in labels ==> k in t && t[k] == labels[k])
            && (forall k :: k in t && k !in labels ==> |labels| + 16 <= t[k] < |t| + 16)
            && (forall k, l :: k in t && l in t && k !in labels && l !in labels && k != l ==> t[k] != t[l])
            && (forall k :: k in t ==> k in labels || AInst(Symbol(k)) in prog)
            && (forall k :: AInst(Symbol(k)) in prog ==> k in t)
            && (|labels| < |t| ==> exists k :: k in t && k !in labels && t[k] == |t| + 15)
  {
    hide VariableTable;
    VariablesNumbered(prog, labels);
    forall k
      ensures k in VariableTable(prog, labels) <==> k in labels || AInst(Symbol(k)) in prog
    {
      VariablesAreMentioned(prog, labels, k);
    }
  }

  /** Variables start behind the whole symbol table, not at 16: all of them lie below a bound exactly
  when there are none or the final table leaves room for them. */
  lemma VariablesBelow(es: seq<Element>, bound: nat)
    ensures var labels, t := LabelTable(es), SymbolTable(es);
            (forall k :: k in t && k !in labels ==> 39 <= |labels| + 16 <= t[k] < bound)
            <==> |t| == |labels| || |t| + 16 <= bound
  {
    VariablesDistinct(Strip(es), LabelTable(es));
    TableHasPredefined(es);
  }

  const ONE_DIGIT: set<string> := {"R0", "R1", "R2", "R3", "R4", "R5", "R6", "R7", "R8", "R9"}
  const TWO_DIGITS: set<string> := {"R10", "R11", "R12", "R13", "R14", "R15"}
  const NAMED: set<string> := {"SP", "LCL", "ARG", "THIS", "THAT", "SCREEN", "KBD"}

  lemma OneDigitCount()
    ensures |ONE_DIGIT| == 10
    ensures ONE_DIGIT !! TWO_DIGITS
  {
    var a, b := {"R0", "R1", "R2", "R3", "R4"}, {"R5", "R6", "R7", "R8", "R9"};
    assert |a| == 5 && |b| == 5 && a !! b;
    assert ONE_DIGIT == a + b;
    assert forall s :: s in ONE_DIGIT ==> |s| == 2;
    assert forall s :: s in TWO_DIGITS ==> |s| == 3;
  }

  lemma NamedDisjoint()
    ensures ONE_DIGIT + TWO_DIGITS !! NAMED
  {
    assert forall s :: s in ONE_DIGIT ==> |s| > 0 && s[0] == 'R';
    assert forall s :: s in TWO_DIGITS ==> |s| > 0 && s[0] == 'R';
    assert forall s :: s in NAMED ==> |s| > 0 && s[0] != 'R';
  }

  lemma PredefinedKeys()
    ensures PREDEFINED.Keys == ONE_DIGIT + TWO_DIGITS + NAMED
  {
  }

  lemma TwoDigitsCount()
    ensures |TWO_DIGITS| == 6
  {
  }

  lemma NamedCount()
    ensures |NAMED| == 7
  {
  }

  lemma UnionCount(a: set<string>, b: set<string>, c: set<string>)
    requires a !! b && a + b !! c
    ensures |a + b + c| == |a| + |b| + |c|
  {
  }

  lemma PredefinedCount()
    ensures |PREDEFINED| == 23
  {
    PredefinedKeys();
    OneDigitCount();
    TwoDigitsCount();
    NamedCount();
    NamedDisjoint();
    UnionCount(ONE_DIGIT, TWO_DIGITS, NAMED);
    KeysCount(PREDEFINED);
  }

  lemma KeysCount(m: map<string, nat>)
    ensures |m| == |m.Keys|
  {
  }

  lemma {:induction false} TableHasPredefined(es: seq<Element>)
    ensures PREDEFINED.Keys <= LabelTable(es).Keys && |LabelTable(es)| >= 23
  {
    hide PREDEFINED;
    if es == [] {
      PredefinedCount();
    } else {
      TableHasPredefined(es[..|es| - 1]);
    }
  }

  /** Which programs the assembler accepts: the tables fit and every number or address is below 2^15;
  no symbol is ever missing from the table. */
  lemma AcceptedIff(es: seq<Element>)
    ensures (exists code :: Assembled(es, code)) <==>
              && LabelsFit(es)
              && VariablesFit(Strip(es), LabelTable(es))
              && forall i :: 0 <= i < |Strip(es)| && Strip(es)[i].AInst? ==>
                   Operand(Strip(es)[i].a, SymbolTable(es)) < 0x8000
  {
    var prog, t := Strip(es), SymbolTable(es);
    hide LabelTable, VariableTable, Strip, SymbolTable, ToBits, CompBits, DestBits, JumpCode;
    assert forall i :: 0 <= i < |prog| && MentionsSymbol(prog[i]) ==> prog[i].a.name in t by {
      SymbolsBound(es);
    }
    if exists code :: Assembled(es, code) {
      var code :| Assembled(es, code);
      forall i | 0 <= i < |prog| && prog[i].AInst? ensures Operand(prog[i].a, t) < 0x8000 {
        assert Encode(prog[i], t) == Some(code[i]);
      }
    }
    if LabelsFit(es) && VariablesFit(prog, LabelTable(es))
       && forall i :: 0 <= i < |prog| && prog[i].AInst? ==> Operand(prog[i].a, t) < 0x8000 {
      forall i | 0 <= i < |prog| ensures Encode(prog[i], t).Some? {
        assert prog[i].AInst? ==> AValue(prog[i].a, t).Some?;
      }
      var code := seq(|prog|, i requires 0 <= i < |prog| => Encode(prog[i], t).value);
      assert Assembled(es, code);
    }
  }

  function Operand(a: AInstr, t: Env): nat {
    if a.Number? then a.n else if a.name in t then t[a.name] else 0
  }

  /** Every symbol a program mentions is in its table. */
  lemma SymbolsBound(es: seq<Element>)
    ensures forall i :: 0 <= i < |Strip(es)| && MentionsSymbol(Strip(es)[i]) ==> Strip(es)[i].a.name in SymbolTable(es)
  {
    VariablesDistinct(Strip(es), LabelTable(es));
    forall i | 0 <= i < |Strip(es)| && MentionsSymbol(Strip(es)[i])
      ensures Strip(es)[i].a.name in SymbolTable(es)
    {
      assert AInst(Symbol(Strip(es)[i].a.name)) in Strip(es);
    }
  }

  // ----- the assembled words run as the symbolic program -----

  lemma AssembledSteps(es: seq<Element>, code: seq<Bits16>, s: Cpu)
    requires Assembled(es, code)
    ensures HackCpu.Step(code, s) == Asm.Step(Strip(es), SymbolTable(es), s)
  {
    if s.pc < |code| {
      var i := Strip(es)[s.pc];
      assert Encode(i, SymbolTable(es)) == Some(code[s.pc]);
      EncodeCorrect(i, SymbolTable(es), s);
    }
  }

  /** From every state and for every number of steps, the assembled words do what the symbolic program does. */
  lemma {:induction false} AssembledRuns(es: seq<Element>, code: seq<Bits16>, s: Cpu, n: nat)
    requires Assembled(es, code)
    ensures HackCpu.Run(code, s, n) == Asm.Run(Strip(es), SymbolTable(es), s, n)
    decreases n
  {
    hide Assembled, HackCpu.Step, Asm.Step, SymbolTable, Strip;
    if n > 0 {
      AssembledSteps(es, code, s);
      var next := HackCpu.Step(code, s);
      if next.Some? {
        AssembledRuns(es, code, next.value, n - 1);
      }
    }
  }

  // ----- the predefined addresses -----

  /** What the Hack platform defines: the register names with their numbers, five pointers, and where the screen and
  the keyboard are mapped. */
  predicate StandsFor(name: string, address: nat) {
    || (name == "SP" && address == 0) || (name == "LCL" && address == 1) || (name == "ARG" && address == 2)
    || (name == "THIS" && address == 3) || (name == "THAT" && address == 4)
    || (name == "SCREEN" && address == 0x4000) || (name == "KBD" && address == 0x6000)
    || (address < 10 && name == ['R', ('0' as int + address) as char])
    || (10 <= address < 16 && name == ['R', '1', ('0' as int + address - 10) as char])
  }

  lemma PredefinedStands(name: string, address: nat)
    requires StandsFor(name, address)
    ensures name in PREDEFINED && PREDEFINED[name] == address
  {
    if name in {"SP", "LCL", "ARG", "THIS", "THAT", "SCREEN", "KBD"} {
    } else if address < 10 {
      RegisterDigit(address);
    } else {
      RegisterTen(address);
    }
  }

  lemma RegisterDigit(k: nat)
    requires k < 10
    ensures var name := ['R', ('0' as int + k) as char]; name in PREDEFINED && PREDEFINED[name] == k
  {
    var name := ['R', ('0' as int + k) as char];
    if k == 0 { assert name == "R0"; } else if k == 1 { assert name == "R1"; }
    else if k == 2 { assert name == "R2"; } else if k == 3 { assert name == "R3"; }
    else if k == 4 { assert name == "R4"; } else if k == 5 { assert name == "R5"; }
    else if k == 6 { assert name == "R6"; } else if k == 7 { assert name == "R7"; }
    else if k == 8 { assert name == "R8"; } else { assert name == "R9"; }
  }

  lemma RegisterTen(k: nat)
    requires 10 <= k < 16
    ensures var name := ['R', '1', ('0' as int + k - 10) as char]; name in PREDEFINED && PREDEFINED[name] == k
  {
    var name := ['R', '1', ('0' as int + k - 10) as char];
    if k == 10 { assert name == "R10"; } else if k == 11 { assert name == "R11"; }
    else if k == 12 { assert name == "R12"; } else if k == 13 { assert name == "R13"; }
    else if k == 14 { assert name == "R14"; } else { assert name == "R15"; }
  }

  /** In an assembled program the instruction with a predefined symbol loads the address that the platform gives it,
  unless the program takes the name for a label. */
  lemma PredefinedLoaded(es: seq<Element>, code: seq<Bits16>, s: Cpu, name: string, address: nat)
    requires Assembled(es, code) && s.pc < |code| && Strip(es)[s.pc] == AInst(Symbol(name))
    requires StandsFor(name, address) && Label(name) !in es
    ensures HackCpu.Step(code, s) == Some(s.(a := address, pc := s.pc + 1))
  {
    PredefinedStands(name, address);
    LabelTableKeys(es, name);
    VariablesDistinct(Strip(es), LabelTable(es));
    AssembledSteps(es, code, s);
    hide PREDEFINED, StandsFor, Assembled, LabelTable, VariableTable, Strip, HackCpu.Step;
  }
}
