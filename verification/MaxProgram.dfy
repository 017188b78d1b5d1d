/** A program that comes with its machine code: Max.asm assembles to exactly the words of Max.hack. */
module MaxProgram {
  import opened Asm
  import opened HackCpu
  import opened Options
  import opened SmallPrograms
  import opened Words
  import A = Assembler

  function At(name: string): Element {
    Inst(AInst(Symbol(name)))
  }

  function Compute(dest: Dest, comp: Comp, jump: Jump): Element {
    Inst(CInst(dest, comp, jump))
  }

  /** The program up to its first label, and its other three parts. */
  function Compare(): seq<Element> {
    [At("R0"), Compute(DestD, M, NoJump), At("R1"), Compute(DestD, DMinusM, NoJump),
     At("OUTPUT_FIRST"), Compute(DestNull, D, JGT),
     At("R1"), Compute(DestD, M, NoJump), At("OUTPUT_D"), Compute(DestNull, Zero, JMP)]
  }

  function OutputFirst(): seq<Element> {
    [At("R0"), Compute(DestD, M, NoJump)]
  }

  function OutputD(): seq<Element> {
    [At("R2"), Compute(DestM, D, NoJump)]
  }

  function Forever(): seq<Element> {
    [At("INFINITE_LOOP"), Compute(DestNull, Zero, JMP)]
  }

  function Max(): seq<Element> {
    Compare() + [Label("OUTPUT_FIRST")] + OutputFirst() + [Label("OUTPUT_D")] + OutputD() + [Label("INFINITE_LOOP")]
    + Forever()
  }

  const MAX_HACK: seq<string> := [
    "0000000000000000", "1111110000010000", "0000000000000001", "1111010011010000",
    "0000000000001010", "1110001100000001", "0000000000000001", "1111110000010000",
    "0000000000001100", "1110101010000111", "0000000000000000", "1111110000010000",
    "0000000000000010", "1110001100001000", "0000000000001110", "1110101010000111"]

  /** A line of machine code as a word. */
  function Word16(line: string): (b: seq<bool>)
    ensures |b| == |line|
  {
    seq(|line|, i requires 0 <= i < |line| => line[i] == '1')
  }

  predicate Bound(env: Env, name: string, address: nat) {
    name in env && env[name] == address
  }

  /** What the symbols of the program stand for. */
  predicate MaxBound(env: Env) {
    && Bound(env, "R0", 0) && Bound(env, "R1", 1) && Bound(env, "R2", 2)
    && Bound(env, "OUTPUT_FIRST", 10) && Bound(env, "OUTPUT_D", 12) && Bound(env, "INFINITE_LOOP", 14)
  }

  lemma {:induction false} StripInsts(es: seq<Element>)
    requires forall i :: 0 <= i < |es| ==> es[i].Inst?
    ensures |Strip(es)| == |es| && forall i :: 0 <= i < |es| ==> Strip(es)[i] == es[i].inst
  {
    if es != [] {
      StripInsts(es[..|es| - 1]);
    }
  }

  lemma StripPart(a: seq<Element>, name: string, b: seq<Element>)
    requires forall i :: 0 <= i < |b| ==> b[i].Inst?
    ensures |Strip(a + [Label(name)])| == |Strip(a)|
    ensures var all := Strip(a + [Label(name)] + b);
            && |all| == |Strip(a)| + |b| && all[..|Strip(a)|] == Strip(a)
            && forall i :: 0 <= i < |b| ==> all[|Strip(a)| + i] == b[i].inst
  {
    hide Strip;
    StripConcat(a, [Label(name)]);
    StripLabel(name);
    StripConcat(a + [Label(name)], b);
    StripInsts(b);
  }

  lemma StripLabel(name: string)
    ensures Strip([Label(name)]) == []
  {
  }

  /** The symbol stands where its one label puts it. */
  lemma LabelBound(es: seq<Element>, before: seq<Element>, name: string, after: seq<Element>)
    requires es == before + [Label(name)] + after && Label(name) !in after
    ensures Bound(A.SymbolTable(es), name, |Strip(before)|)
  {
    A.LabelResolves(before, name, after);
    A.VariablesDistinct(Strip(es), A.LabelTable(es));
    hide A.LabelTable, A.VariableTable, Strip;
  }

  lemma RegisterBound(es: seq<Element>, name: string, address: nat)
    requires A.StandsFor(name, address) && Label(name) !in es
    ensures Bound(A.SymbolTable(es), name, address)
  {
    A.PredefinedStands(name, address);
    A.LabelTableKeys(es, name);
    A.VariablesDistinct(Strip(es), A.LabelTable(es));
    hide A.LabelTable, A.VariableTable, Strip, A.PREDEFINED;
  }

  /** The symbols of the program, and its instructions. */
  lemma MaxSymbols()
    ensures MaxBound(A.SymbolTable(Max()))
    ensures Strip(Max()) == MaxCode()
  {
    hide Strip, A.SymbolTable;
    var a := Compare();
    var b := a + [Label("OUTPUT_FIRST")] + OutputFirst();
    var c := b + [Label("OUTPUT_D")] + OutputD();
    StripInsts(a);
    StripPart(a, "OUTPUT_FIRST", OutputFirst());
    StripPart(b, "OUTPUT_D", OutputD());
    StripPart(c, "INFINITE_LOOP", Forever());
    LabelBound(Max(), a, "OUTPUT_FIRST", OutputFirst() + [Label("OUTPUT_D")] + OutputD() + [Label("INFINITE_LOOP")]
                                         + Forever());
    LabelBound(Max(), b, "OUTPUT_D", OutputD() + [Label("INFINITE_LOOP")] + Forever());
    LabelBound(Max(), c, "INFINITE_LOOP", Forever());
    RegisterBound(Max(), "R0", 0);
    RegisterBound(Max(), "R1", 1);
    RegisterBound(Max(), "R2", 2);
  }

  function Instructions(es: seq<Element>): seq<Instruction>
    requires forall i :: 0 <= i < |es| ==> es[i].Inst?
  {
    seq(|es|, i requires 0 <= i < |es| => es[i].inst)
  }

  function MaxCode(): seq<Instruction> {
    Instructions(Compare() + OutputFirst() + OutputD() + Forever())
  }

  lemma LastBit(n: nat, v: nat)
    requires n > 0
    ensures A.ToBits(n, v) == A.ToBits(n - 1, v / 2) + [v % 2 == 1]
  {
  }

  lemma {:induction false} Zeros(n: nat)
    ensures forall i :: 0 <= i < n ==> !A.ToBits(n, 0)[i]
  {
    if n > 0 {
      Zeros(n - 1);
    }
  }

  /** The word of a small number, by its last four bits. */
  lemma SmallBits(v: nat, b3: bool, b2: bool, b1: bool, b0: bool)
    requires v == (if b3 then 8 else 0) + (if b2 then 4 else 0) + (if b1 then 2 else 0) + if b0 then 1 else 0
    ensures [false] + A.ToBits(15, v) == seq(12, _ => false) + [b3, b2, b1, b0]
  {
    hide A.ToBits;
    LastBit(15, v);
    LastBit(14, v / 2);
    LastBit(13, v / 2 / 2);
    LastBit(12, v / 2 / 2 / 2);
    assert v / 2 / 2 / 2 / 2 == 0;
    Zeros(11);
    assert [false] + A.ToBits(11, 0) == seq(12, _ => false);
  }

  lemma SmallWord(line: string)
    requires |line| == 16 && forall i :: 0 <= i < 12 ==> line[i] == '0'
    ensures Word16(line) == seq(12, _ => false) + [line[12] == '1', line[13] == '1', line[14] == '1', line[15] == '1']
  {
  }

  /** What an instruction that loads a small address is encoded as. */
  lemma LoadWord(env: Env, name: string, v: nat, line: string)
    requires Bound(env, name, v) && v < 0x8000 && |line| == 16 && forall i :: 0 <= i < 12 ==> line[i] == '0'
    requires v == (if line[12] == '1' then 8 else 0) + (if line[13] == '1' then 4 else 0)
                  + (if line[14] == '1' then 2 else 0) + if line[15] == '1' then 1 else 0
    ensures A.Encode(AInst(Symbol(name)), env) == Some(Word16(line))
  {
    hide A.ToBits, Word16;
    SmallBits(v, line[12] == '1', line[13] == '1', line[14] == '1', line[15] == '1');
    SmallWord(line);
  }

  lemma ComputeWord(env: Env, d: Dest, c: Comp, j: Jump, line: string)
    requires |line| == 16 && line[0] == line[1] == line[2] == '1'
    requires forall i :: 0 <= i < 7 ==> (A.CompBits(c)[i] <==> line[3 + i] == '1')
    requires forall i :: 0 <= i < 3 ==> (A.DestBits(d)[i] <==> line[10 + i] == '1')
    requires forall i :: 0 <= i < 3 ==> (A.JumpCode(j)[i] <==> line[13 + i] == '1')
    ensures A.Encode(CInst(d, c, j), env) == Some(Word16(line))
  {
    hide A.CompBits, A.DestBits, A.JumpCode;
    var bits := [true, true, true] + A.CompBits(c) + A.DestBits(d) + A.JumpCode(j);
    assert forall i :: 0 <= i < 16 ==> bits[i] == Word16(line)[i];
    assert bits == Word16(line);
  }

  /** The five words that compute. */
  lemma ComputeWords(env: Env)
    ensures A.Encode(CInst(DestD, M, NoJump), env) == Some(Word16("1111110000010000"))
    ensures A.Encode(CInst(DestD, DMinusM, NoJump), env) == Some(Word16("1111010011010000"))
    ensures A.Encode(CInst(DestNull, D, JGT), env) == Some(Word16("1110001100000001"))
    ensures A.Encode(CInst(DestNull, Zero, JMP), env) == Some(Word16("1110101010000111"))
    ensures A.Encode(CInst(DestM, D, NoJump), env) == Some(Word16("1110001100001000"))
  {
    hide A.Encode, Word16;
    ComputeWord(env, DestD, M, NoJump, "1111110000010000");
    ComputeWord(env, DestD, DMinusM, NoJump, "1111010011010000");
    ComputeWord(env, DestNull, D, JGT, "1110001100000001");
    ComputeWord(env, DestNull, Zero, JMP, "1110101010000111");
    ComputeWord(env, DestM, D, NoJump, "1110001100001000");
  }

  /** The six words that load an address. */
  lemma LoadWords(env: Env)
    requires MaxBound(env)
    ensures A.Encode(AInst(Symbol("R0")), env) == Some(Word16("0000000000000000"))
    ensures A.Encode(AInst(Symbol("R1")), env) == Some(Word16("0000000000000001"))
    ensures A.Encode(AInst(Symbol("R2")), env) == Some(Word16("0000000000000010"))
    ensures A.Encode(AInst(Symbol("OUTPUT_FIRST")), env) == Some(Word16("0000000000001010"))
    ensures A.Encode(AInst(Symbol("OUTPUT_D")), env) == Some(Word16("0000000000001100"))
    ensures A.Encode(AInst(Symbol("INFINITE_LOOP")), env) == Some(Word16("0000000000001110"))
  {
    hide A.Encode, Word16;
    LoadWord(env, "R0", 0, "0000000000000000");
    LoadWord(env, "R1", 1, "0000000000000001");
    LoadWord(env, "R2", 2, "0000000000000010");
    LoadWord(env, "OUTPUT_FIRST", 10, "0000000000001010");
    LoadWord(env, "OUTPUT_D", 12, "0000000000001100");
    LoadWord(env, "INFINITE_LOOP", 14, "0000000000001110");
  }

  lemma MaxWord(env: Env, i: nat)
    requires MaxBound(env) && i < 16
    ensures |MaxCode()| == 16 && A.Encode(MaxCode()[i], env) == Some(Word16(MAX_HACK[i]))
  {
    hide A.Encode, Word16;
    ComputeWords(env);
    LoadWords(env);
  }

  /** The assembler accepts Max.asm, and gives exactly the words of Max.hack. */
  lemma MaxAssembles(code: seq<Bits16>)
    ensures exists c :: A.Assembled(Max(), c)
    ensures A.Assembled(Max(), code) ==> |code| == 16 && forall i :: 0 <= i < 16 ==> code[i] == Word16(MAX_HACK[i])
  {
    hide A.SymbolTable, Strip, A.LabelTable, A.VariableTable, A.Encode, MaxCode, Word16;
    MaxSymbols();
    assert NumbersSmall(Max());
    ShortProgramsAssemble(Max());
    MaxWord(A.SymbolTable(Max()), 0);
    forall i: nat | i < 16
      ensures A.Encode(MaxCode()[i], A.SymbolTable(Max())) == Some(Word16(MAX_HACK[i]))
    {
      MaxWord(A.SymbolTable(Max()), i);
    }
  }
}
