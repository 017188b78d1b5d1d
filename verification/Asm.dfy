/** The assembly language of the Hack platform, as the abstract syntax the assembler works on,
and its meaning on a machine whose instructions still carry symbols. */
module Asm {
  import opened Options
  import opened Words

  datatype AInstr = Number(n: Word) | Symbol(name: string)

  datatype Dest = DestNull | DestM | DestD | DestMD | DestA | DestAM | DestAD | DestAMD {
    predicate WritesA() {
      DestA? || DestAM? || DestAD? || DestAMD?
    }
    predicate WritesD() {
      DestD? || DestMD? || DestAD? || DestAMD?
    }
    predicate WritesM() {
      DestM? || DestMD? || DestAM? || DestAMD?
    }
  }

  datatype Comp =
    | Zero | One | NegOne
    | D | A | M
    | NotD | NotA | NotM
    | NegD | NegA | NegM
    | DPlusOne | APlusOne | MPlusOne
    | DMinusOne | AMinusOne | MMinusOne
    | DPlusA | DPlusM
    | DMinusA | DMinusM
    | AMinusD | MMinusD
    | DAndA | DAndM
    | DOrA | DOrM

  datatype Jump = NoJump | JGT | JEQ | JGE | JLT | JNE | JLE | JMP

  /** An instruction; labels are not instructions. */
  datatype Instruction = AInst(a: AInstr) | CInst(dest: Dest, comp: Comp, jump: Jump)

  /** A line of assembly: an instruction or a label. */
  datatype Element = Inst(inst: Instruction) | Label(name: string)

  /** The instructions of a program, labels dropped. */
  function Strip(es: seq<Element>): (r: seq<Instruction>)
    ensures |r| <= |es|
  {
    if es == [] then []
    else if es[|es| - 1].Inst? then Strip(es[..|es| - 1]) + [es[|es| - 1].inst]
    else Strip(es[..|es| - 1])
  }

  lemma {:induction false} StripConcat(a: seq<Element>, b: seq<Element>)
    ensures Strip(a + b) == Strip(a) + Strip(b)
  {
    if b == [] {
      assert a + b == a;
    } else {
      StripConcat(a, b[..|b| - 1]);
      assert (a + b)[..|a + b| - 1] == a + b[..|b| - 1];
    }
  }

  /** 32K words of memory. */
  type Ram = s: seq<Word> | |s| == 0x8000 witness seq(0x8000, _ => 0)

  /** The visible state of the Hack computer (section 4.2 of The Elements of Computing Systems). */
  datatype Cpu = Cpu(a: Word, d: Word, pc: nat, ram: Ram)

  /** The address of M: the A register without its top bit. */
  function Address(a: Word): (r: nat)
    ensures r < 0x8000
    ensures a < 0x8000 ==> r == a
  {
    a % 0x8000
  }

  type Env = map<string, nat>

  /** The value an expression of the language stands for. */
  function CompValue(c: Comp, a: Word, d: Word, m: Word): Word {
    match c
    case Zero => 0
    case One => 1
    case NegOne => 0xFFFF
    case D => d
    case A => a
    case M => m
    case NotD => Not(d)
    case NotA => Not(a)
    case NotM => Not(m)
    case NegD => Neg(d)
    case NegA => Neg(a)
    case NegM => Neg(m)
    case DPlusOne => Add(d, 1)
    case APlusOne => Add(a, 1)
    case MPlusOne => Add(m, 1)
    case DMinusOne => Sub(d, 1)
    case AMinusOne => Sub(a, 1)
    case MMinusOne => Sub(m, 1)
    case DPlusA => Add(d, a)
    case DPlusM => Add(d, m)
    case DMinusA => Sub(d, a)
    case DMinusM => Sub(d, m)
    case AMinusD => Sub(a, d)
    case MMinusD => Sub(m, d)
    case DAndA => And(d, a)
    case DAndM => And(d, m)
    case DOrA => Or(d, a)
    case DOrM => Or(d, m)
  }

  predicate JumpTaken(j: Jump, out: Word) {
    match j
    case NoJump => false
    case JGT => Signed(out) > 0
    case JEQ => Signed(out) == 0
    case JGE => Signed(out) >= 0
    case JLT => Signed(out) < 0
    case JNE => Signed(out) != 0
    case JLE => Signed(out) <= 0
    case JMP => true
  }

  function AValue(a: AInstr, env: Env): Option<Word> {
    match a
    case Number(n) => if n < 0x8000 then Some(n) else None
    case Symbol(name) => if name in env && env[name] < 0x8000 then Some(env[name]) else None
  }

  function ExecC(i: Instruction, s: Cpu): Cpu
    requires i.CInst?
  {
    var out := CompValue(i.comp, s.a, s.d, s.ram[Address(s.a)]);
    Cpu(
      if i.dest.WritesA() then out else s.a,
      if i.dest.WritesD() then out else s.d,
      if JumpTaken(i.jump, out) then Address(s.a) else s.pc + 1,
      if i.dest.WritesM() then s.ram[Address(s.a) := out] else s.ram)
  }

  /** One step of the symbolic program; None outside the program or at a value that has no address. */
  function Step(prog: seq<Instruction>, env: Env, s: Cpu): Option<Cpu> {
    if s.pc >= |prog| then None
    else match prog[s.pc]
      case AInst(a) =>
        var v :- AValue(a, env);
        Some(s.(a := v, pc := s.pc + 1))
      case CInst(_, _, _) => Some(ExecC(prog[s.pc], s))
  }

  function Run(prog: seq<Instruction>, env: Env, s: Cpu, n: nat): Option<Cpu>
    decreases n
  {
    if n == 0 then Some(s)
    else
      var s' :- Step(prog, env, s);
      Run(prog, env, s', n - 1)
  }

  lemma {:induction false} RunConcat(prog: seq<Instruction>, env: Env, s: Cpu, m: nat, n: nat)
    requires Run(prog, env, s, m).Some?
    ensures Run(prog, env, s, m + n) == Run(prog, env, Run(prog, env, s, m).value, n)
    decreases m
  {
    if m > 0 {
      RunConcat(prog, env, Step(prog, env, s).value, m - 1, n);
    }
  }
}
