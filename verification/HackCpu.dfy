/** The Hack computer: instruction memory of 16-bit words, fetched, decoded and executed bit by bit
(sections 2.2.2 and 4.2 of The Elements of Computing Systems). */
module HackCpu {
  import opened Asm
  import opened Options
  import opened Words

  /** 16 bits, the most significant first. */
  type Bits16 = b: seq<bool> | |b| == 16 witness seq(16, _ => false)

  /** The number a row of bits stands for, the most significant bit first. */
  function FromBits(b: seq<bool>): (r: nat)
    ensures r < Pow2(|b|)
  {
    if b == [] then 0
    else 2 * FromBits(b[..|b| - 1]) + (if b[|b| - 1] then 1 else 0)
  }

  /** The ALU, with control bits zx, nx, zy, ny, f, no. */
  function Alu(x: Word, y: Word, c: seq<bool>): Word
    requires |c| == 6
  {
    var x1: Word := if c[0] then 0 else x;
    var x2: Word := if c[1] then Not(x1) else x1;
    var y1: Word := if c[2] then 0 else y;
    var y2: Word := if c[3] then Not(y1) else y1;
    var out := if c[4] then Add(x2, y2) else And(x2, y2);
    if c[5] then Not(out) else out
  }

  /** The three jump bits select the negative, zero and positive outcome. */
  predicate JumpBits(j: seq<bool>, out: Word)
    requires |j| == 3
  {
    (j[0] && Signed(out) < 0) || (j[1] && out == 0) || (j[2] && Signed(out) > 0)
  }

  /** Decode and execute one word. */
  function Execute(w: Bits16, s: Cpu): Cpu {
    if !w[0] then
      Pow2Of15();
      s.(a := FromBits(w[1..]), pc := s.pc + 1)
    else
      var y := if w[3] then s.ram[Address(s.a)] else s.a;
      var out := Alu(s.d, y, w[4..10]);
      Cpu(
        if w[10] then out else s.a,
        if w[11] then out else s.d,
        if JumpBits(w[13..], out) then Address(s.a) else s.pc + 1,
        if w[12] then s.ram[Address(s.a) := out] else s.ram)
  }

  lemma Pow2Of15()
    ensures Pow2(15) == 0x8000
  {
    Pow2Of16();
  }

  function Step(rom: seq<Bits16>, s: Cpu): Option<Cpu> {
    if s.pc >= |rom| then None else Some(Execute(rom[s.pc], s))
  }

  function Run(rom: seq<Bits16>, s: Cpu, n: nat): Option<Cpu>
    decreases n
  {
    if n == 0 then Some(s)
    else
      var s' :- Step(rom, s);
      Run(rom, s', n - 1)
  }
}
