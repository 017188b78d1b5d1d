/** Running straight-line pieces of translated code, and what each piece does to the machine. */
module Execution {
  import opened Asm
  import opened Linking
  import opened Options
  import opened Translator
  import opened Words
  import Vm

  /** One instruction without a jump, every symbol being bound. */
  function Exec1(i: Instruction, env: Env, s: Cpu): Cpu {
    match i
    case AInst(a) => s.(a := if AValue(a, env).Some? then AValue(a, env).value else 0, pc := s.pc + 1)
    case CInst(_, _, _) => ExecC(i, s)
  }

  function Exec(prog: seq<Instruction>, env: Env, s: Cpu): Cpu
    decreases |prog|
  {
    if prog == [] then s else Exec(prog[1..], env, Exec1(prog[0], env, s))
  }

  lemma {:induction false} ExecConcat(a: seq<Instruction>, b: seq<Instruction>, env: Env, s: Cpu)
    ensures Exec(a + b, env, s) == Exec(b, env, Exec(a, env, s))
    decreases |a|
  {
    if a == [] {
      assert a + b == b;
    } else {
      assert (a + b)[1..] == a[1..] + b;
      ExecConcat(a[1..], b, env, Exec1(a[0], env, s));
    }
  }

  predicate Straight(prog: seq<Instruction>) {
    forall i :: 0 <= i < |prog| && prog[i].CInst? ==> prog[i].jump.NoJump?
  }

  ghost predicate Resolved(prog: seq<Instruction>, env: Env) {
    forall i :: 0 <= i < |prog| && prog[i].AInst? ==> AValue(prog[i].a, env).Some?
  }

  /** The piece stands in the program at the given address. */
  ghost predicate StandsAt(prog: seq<Instruction>, pc: nat, piece: seq<Instruction>) {
    pc + |piece| <= |prog| && prog[pc..pc + |piece|] == piece
  }

  lemma Step1(prog: seq<Instruction>, env: Env, s: Cpu)
    requires Resolved(prog, env) && s.pc < |prog|
    ensures Step(prog, env, s) == Some(Exec1(prog[s.pc], env, s))
  {
  }

  lemma {:induction false} RunStraight(prog: seq<Instruction>, env: Env, s: Cpu, piece: seq<Instruction>)
    requires Resolved(prog, env) && Straight(piece) && StandsAt(prog, s.pc, piece)
    ensures Run(prog, env, s, |piece|) == Some(Exec(piece, env, s))
    ensures Exec(piece, env, s).pc == s.pc + |piece|
    decreases |piece|
  {
    if piece != [] {
      hide ExecC, Step, CompValue;
      assert prog[s.pc] == piece[0];
      Step1(prog, env, s);
      var s' := Exec1(piece[0], env, s);
      assert s'.pc == s.pc + 1 by { StraightAdvances(piece[0], env, s); }
      assert prog[s'.pc..s'.pc + |piece[1..]|] == piece[1..];
      RunStraight(prog, env, s', piece[1..]);
    }
  }

  lemma StraightAdvances(i: Instruction, env: Env, s: Cpu)
    requires i.CInst? ==> i.jump.NoJump?
    ensures Exec1(i, env, s).pc == s.pc + 1
  {
  }

  lemma AtConcat(prog: seq<Instruction>, pc: nat, a: seq<Instruction>, b: seq<Instruction>)
    ensures StandsAt(prog, pc, a + b) <==> StandsAt(prog, pc, a) && StandsAt(prog, pc + |a|, b)
  {
    if StandsAt(prog, pc, a + b) {
      assert prog[pc..pc + |a|] == (a + b)[..|a|];
      assert prog[pc + |a|..pc + |a| + |b|] == (a + b)[|a|..];
    }
    if StandsAt(prog, pc, a) && StandsAt(prog, pc + |a|, b) {
      assert prog[pc..pc + |a + b|] == prog[pc..pc + |a|] + prog[pc + |a|..pc + |a| + |b|];
    }
  }

  // ----- unrolling -----

  lemma Exec2(a: Instruction, b: Instruction, env: Env, s: Cpu)
    ensures Exec([a, b], env, s) == Exec1(b, env, Exec1(a, env, s))
  {
    hide Exec1;
    assert [a, b][1..] == [b];
    assert Exec([a, b], env, s) == Exec([b], env, Exec1(a, env, s));
    assert [b][1..] == [];
    assert Exec([b], env, Exec1(a, env, s)) == Exec([], env, Exec1(b, env, Exec1(a, env, s)));
  }

  lemma Exec3(a: Instruction, b: Instruction, c: Instruction, env: Env, s: Cpu)
    ensures Exec([a, b, c], env, s) == Exec1(c, env, Exec1(b, env, Exec1(a, env, s)))
  {
    hide Exec1;
    assert [a, b, c][1..] == [b, c];
    Exec2(b, c, env, Exec1(a, env, s));
  }

  lemma Exec4(a: Instruction, b: Instruction, c: Instruction, d: Instruction, env: Env, s: Cpu)
    ensures Exec([a, b, c, d], env, s) == Exec1(d, env, Exec1(c, env, Exec1(b, env, Exec1(a, env, s))))
  {
    hide Exec1;
    assert [a, b, c, d][1..] == [b, c, d];
    Exec3(b, c, d, env, Exec1(a, env, s));
  }

  lemma Exec5(a: Instruction, b: Instruction, c: Instruction, d: Instruction, e: Instruction, env: Env, s: Cpu)
    ensures Exec([a, b, c, d, e], env, s)
         == Exec1(e, env, Exec1(d, env, Exec1(c, env, Exec1(b, env, Exec1(a, env, s)))))
  {
    hide Exec1;
    assert [a, b, c, d, e][1..] == [b, c, d, e];
    Exec4(b, c, d, e, env, Exec1(a, env, s));
  }

  lemma Exec6(a: Instruction, b: Instruction, c: Instruction, d: Instruction, e: Instruction, f: Instruction,
              env: Env, s: Cpu)
    ensures Exec([a, b, c, d, e, f], env, s)
         == Exec1(f, env, Exec1(e, env, Exec1(d, env, Exec1(c, env, Exec1(b, env, Exec1(a, env, s))))))
  {
    hide Exec1;
    assert [a, b, c, d, e, f][1..] == [b, c, d, e, f];
    Exec5(b, c, d, e, f, env, Exec1(a, env, s));
  }

  // ----- pieces -----

  /** D goes on top of the stack. */
  lemma PushDEffect(env: Env, s: Cpu)
    requires RegistersPlaced(env) && 0 < s.ram[0] < 0x7FFF
    ensures var r := Exec(PUSH_D, env, s);
            r.d == s.d && r.ram == s.ram[s.ram[0] := s.d][0 := s.ram[0] + 1]
  {
    hide Exec, Address, And, Or;
    Exec5(At("SP"), Set(DestA, M), Set(DestM, D), At("SP"), Set(DestM, MPlusOne), env, s);
  }

  /** A becomes *base + offset. */
  lemma FetchOffsetEffect(base: string, offset: Word, env: Env, s: Cpu)
    requires base in env && env[base] < 0x8000 && offset < 0x8000
    requires s.ram[env[base]] + offset < 0x8000
    ensures var r := Exec(FetchOffset(base, offset), env, s);
            r.a == s.ram[env[base]] + offset && r.ram == s.ram
  {
    hide Exec, Address, And, Or;
    if offset == 0 {
      Exec2(At(base), Set(DestA, M), env, s);
    } else {
      Exec4(At(base), Set(DestD, M), Num(offset), Set(DestA, DPlusA), env, s);
    }
  }

  lemma SaveTargetEffect(env: Env, s: Cpu)
    requires RegistersPlaced(env)
    ensures Exec(SAVE_TARGET, env, s).ram == s.ram[13 := s.a]
  {
    hide Exec, Address, And, Or;
    Exec3(Set(DestD, A), At("R13"), Set(DestM, D), env, s);
  }

  lemma PopDEffect(env: Env, s: Cpu)
    requires RegistersPlaced(env) && 1 < s.ram[0] < 0x8000
    ensures var r := Exec(POP_D, env, s);
            r.d == s.ram[s.ram[0] - 1] && r.ram == s.ram[0 := s.ram[0] - 1]
  {
    hide Exec, Address, And, Or;
    Exec3(At("SP"), Set(DestAM, MMinusOne), Set(DestD, M), env, s);
  }

  lemma StoreTargetEffect(env: Env, s: Cpu)
    requires RegistersPlaced(env) && s.ram[13] < 0x8000
    ensures Exec(STORE_TARGET, env, s).ram == s.ram[s.ram[13] := s.d]
  {
    hide Exec, Address, And, Or;
    Exec3(At("R13"), Set(DestA, M), Set(DestM, D), env, s);
  }

  lemma UnaryEffect(c: Vm.Command, env: Env, s: Cpu)
    requires Vm.IsUnary(c) && RegistersPlaced(env) && 0 < s.ram[0] <= 0x8000
    ensures var sp := s.ram[0];
            Exec(UnaryCode(c), env, s).ram == s.ram[sp - 1 := Vm.UnaryOp(c, s.ram[sp - 1])]
  {
    hide Exec, Address, And, Or;
    Exec3(At("SP"), Set(DestA, MMinusOne), Set(DestM, UnaryComp(c)), env, s);
  }

  lemma BinaryHeadEffect(env: Env, s: Cpu)
    requires RegistersPlaced(env) && 2 < s.ram[0] < 0x8000
    ensures var r, sp := Exec(BINARY_HEAD, env, s), s.ram[0];
            r.d == s.ram[sp - 2] && r.a == sp - 1 && r.ram == s.ram[0 := sp - 1]
  {
    hide Exec, Address, And, Or;
    var p1 := [At("SP"), Set(DestM, MMinusOne)];
    var p2 := [Set(DestA, MMinusOne), Set(DestD, M), Set(DestA, APlusOne)];
    assert BINARY_HEAD == p1 + p2;
    ExecConcat(p1, p2, env, s);
    DecrementEffect(env, s);
    BelowTopEffect(env, Exec(p1, env, s));
  }

  lemma DecrementEffect(env: Env, s: Cpu)
    requires RegistersPlaced(env) && 0 < s.ram[0]
    ensures var r := Exec([At("SP"), Set(DestM, MMinusOne)], env, s);
            r.a == 0 && r.ram == s.ram[0 := s.ram[0] - 1]
  {
    hide Exec, And, Or;
    Exec2(At("SP"), Set(DestM, MMinusOne), env, s);
  }

  lemma BelowTopEffect(env: Env, s: Cpu)
    requires s.a == 0 && 1 < s.ram[0] < 0x8000
    ensures var r := Exec([Set(DestA, MMinusOne), Set(DestD, M), Set(DestA, APlusOne)], env, s);
            r.d == s.ram[s.ram[0] - 1] && r.a == s.ram[0] && r.ram == s.ram
  {
    hide Exec, And, Or;
    Exec3(Set(DestA, MMinusOne), Set(DestD, M), Set(DestA, APlusOne), env, s);
  }

  lemma BinaryTailEffect(env: Env, s: Cpu)
    requires RegistersPlaced(env) && 0 < s.ram[0] <= 0x8000
    ensures Exec(BINARY_TAIL, env, s).ram == s.ram[s.ram[0] - 1 := s.d]
  {
    hide Exec, Address, And, Or;
    Exec3(At("SP"), Set(DestA, MMinusOne), Set(DestM, D), env, s);
  }

  /** The value of an address-valued instruction is pushed. */
  lemma PushAddressEffect(target: Instruction, env: Env, s: Cpu)
    requires RegistersPlaced(env) && 0 < s.ram[0] < 0x7FFF
    requires target.AInst? && AValue(target.a, env).Some?
    ensures var sp := s.ram[0];
            Exec([target, Set(DestD, A)] + PUSH_D, env, s).ram
            == s.ram[sp := AValue(target.a, env).value][0 := sp + 1]
  {
    hide PUSH_D, RegistersPlaced;
    ExecConcat([target, Set(DestD, A)], PUSH_D, env, s);
    Exec2(target, Set(DestD, A), env, s);
    PushDEffect(env, Exec([target, Set(DestD, A)], env, s));
  }

  /** The value of a register is pushed. */
  lemma PushRegisterEffect(reg: string, env: Env, s: Cpu)
    requires RegistersPlaced(env) && 0 < s.ram[0] < 0x7FFF
    requires reg in env && env[reg] < 0x8000
    ensures var sp := s.ram[0];
            Exec(PushRegister(reg), env, s).ram == s.ram[sp := s.ram[env[reg]]][0 := sp + 1]
  {
    hide PUSH_D, RegistersPlaced;
    var load := [At(reg), Set(DestD, M)];
    ExecConcat(load, PUSH_D, env, s);
    Exec2(At(reg), Set(DestD, M), env, s);
    PushDEffect(env, Exec(load, env, s));
  }

  lemma SetArgEffect(nargs: Word, env: Env, s: Cpu)
    requires RegistersPlaced(env) && nargs + 5 < 0x8000 && nargs + 5 <= s.ram[0] < 0x8000
    ensures Exec(SetArg(nargs), env, s).ram == s.ram[2 := s.ram[0] - 5 - nargs]
  {
    hide Exec, Address, And, Or;
    Exec6(At("SP"), Set(DestD, M), Num(nargs + 5), Set(DestD, DMinusA), At("ARG"), Set(DestM, D), env, s);
  }

  lemma SetLclEffect(env: Env, s: Cpu)
    requires RegistersPlaced(env)
    ensures Exec(SET_LCL, env, s).ram == s.ram[1 := s.ram[0]]
  {
    hide Exec, Address, And, Or;
    Exec4(At("SP"), Set(DestD, M), At("LCL"), Set(DestM, D), env, s);
  }

  /** ARG := SP - 5 - nargs and LCL := SP. */
  lemma RepositionEffect(nargs: Word, env: Env, s: Cpu)
    requires RegistersPlaced(env) && nargs + 5 < 0x8000 && nargs + 5 <= s.ram[0] < 0x8000
    ensures var sp := s.ram[0];
            Exec(Reposition(nargs), env, s).ram == s.ram[2 := sp - 5 - nargs][1 := sp]
  {
    hide Exec, SetArg, SET_LCL;
    ExecConcat(SetArg(nargs), SET_LCL, env, s);
    SetArgEffect(nargs, env, s);
    SetLclEffect(env, Exec(SetArg(nargs), env, s));
  }

  /** R13 := LCL and R14 := the return address saved below the locals. */
  lemma SaveFrameEffect(env: Env, s: Cpu)
    requires RegistersPlaced(env) && 20 < s.ram[1] < 0x8000
    ensures var lcl := s.ram[1];
            Exec(SAVE_FRAME, env, s).ram == s.ram[13 := lcl][14 := s.ram[lcl - 5]]
  {
    hide Exec, Address, And, Or;
    var p1 := [At("LCL"), Set(DestD, M), At("R13"), Set(DestM, D)];
    var p2 := [Num(5), Set(DestA, DMinusA), Set(DestD, M), At("R14"), Set(DestM, D)];
    ExecConcat(p1, p2, env, s);
    Exec4(At("LCL"), Set(DestD, M), At("R13"), Set(DestM, D), env, s);
    Exec5(Num(5), Set(DestA, DMinusA), Set(DestD, M), At("R14"), Set(DestM, D), env, Exec(p1, env, s));
  }

  lemma StoreResultEffect(env: Env, s: Cpu)
    requires RegistersPlaced(env) && 0 < s.ram[0] <= 0x8000 && s.ram[2] < 0x8000
    ensures var r := Exec(STORE_RESULT, env, s);
            r.a == s.ram[2] && r.ram == s.ram[s.ram[2] := s.ram[s.ram[0] - 1]]
  {
    hide Exec, Address, And, Or;
    Exec6(At("SP"), Set(DestA, MMinusOne), Set(DestD, M), At("ARG"), Set(DestA, M), Set(DestM, D), env, s);
  }

  lemma DropFrameEffect(env: Env, s: Cpu)
    requires RegistersPlaced(env) && s.a < 0x8000
    ensures Exec(DROP_FRAME, env, s).ram == s.ram[0 := s.a + 1]
  {
    hide Exec, Address, And, Or;
    Exec3(Set(DestD, APlusOne), At("SP"), Set(DestM, D), env, s);
  }

  /** *ARG := top of the stack and SP := ARG + 1. */
  lemma ReturnValueEffect(env: Env, s: Cpu)
    requires RegistersPlaced(env) && 0 < s.ram[0] <= 0x8000 && 20 < s.ram[2] < 0x7FFF
    ensures var arg := s.ram[2];
            Exec(RETURN_VALUE, env, s).ram == s.ram[arg := s.ram[s.ram[0] - 1]][0 := arg + 1]
  {
    hide Exec, STORE_RESULT, DROP_FRAME;
    ExecConcat(STORE_RESULT, DROP_FRAME, env, s);
    StoreResultEffect(env, s);
    DropFrameEffect(env, Exec(STORE_RESULT, env, s));
  }

  /** A register gets the word k below the saved frame. */
  lemma RestoreEffect(reg: string, k: Word, env: Env, s: Cpu)
    requires RegistersPlaced(env) && 0 < k <= s.ram[13] < 0x8000
    requires reg in env && env[reg] < 0x8000
    ensures Exec(Restore(reg, k), env, s).ram == s.ram[env[reg] := s.ram[s.ram[13] - k]]
  {
    hide Exec, Address, And, Or;
    var p1 := [At("R13"), Set(DestD, M), Num(k), Set(DestA, DMinusA)];
    var p2 := [Set(DestD, M), At(reg), Set(DestM, D)];
    assert Restore(reg, k) == p1 + p2;
    ExecConcat(p1, p2, env, s);
    SavedAddress(k, env, s);
    var s1 := Exec(p1, env, s);
    CopyEffect(reg, env, s1);
  }

  lemma SavedAddress(k: Word, env: Env, s: Cpu)
    requires RegistersPlaced(env) && 0 < k <= s.ram[13] < 0x8000
    ensures var r := Exec([At("R13"), Set(DestD, M), Num(k), Set(DestA, DMinusA)], env, s);
            r.a == s.ram[13] - k && r.ram == s.ram
  {
    hide Exec, Address, And, Or;
    Exec4(At("R13"), Set(DestD, M), Num(k), Set(DestA, DMinusA), env, s);
  }

  lemma CopyEffect(reg: string, env: Env, s: Cpu)
    requires s.a < 0x8000 && reg in env && env[reg] < 0x8000
    ensures Exec([Set(DestD, M), At(reg), Set(DestM, D)], env, s).ram == s.ram[env[reg] := s.ram[s.a]]
  {
    hide Exec, And, Or;
    Exec3(Set(DestD, M), At(reg), Set(DestM, D), env, s);
  }
}
