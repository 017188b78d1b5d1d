/** Forward simulation: each command of the virtual machine is carried out by its translation. */
module Simulation {
  import opened Asm
  import opened Execution
  import opened Layout
  import opened Linking
  import opened Options
  import opened Translator
  import opened Words
  import Vm

  // ----- blocks in their place -----

  lemma BlockStands(p: Vm.Program, prog: seq<Instruction>, i: nat)
    requires AllFit(p.commands) && prog == Strip(Link(p)) && i < |p.commands|
    ensures StandsAt(prog, CodeAddress(p, i), Strip(Block(p, i)))
    ensures CodeAddress(p, i + 1) == CodeAddress(p, i) + |Strip(Block(p, i))|
  {
    hide Bootstrap, Block, Body, Link, FOOTER;
    LinkSplit(p, i);
    CodeAddressNext(p, i);
    var before, block, after := Bootstrap() + Body(p, i), Block(p, i), Tail(p, i + 1);
    assert Tail(p, i) == block + after;
    assert Link(p) == (before + block) + after;
    StripConcat(before + block, after);
    StripConcat(before, block);
  }

  /** A block without jumps runs through to the next block. */
  lemma RunBlock(p: Vm.Program, prog: seq<Instruction>, env: Env, i: nat, s: Cpu, code: seq<Instruction>)
    requires Linked(p, prog, env) && i < |p.commands| && s.pc == CodeAddress(p, i)
    requires Block(p, i) == Lines(code) && Straight(code)
    ensures Run(prog, env, s, |code|) == Some(Exec(code, env, s))
    ensures Exec(code, env, s).pc == CodeAddress(p, i + 1)
    ensures StandsAt(prog, s.pc, code)
  {
    hide Bootstrap, Block, Body, Link, CodeAddress, RegistersPlaced, StaticsPlaced, LabelsPlaced, Exec, Run;
    BlockStands(p, prog, i);
    StripLines(code);
    RunStraight(prog, env, s, code);
  }

  /** An address instruction followed by a jump. */
  lemma RunJump(prog: seq<Instruction>, env: Env, s: Cpu, name: string, comp: Comp, jump: Jump)
    requires Resolved(prog, env) && StandsAt(prog, s.pc, [At(name), CInst(DestNull, comp, jump)])
    requires comp.Zero? || comp.D?
    ensures name in env && env[name] < 0x8000
    ensures var r := Run(prog, env, s, 2);
            && r.Some? && r.value.ram == s.ram && r.value.d == s.d
            && r.value.pc == if JumpTaken(jump, if comp.D? then s.d else 0) then env[name] else s.pc + 2
  {
    hide JumpTaken, Signed;
    var piece := [At(name), CInst(DestNull, comp, jump)];
    assert prog[s.pc] == piece[0] && prog[s.pc + 1] == piece[1];
    Step1(prog, env, s);
    var s1 := Exec1(piece[0], env, s);
    Step1(prog, env, s1);
    assert Run(prog, env, s, 2) == Run(prog, env, s1, 1);
    assert Run(prog, env, s1, 1) == Run(prog, env, Exec1(piece[1], env, s1), 0);
  }

  /** Two runs in a row. */
  lemma RunThen(prog: seq<Instruction>, env: Env, s: Cpu, m: nat, t: Cpu, n: nat)
    requires Run(prog, env, s, m) == Some(t)
    ensures Run(prog, env, s, m + n) == Run(prog, env, t, n)
  {
    RunConcat(prog, env, s, m, n);
  }

  // ----- the simulation relation -----

  /** Every suspended activation is returned to at an address that fits in an instruction. */
  ghost predicate ReturnsPlaced(p: Vm.Program, outer: Vm.Frames, top: Vm.Frame)
    requires AllFit(p.commands)
  {
    outer.Frames? ==>
      && top.ret <= |p.commands|
      && CodeAddress(p, top.ret) < 0x8000
      && ReturnsPlaced(p, outer.outer, outer.inner)
  }

  ghost predicate Related(p: Vm.Program, env: Env, boot: Boot, ram0: Ram, v: Vm.State, s: Cpu)
    requires AllFit(p.commands)
  {
    && v.pc <= |p.commands|
    && s.pc == CodeAddress(p, v.pc)
    && ReturnsPlaced(p, v.callers, v.top)
    && Represents(p, env, boot, ram0, v, s.ram)
  }

  /** A linked program and related states, at a command. */
  ghost predicate Ready(p: Vm.Program, prog: seq<Instruction>, env: Env, boot: Boot, ram0: Ram, v: Vm.State, s: Cpu) {
    Linked(p, prog, env) && v.pc < |p.commands| && Related(p, env, boot, ram0, v, s)
  }

  /** The assembly program gets from s to a state related to v in n steps. */
  ghost predicate Reaches(p: Vm.Program, prog: seq<Instruction>, env: Env, boot: Boot, ram0: Ram, s: Cpu, n: nat,
        v: Vm.State)
    requires AllFit(p.commands)
  {
    var r := Run(prog, env, s, n);
    r.Some? && Related(p, env, boot, ram0, v, r.value)
  }

  // ----- segments -----

  /** Where segment[i] lies in memory. */
  ghost function AddressOf(file: string, env: Env, v: Vm.State, segment: Vm.Segment, i: Word): nat
    requires segment.Static? ==> StaticName(file, i) in env
  {
    match segment
    case Argument => ArgOf(v.callers) + i
    case Local => LclOf(v.callers, v.top) + i
    case This => v.top.thisBase + i
    case That => v.top.thatBase + i
    case Static => env[StaticName(file, i)]
    case Pointer => 3 + i
    case Temp => 5 + i
    case Constant => i
  }

  ghost predicate InSegment(v: Vm.State, segment: Vm.Segment, i: Word)
    requires v.Valid()
  {
    !segment.Constant? && Vm.ReadSegment(v, segment, i).Some?
  }

  lemma AddressHolds(p: Vm.Program, env: Env, boot: Boot, ram0: Ram, v: Vm.State, ram: Ram, segment: Vm.Segment,
        i: Word)
    requires Represents(p, env, boot, ram0, v, ram) && InSegment(v, segment, i)
    ensures segment.Static? ==> StaticName(p.file, i) in env
    ensures var a := AddressOf(p.file, env, v, segment, i);
            a < 0x8000 && (segment.Static? || i < 0x8000) && ram[a] == Vm.ReadSegment(v, segment, i).value
  {
    hide StackImage, Untouched, Vm.Depth;
    if segment.Argument? {
      assert FrameImage(p, boot, v.callers, v.top)[i] == v.top.args[i];
    } else if segment.Local? {
      assert FrameImage(p, boot, v.callers, v.top)[|v.top.args| + 5 + i] == v.top.locals[i];
    }
  }

  /** The fetching code leaves the address of segment[i] in A. */
  lemma FetchEffect(p: Vm.Program, env: Env, boot: Boot, ram0: Ram, v: Vm.State, s: Cpu, segment: Vm.Segment, i: Word)
    requires RegistersPlaced(env) && StaticsPlaced(p.file, env)
    requires Represents(p, env, boot, ram0, v, s.ram) && InSegment(v, segment, i)
    ensures segment.Pointer? || segment.Temp? ==> i < 8
    ensures segment.Static? ==> StaticName(p.file, i) in env
    ensures var r := Exec(FetchSegment(p.file, segment, i), env, s);
            r.a == AddressOf(p.file, env, v, segment, i) && r.ram == s.ram
  {
    hide FrameImage, StackImage, Untouched, Vm.Depth, FetchOffset, StaticName;
    AddressHolds(p, env, boot, ram0, v, s.ram, segment, i);
    match segment
    case Argument => FetchOffsetEffect("ARG", i, env, s);
    case Local => FetchOffsetEffect("LCL", i, env, s);
    case This => FetchOffsetEffect("THIS", i, env, s);
    case That => FetchOffsetEffect("THAT", i, env, s);
    case Static => ExecOne(At(StaticName(p.file, i)), env, s);
    case Pointer => ExecOne(Num(i + 3), env, s);
    case Temp => ExecOne(Num(i + 5), env, s);
  }

  lemma ExecOne(i: Instruction, env: Env, s: Cpu)
    ensures Exec([i], env, s) == Exec1(i, env, s)
  {
    hide Exec1;
    assert [i][1..] == [];
    assert Exec([i], env, s) == Exec([], env, Exec1(i, env, s));
  }

  // ----- push and pop -----

  /** A word pushed on the stack. */
  lemma PushRepresents(p: Vm.Program, env: Env, boot: Boot, ram0: Ram, v: Vm.State, ram: Ram, w: Word, v': Vm.State,
        ram': Ram)
    requires StaticsPlaced(p.file, env) && Represents(p, env, boot, ram0, v, ram)
    requires Vm.PushWord(v, w) == Some(v')
    requires var sp := SpOf(v.callers, v.top); sp + 1 < 0x8000 && ram' == ram[sp := w][0 := sp + 1]
    ensures Represents(p, env, boot, ram0, v', ram')
  {
    hide StackImage, Vm.Depth, Represents, StaticsPlaced;
    assert FrameImage(p, boot, v.callers, v'.top) == FrameImage(p, boot, v.callers, v.top) + [w];
    FrameHeld(p, env, boot, ram0, v, ram);
    FrameChanged(p, env, boot, ram0, v, ram, v', ram');
  }

  lemma FrameHeld(p: Vm.Program, env: Env, boot: Boot, ram0: Ram, v: Vm.State, ram: Ram)
    requires Represents(p, env, boot, ram0, v, ram)
    ensures Holds(ram, ArgOf(v.callers), FrameImage(p, boot, v.callers, v.top))
    ensures PointersHold(v, ram) && Vm.HasRoom(v, 0) && v.Valid()
  {
  }

  lemma SimPush(p: Vm.Program, prog: seq<Instruction>, env: Env, boot: Boot, ram0: Ram, v: Vm.State, s: Cpu)
      returns (n: nat)
    requires Ready(p, prog, env, boot, ram0, v, s)
    requires p.commands[v.pc].Push? && Vm.Step(p, v).Some?
    ensures Reaches(p, prog, env, boot, ram0, s, n, Vm.Step(p, v).value)
  {
    hide Bootstrap, Block, Body, Link, CodeAddress, RegistersPlaced, StaticsPlaced, LabelsPlaced, Exec, Run,
        Represents, PUSH_D;
    var c := p.commands[v.pc];
    var segment, i := c.segment, c.index;
    FrameHeld(p, env, boot, ram0, v, s.ram);
    var w := Vm.ReadSegment(v, segment, i).value;
    var fetch, load := FetchSegment(p.file, segment, i), [LoadOperand(segment)];
    var code := fetch + load + PUSH_D;
    PushBlock(p, v.pc);
    RunBlock(p, prog, env, v.pc, s, code);
    n := |code|;
    LoadEffect(p, prog, env, boot, ram0, v, s);
    var s1 := Exec(fetch + load, env, s);
    ExecConcat(fetch + load, PUSH_D, env, s);
    PushDEffect(env, s1);
    PushRepresents(p, env, boot, ram0, v, s.ram, w, Vm.PushWord(v, w).value, Exec(code, env, s).ram);
    Repositioned(p, env, boot, ram0, Vm.PushWord(v, w).value, Vm.Step(p, v).value, Exec(code, env, s).ram);
  }

  lemma PushBlock(p: Vm.Program, i: nat)
    requires i < |p.commands| && Fits(p.commands[i]) && p.commands[i].Push?
    ensures var c := p.commands[i];
            var code := FetchSegment(p.file, c.segment, c.index) + [LoadOperand(c.segment)] + PUSH_D;
            Block(p, i) == Lines(code) && Straight(code)
  {
  }

  /** The control point plays no part in memory. */
  lemma Repositioned(p: Vm.Program, env: Env, boot: Boot, ram0: Ram, v: Vm.State, v': Vm.State, ram: Ram)
    requires Represents(p, env, boot, ram0, v, ram) && v' == v.(pc := v'.pc)
    ensures Represents(p, env, boot, ram0, v', ram)
  {
  }

  lemma LoadEffect(p: Vm.Program, prog: seq<Instruction>, env: Env, boot: Boot, ram0: Ram, v: Vm.State, s: Cpu)
    requires Ready(p, prog, env, boot, ram0, v, s)
    requires var c := p.commands[v.pc]; c.Push? && Vm.ReadSegment(v, c.segment, c.index).Some?
    ensures Fits(p.commands[v.pc])
    ensures var c := p.commands[v.pc];
            var r := Exec(FetchSegment(p.file, c.segment, c.index) + [LoadOperand(c.segment)], env, s);
            r.ram == s.ram && r.d == Vm.ReadSegment(v, c.segment, c.index).value
  {
    hide Bootstrap, Block, Body, Link, CodeAddress, StaticsPlaced, LabelsPlaced, Exec, Run, Represents, PUSH_D,
        RegistersPlaced;
    var c := p.commands[v.pc];
    var segment, i := c.segment, c.index;
    var fetch, load := FetchSegment(p.file, segment, i), LoadOperand(segment);
    ExecConcat(fetch, [load], env, s);
    if segment.Constant? {
      PushBlock(p, v.pc);
      RunBlock(p, prog, env, v.pc, s, fetch + [load] + PUSH_D);
      assert prog[s.pc] == (fetch + [load] + PUSH_D)[0] == Num(i);
      ExecOne(Num(i), env, s);
    } else {
      FetchEffect(p, env, boot, ram0, v, s, segment, i);
      AddressHolds(p, env, boot, ram0, v, s.ram, segment, i);
    }
    ExecOne(load, env, Exec(fetch, env, s));
  }

  /** The address of a segment does not depend on the stack. */
  lemma AddressAfterPop(file: string, env: Env, v: Vm.State, segment: Vm.Segment, i: Word)
    requires Vm.PopWord(v).Some? && (segment.Static? ==> StaticName(file, i) in env)
    ensures AddressOf(file, env, Vm.PopWord(v).value.0, segment, i) == AddressOf(file, env, v, segment, i)
  {
  }

  lemma WritableIsInSegment(v: Vm.State, segment: Vm.Segment, i: Word, w: Word)
    requires v.Valid() && Vm.WriteSegment(v, segment, i, w).Some?
    ensures InSegment(v, segment, i)
  {
  }

  /** A word popped off the stack, with R13 overwritten. */
  lemma PopRepresents(p: Vm.Program, env: Env, boot: Boot, ram0: Ram, v: Vm.State, ram: Ram, x: Word, ram': Ram)
    requires StaticsPlaced(p.file, env) && Represents(p, env, boot, ram0, v, ram)
    requires Vm.PopWord(v).Some?
    requires var sp := SpOf(v.callers, v.top); 0 < sp < 0x8000 && ram' == ram[13 := x][0 := sp - 1]
    ensures var (v', w) := Vm.PopWord(v).value;
            Represents(p, env, boot, ram0, v', ram') && w == ram[SpOf(v.callers, v.top) - 1]
  {
    hide StackImage, Vm.Depth, Represents, StaticsPlaced;
    FrameHeld(p, env, boot, ram0, v, ram);
    var (v', w) := Vm.PopWord(v).value;
    var image := FrameImage(p, boot, v.callers, v.top);
    assert FrameImage(p, boot, v.callers, v'.top) == image[..|image| - 1];
    assert image[|image| - 1] == w;
    FrameChanged(p, env, boot, ram0, v, ram, v', ram');
  }

  lemma WriteFrame(p: Vm.Program, env: Env, boot: Boot, ram0: Ram, v: Vm.State, ram: Ram, segment: Vm.Segment, i: Word,
                   w: Word, ram': Ram)
    requires StaticsPlaced(p.file, env) && Represents(p, env, boot, ram0, v, ram)
    requires segment.Argument? || segment.Local? || segment.Pointer?
    requires Vm.WriteSegment(v, segment, i, w).Some?
    requires ram' == ram[AddressOf(p.file, env, v, segment, i) := w]
    ensures Represents(p, env, boot, ram0, Vm.WriteSegment(v, segment, i, w).value, ram')
  {
    hide StackImage, FrameImage, Vm.Depth, Represents, StaticsPlaced;
    FrameHeld(p, env, boot, ram0, v, ram);
    var v' := Vm.WriteSegment(v, segment, i, w).value;
    WrittenImage(p, boot, v, segment, i, w);
    FrameChanged(p, env, boot, ram0, v, ram, v', ram');
  }

  /** The current frame with a word of it written. */
  lemma WrittenImage(p: Vm.Program, boot: Boot, v: Vm.State, segment: Vm.Segment, i: Word, w: Word)
    requires v.Valid() && Vm.WriteSegment(v, segment, i, w).Some?
    requires segment.Argument? || segment.Local? || segment.Pointer?
    ensures var v' := Vm.WriteSegment(v, segment, i, w).value;
            var image := FrameImage(p, boot, v.callers, v.top);
            FrameImage(p, boot, v.callers, v'.top)
            == if segment.Argument? then image[i as int := w]
               else if segment.Local? then image[|v.top.args| + 5 + i := w]
               else image
  {
  }

  lemma WriteStatic(p: Vm.Program, env: Env, boot: Boot, ram0: Ram, v: Vm.State, ram: Ram, i: Word, w: Word, ram': Ram)
    requires StaticsPlaced(p.file, env) && Represents(p, env, boot, ram0, v, ram)
    requires i in v.statics && StaticName(p.file, i) in env
    requires ram' == ram[env[StaticName(p.file, i)] := w]
    ensures Represents(p, env, boot, ram0, v.(statics := v.statics[i as nat := w]), ram')
  {
    hide StackImage, FrameImage, StaticName;
    assert IsStatic(p.file, env, v.statics, env[StaticName(p.file, i)]);
    assert v.statics[i as nat := w].Keys == v.statics.Keys;
  }

  lemma WriteTemp(p: Vm.Program, env: Env, boot: Boot, ram0: Ram, v: Vm.State, ram: Ram, i: Word, w: Word, ram': Ram)
    requires StaticsPlaced(p.file, env) && Represents(p, env, boot, ram0, v, ram)
    requires i < 8 && ram' == ram[5 + i := w]
    ensures Represents(p, env, boot, ram0, v.(temp := v.temp[i := w]), ram')
  {
    hide StackImage, FrameImage, StaticName;
  }

  lemma WriteHeapWord(p: Vm.Program, env: Env, boot: Boot, ram0: Ram, v: Vm.State, ram: Ram, a: nat, w: Word, ram': Ram)
    requires StaticsPlaced(p.file, env) && Represents(p, env, boot, ram0, v, ram)
    requires Vm.HEAP_BASE <= a < 0x8000 && ram' == ram[a := w]
    ensures Represents(p, env, boot, ram0, Vm.WriteHeap(v, a, w).value, ram')
  {
    hide StackImage, FrameImage, StaticName;
  }

  /** A word written to a segment. */
  lemma WriteRepresents(p: Vm.Program, env: Env, boot: Boot, ram0: Ram, v: Vm.State, ram: Ram, segment: Vm.Segment,
        i: Word,
                        w: Word, ram': Ram)
    requires StaticsPlaced(p.file, env) && Represents(p, env, boot, ram0, v, ram)
    requires Vm.WriteSegment(v, segment, i, w).Some?
    requires segment.Static? ==> StaticName(p.file, i) in env
    requires var a := AddressOf(p.file, env, v, segment, i); a < 0x8000 && ram' == ram[a := w]
    ensures Represents(p, env, boot, ram0, Vm.WriteSegment(v, segment, i, w).value, ram')
  {
    hide StackImage, FrameImage, Represents, StaticName;
    match segment
    case Static => WriteStatic(p, env, boot, ram0, v, ram, i, w, ram');
    case Temp => WriteTemp(p, env, boot, ram0, v, ram, i, w, ram');
    case This => WriteHeapWord(p, env, boot, ram0, v, ram, v.top.thisBase + i, w, ram');
    case That => WriteHeapWord(p, env, boot, ram0, v, ram, v.top.thatBase + i, w, ram');
    case _ => WriteFrame(p, env, boot, ram0, v, ram, segment, i, w, ram');
  }

  lemma PopBlock(p: Vm.Program, i: nat)
    requires i < |p.commands| && Fits(p.commands[i]) && p.commands[i].Pop?
    ensures var c := p.commands[i];
            var code := FetchSegment(p.file, c.segment, c.index) + SAVE_TARGET + POP_D + STORE_TARGET;
            Block(p, i) == Lines(code) && Straight(code)
  {
  }

  /** The code of a pop stores the popped word in the addressed place. */
  lemma PopEffect(p: Vm.Program, env: Env, boot: Boot, ram0: Ram, v: Vm.State, s: Cpu, segment: Vm.Segment, i: Word)
    requires RegistersPlaced(env) && StaticsPlaced(p.file, env)
    requires Represents(p, env, boot, ram0, v, s.ram) && InSegment(v, segment, i)
    requires 1 < s.ram[0] < 0x8000
    ensures segment.Static? ==> StaticName(p.file, i) in env
    ensures var code := FetchSegment(p.file, segment, i) + SAVE_TARGET + POP_D + STORE_TARGET;
            var target, sp := AddressOf(p.file, env, v, segment, i), s.ram[0];
            && target < 0x8000
            && Exec(code, env, s).ram == s.ram[13 := target][0 := sp - 1][target := s.ram[13 := target][sp - 1]]
  {
    hide RegistersPlaced, StaticsPlaced, Exec, Represents, SAVE_TARGET, POP_D, STORE_TARGET, FetchSegment, StaticName;
    var fetch := FetchSegment(p.file, segment, i);
    FetchEffect(p, env, boot, ram0, v, s, segment, i);
    AddressHolds(p, env, boot, ram0, v, s.ram, segment, i);
    var s1 := Exec(fetch, env, s);
    ExecConcat(fetch, SAVE_TARGET, env, s);
    SaveTargetEffect(env, s1);
    var s2 := Exec(SAVE_TARGET, env, s1);
    ExecConcat(fetch + SAVE_TARGET, POP_D, env, s);
    PopDEffect(env, s2);
    var s3 := Exec(POP_D, env, s2);
    ExecConcat(fetch + SAVE_TARGET + POP_D, STORE_TARGET, env, s);
    StoreTargetEffect(env, s3);
  }

  lemma SimPop(p: Vm.Program, prog: seq<Instruction>, env: Env, boot: Boot, ram0: Ram, v: Vm.State, s: Cpu)
      returns (n: nat)
    requires Ready(p, prog, env, boot, ram0, v, s)
    requires p.commands[v.pc].Pop? && Vm.Step(p, v).Some?
    ensures Reaches(p, prog, env, boot, ram0, s, n, Vm.Step(p, v).value)
  {
    hide Bootstrap, Block, Body, Link, CodeAddress, RegistersPlaced, StaticsPlaced, LabelsPlaced, Exec, Run,
        Represents, SAVE_TARGET, POP_D, STORE_TARGET, StackImage, FrameImage, Vm.Step, Vm.WriteSegment;
    var c := p.commands[v.pc];
    var segment, i := c.segment, c.index;
    FrameHeld(p, env, boot, ram0, v, s.ram);
    PopStep(p, v);
    var (v1, w) := Vm.PopWord(v).value;
    var v2 := Vm.WriteSegment(v1, segment, i, w).value;
    WritableIsInSegment(v1, segment, i, w);
    var code := FetchSegment(p.file, segment, i) + SAVE_TARGET + POP_D + STORE_TARGET;
    PopBlock(p, v.pc);
    RunBlock(p, prog, env, v.pc, s, code);
    n := |code|;
    PopEffect(p, env, boot, ram0, v, s, segment, i);
    AddressAfterPop(p.file, env, v, segment, i);
    hide FetchSegment, AddressOf, StaticName;
    var target, sp := AddressOf(p.file, env, v, segment, i), s.ram[0];
    var popped := s.ram[13 := target][0 := sp - 1];
    PopRepresents(p, env, boot, ram0, v, s.ram, target, popped);
    WriteRepresents(p, env, boot, ram0, v1, popped, segment, i, w, Exec(code, env, s).ram);
    Repositioned(p, env, boot, ram0, v2, Vm.Step(p, v).value, Exec(code, env, s).ram);
  }

  lemma PopStep(p: Vm.Program, v: Vm.State)
    requires v.Valid() && v.pc < |p.commands| && p.commands[v.pc].Pop? && Vm.Step(p, v).Some?
    ensures Vm.PopWord(v).Some?
    ensures var (v1, w) := Vm.PopWord(v).value;
            var r := Vm.WriteSegment(v1, p.commands[v.pc].segment, p.commands[v.pc].index, w);
            v1.Valid() && r.Some? && Vm.Step(p, v) == Some(r.value.(pc := v.pc + 1))
    ensures var v' := Vm.Step(p, v).value; v'.callers == v.callers && v'.top.ret == v.top.ret
  {
  }

  // ----- arithmetic and logic -----

  /** The topmost words of the stack replaced by one. */
  lemma TopReplaced(p: Vm.Program, env: Env, boot: Boot, ram0: Ram, v: Vm.State, ram: Ram, drop: nat, w: Word,
        ram': Ram)
    requires StaticsPlaced(p.file, env) && Represents(p, env, boot, ram0, v, ram)
    requires 1 <= drop <= |v.top.stack|
    requires var sp := SpOf(v.callers, v.top);
             sp < 0x8000 && ram' == ram[0 := sp - drop + 1][sp - drop := w]
    ensures var v' := v.(top := v.top.(stack := v.top.stack[..|v.top.stack| - drop] + [w]));
            Represents(p, env, boot, ram0, v', ram')
  {
    hide StackImage, Vm.Depth, Represents, StaticsPlaced;
    FrameHeld(p, env, boot, ram0, v, ram);
    var v' := v.(top := v.top.(stack := v.top.stack[..|v.top.stack| - drop] + [w]));
    var image := FrameImage(p, boot, v.callers, v.top);
    assert FrameImage(p, boot, v.callers, v'.top) == image[..|image| - drop] + [w];
    FrameChanged(p, env, boot, ram0, v, ram, v', ram');
  }

  /** The k-th word from the top of the stack. */
  lemma StackHolds(p: Vm.Program, env: Env, boot: Boot, ram0: Ram, v: Vm.State, ram: Ram, k: nat)
    requires Represents(p, env, boot, ram0, v, ram) && 1 <= k <= |v.top.stack|
    ensures SpOf(v.callers, v.top) < 0x8000 && ram[SpOf(v.callers, v.top) - k] == v.top.stack[|v.top.stack| - k]
  {
    hide StackImage, Vm.Depth, Represents;
    FrameHeld(p, env, boot, ram0, v, ram);
    var image := FrameImage(p, boot, v.callers, v.top);
    assert image[|image| - k] == v.top.stack[|v.top.stack| - k];
  }

  lemma UnaryBlock(p: Vm.Program, i: nat)
    requires i < |p.commands| && Fits(p.commands[i]) && Vm.IsUnary(p.commands[i])
    ensures var code := UnaryCode(p.commands[i]); Block(p, i) == Lines(code) && Straight(code)
  {
  }

  lemma SimUnary(p: Vm.Program, prog: seq<Instruction>, env: Env, boot: Boot, ram0: Ram, v: Vm.State, s: Cpu)
      returns (n: nat)
    requires Ready(p, prog, env, boot, ram0, v, s)
    requires Vm.IsUnary(p.commands[v.pc]) && Vm.Step(p, v).Some?
    ensures Reaches(p, prog, env, boot, ram0, s, n, Vm.Step(p, v).value)
  {
    hide Bootstrap, Block, Body, Link, CodeAddress, RegistersPlaced, StaticsPlaced, LabelsPlaced, Exec, Run,
        Represents, UnaryCode, StackImage, FrameImage, Vm.UnaryOp;
    var c, k := p.commands[v.pc], |v.top.stack|;
    UnaryBlock(p, v.pc);
    RunBlock(p, prog, env, v.pc, s, UnaryCode(c));
    n := |UnaryCode(c)|;
    FrameHeld(p, env, boot, ram0, v, s.ram);
    StackHolds(p, env, boot, ram0, v, s.ram, 1);
    UnaryEffect(c, env, s);
    var w := Vm.UnaryOp(c, v.top.stack[k - 1]);
    var ram' := Exec(UnaryCode(c), env, s).ram;
    assert s.ram[0 := s.ram[0]] == s.ram;
    TopReplaced(p, env, boot, ram0, v, s.ram, 1, w, ram');
    assert v.top.stack[..k - 1] + [w] == v.top.stack[k - 1 := w];
    Repositioned(p, env, boot, ram0, Vm.StepUnary(c, v).value, Vm.Step(p, v).value, ram');
  }

  function ArithmeticCode(c: Vm.Command): seq<Instruction>
    requires Vm.IsBinary(c) && !Vm.IsComparison(c)
  {
    BINARY_HEAD + [Set(DestD, ArithmeticComp(c))] + BINARY_TAIL
  }

  lemma ArithmeticBlock(p: Vm.Program, i: nat)
    requires i < |p.commands| && Fits(p.commands[i])
    requires Vm.IsBinary(p.commands[i]) && !Vm.IsComparison(p.commands[i])
    ensures var code := ArithmeticCode(p.commands[i]); Block(p, i) == Lines(code) && Straight(code)
  {
  }

  /** The two operands are taken off and the result is put on. */
  lemma ArithmeticEffect(c: Vm.Command, env: Env, s: Cpu)
    requires Vm.IsBinary(c) && !Vm.IsComparison(c)
    requires RegistersPlaced(env) && 2 < s.ram[0] < 0x8000
    ensures var sp := s.ram[0];
            Exec(ArithmeticCode(c), env, s).ram
            == s.ram[0 := sp - 1][sp - 2 := Vm.BinaryOp(c, s.ram[sp - 2], s.ram[sp - 1])]
  {
    hide Exec, BINARY_HEAD, BINARY_TAIL, RegistersPlaced, Add, Sub, And, Or;
    var op := Set(DestD, ArithmeticComp(c));
    BinaryHeadEffect(env, s);
    var s1 := Exec(BINARY_HEAD, env, s);
    ExecConcat(BINARY_HEAD, [op], env, s);
    ExecOne(op, env, s1);
    ExecConcat(BINARY_HEAD + [op], BINARY_TAIL, env, s);
    BinaryTailEffect(env, Exec1(op, env, s1));
  }

  lemma SimArithmetic(p: Vm.Program, prog: seq<Instruction>, env: Env, boot: Boot, ram0: Ram, v: Vm.State, s: Cpu)
      returns (n: nat)
    requires Ready(p, prog, env, boot, ram0, v, s)
    requires Vm.IsBinary(p.commands[v.pc]) && !Vm.IsComparison(p.commands[v.pc]) && Vm.Step(p, v).Some?
    ensures Reaches(p, prog, env, boot, ram0, s, n, Vm.Step(p, v).value)
  {
    hide Bootstrap, Block, Body, Link, CodeAddress, RegistersPlaced, StaticsPlaced, LabelsPlaced, Exec, Run,
        Represents, ArithmeticCode, StackImage, FrameImage, Vm.BinaryOp;
    var c := p.commands[v.pc];
    ArithmeticBlock(p, v.pc);
    RunBlock(p, prog, env, v.pc, s, ArithmeticCode(c));
    n := |ArithmeticCode(c)|;
    FrameHeld(p, env, boot, ram0, v, s.ram);
    StackHolds(p, env, boot, ram0, v, s.ram, 1);
    StackHolds(p, env, boot, ram0, v, s.ram, 2);
    ArithmeticEffect(c, env, s);
    var ram' := Exec(ArithmeticCode(c), env, s).ram;
    var below, top := v.top.stack[|v.top.stack| - 2], v.top.stack[|v.top.stack| - 1];
    TopReplaced(p, env, boot, ram0, v, s.ram, 2, Vm.BinaryOp(c, below, top), ram');
    Repositioned(p, env, boot, ram0, Vm.StepBinary(c, v).value, Vm.Step(p, v).value, ram');
  }

  // ----- comparisons -----

  /** The parts of a comparison's code, one after the other. */
  lemma ComparisonStands(p: Vm.Program, prog: seq<Instruction>, i: nat)
    requires AllFit(p.commands) && prog == Strip(Link(p)) && i < |p.commands| && Vm.IsComparison(p.commands[i])
    ensures var c, k, here := p.commands[i], CounterAt(p.commands, i), CodeAddress(p, i);
            && StandsAt(prog, here, BINARY_HEAD)
            && StandsAt(prog, here + 5, ComparisonTest(c, k))
            && StandsAt(prog, here + 10, ComparisonSuccess(k))
            && StandsAt(prog, here + 13, COMPARISON_FAIL)
            && StandsAt(prog, here + 14, BINARY_TAIL)
            && CodeAddress(p, i + 1) == here + 17
  {
    var c, k, here := p.commands[i], CounterAt(p.commands, i), CodeAddress(p, i);
    var head, test, yes := BINARY_HEAD, ComparisonTest(c, k), ComparisonSuccess(k);
    var no, tail := COMPARISON_FAIL, BINARY_TAIL;
    assert Strip(Block(p, i)) == head + test + yes + no + tail by { ComparisonStrip(p, i); }
    hide Bootstrap, Block, Body, Link, CodeAddress, ComparisonTest, ComparisonSuccess;
    BlockStands(p, prog, i);
    AtConcat(prog, here, head + test + yes + no, tail);
    AtConcat(prog, here, head + test + yes, no);
    AtConcat(prog, here, head + test, yes);
    AtConcat(prog, here, head, test);
    assert |head| == 5 && |no| == 1 && |tail| == 3;
    assert |test| == 5 && |yes| == 3 by { ComparisonSizes(c, k); }
  }

  lemma ComparisonSizes(c: Vm.Command, k: nat)
    requires Vm.IsComparison(c)
    ensures |ComparisonTest(c, k)| == 5 && |ComparisonSuccess(k)| == 3
  {
  }

  lemma ComparisonStrip(p: Vm.Program, i: nat)
    requires i < |p.commands| && Fits(p.commands[i]) && Vm.IsComparison(p.commands[i])
    ensures var c, k := p.commands[i], CounterAt(p.commands, i);
            Strip(Block(p, i))
            == BINARY_HEAD + ComparisonTest(c, k) + ComparisonSuccess(k) + COMPARISON_FAIL + BINARY_TAIL
  {
    hide Strip, Lines, ComparisonTest, ComparisonSuccess, BINARY_HEAD, COMPARISON_FAIL, BINARY_TAIL, SuccessLabel,
        FailLabel, EndLabel;
    var c, k := p.commands[i], CounterAt(p.commands, i);
    var head, test, yes := BINARY_HEAD, ComparisonTest(c, k), ComparisonSuccess(k);
    var no, tail := COMPARISON_FAIL, BINARY_TAIL;
    var s, f, e := [Label(SuccessLabel(k))], [Label(FailLabel(k))], [Label(EndLabel(k))];
    StripLines(head); StripLines(test); StripLines(yes); StripLines(no); StripLines(tail);
    StripLabel(SuccessLabel(k)); StripLabel(FailLabel(k)); StripLabel(EndLabel(k));
    var o1 := Lines(test) + s;
    StripConcat(Lines(test), s);
    var o2 := o1 + Lines(yes);
    StripConcat(o1, Lines(yes));
    var o3 := o2 + f;
    StripConcat(o2, f);
    var o4 := o3 + Lines(no);
    StripConcat(o3, Lines(no));
    StripConcat(o4, e);
    assert Block(p, i) == Lines(head) + (o4 + e) + Lines(tail);
    StripConcat(Lines(head), o4 + e);
    StripConcat(Lines(head) + (o4 + e), Lines(tail));
  }

  lemma ComparisonDecides(c: Vm.Command, x: Word, y: Word)
    requires Vm.IsComparison(c)
    ensures Vm.BinaryOp(c, x, y) == if JumpTaken(ComparisonJump(c), Sub(x, y)) then 0xFFFF else 0
  {
  }

  /** The test: subtract, branch on the difference, else go to the fail part. */
  lemma TestStands(prog: seq<Instruction>, pc: nat, c: Vm.Command, k: nat)
    requires Vm.IsComparison(c) && StandsAt(prog, pc, ComparisonTest(c, k))
    ensures StandsAt(prog, pc, [Set(DestD, DMinusM)])
    ensures StandsAt(prog, pc + 1, [At(SuccessLabel(k)), CInst(DestNull, D, ComparisonJump(c))])
    ensures StandsAt(prog, pc + 3, [At(FailLabel(k)), GOTO])
  {
    hide ComparisonJump, SuccessLabel, FailLabel;
    var subtract := [Set(DestD, DMinusM)];
    var branch := [At(SuccessLabel(k)), CInst(DestNull, D, ComparisonJump(c))];
    var skip := [At(FailLabel(k)), GOTO];
    assert ComparisonTest(c, k) == subtract + branch + skip;
    AtConcat(prog, pc, subtract + branch, skip);
    AtConcat(prog, pc, subtract, branch);
  }

  lemma SubtractRuns(prog: seq<Instruction>, env: Env, s: Cpu) returns (t: Cpu)
    requires Resolved(prog, env) && StandsAt(prog, s.pc, [Set(DestD, DMinusM)]) && s.a < 0x8000
    ensures Run(prog, env, s, 1) == Some(t)
    ensures t.ram == s.ram && t.d == Sub(s.d, s.ram[s.a]) && t.pc == s.pc + 1
  {
    hide Exec, Run, Sub;
    RunStraight(prog, env, s, [Set(DestD, DMinusM)]);
    ExecOne(Set(DestD, DMinusM), env, s);
    t := Exec([Set(DestD, DMinusM)], env, s);
  }

  lemma ComparisonLabels(p: Vm.Program, prog: seq<Instruction>, env: Env, i: nat)
    requires Linked(p, prog, env) && i < |p.commands| && Vm.IsComparison(p.commands[i])
    ensures var k, here := CounterAt(p.commands, i), CodeAddress(p, i);
            && Bound(env, SuccessLabel(k), here + 10)
            && Bound(env, FailLabel(k), here + 13)
            && Bound(env, EndLabel(k), here + 14)
  {
    hide CodeAddress, Link, StaticsPlaced;
    assert LabelsPlaced(p, env, i);
  }

  /** The test subtracts, then goes to the success part or to the fail part. */
  lemma TestRuns(p: Vm.Program, prog: seq<Instruction>, env: Env, i: nat, s: Cpu) returns (n: nat, t: Cpu)
    requires Linked(p, prog, env) && i < |p.commands| && Vm.IsComparison(p.commands[i])
    requires s.pc == CodeAddress(p, i) + 5 && s.a < 0x8000
    ensures Run(prog, env, s, n) == Some(t) && t.ram == s.ram
    ensures var taken := JumpTaken(ComparisonJump(p.commands[i]), Sub(s.d, s.ram[s.a]));
            t.pc == CodeAddress(p, i) + if taken then 10 else 13
  {
    hide Bootstrap, Block, Body, Link, CodeAddress, RegistersPlaced, StaticsPlaced, LabelsPlaced, Exec, Run,
        JumpTaken, ComparisonJump,
      SuccessLabel, FailLabel, EndLabel, Sub, ComparisonTest, ComparisonSuccess, StandsAt;
    var c, k, here := p.commands[i], CounterAt(p.commands, i), CodeAddress(p, i);
    ComparisonStands(p, prog, i);
    ComparisonLabels(p, prog, env, i);
    TestStands(prog, here + 5, c, k);
    var s1 := SubtractRuns(prog, env, s);
    RunJump(prog, env, s1, SuccessLabel(k), D, ComparisonJump(c));
    n, t := 3, Run(prog, env, s1, 2).value;
    RunThen(prog, env, s, 1, s1, 2);
    if !JumpTaken(ComparisonJump(c), Sub(s.d, s.ram[s.a])) {
      RunJump(prog, env, t, FailLabel(k), Zero, JMP);
      RunThen(prog, env, s, 3, t, 2);
      JumpAlways();
      n, t := 5, Run(prog, env, t, 2).value;
    }
  }

  lemma JumpAlways()
    ensures JumpTaken(JMP, 0)
  {
  }

  /** Either part leaves the truth value in D and goes to the end. */
  lemma VerdictRuns(p: Vm.Program, prog: seq<Instruction>, env: Env, i: nat, taken: bool, s: Cpu) returns (n: nat,
        t: Cpu)
    requires Linked(p, prog, env) && i < |p.commands| && Vm.IsComparison(p.commands[i])
    requires s.pc == CodeAddress(p, i) + if taken then 10 else 13
    ensures Run(prog, env, s, n) == Some(t) && t.ram == s.ram
    ensures t.pc == CodeAddress(p, i) + 14 && t.d == if taken then 0xFFFF else 0
  {
    var k, here := CounterAt(p.commands, i), CodeAddress(p, i);
    ComparisonStands(p, prog, i);
    ComparisonLabels(p, prog, env, i);
    hide Bootstrap, Block, Body, Link, CodeAddress, RegistersPlaced, StaticsPlaced, LabelsPlaced, Exec, Run,
        JumpTaken, EndLabel;
    if taken {
      var yes, leave := [Set(DestD, NegOne)], [At(EndLabel(k)), GOTO];
      assert ComparisonSuccess(k) == yes + leave;
      AtConcat(prog, here + 10, yes, leave);
      RunStraight(prog, env, s, yes);
      ExecOne(yes[0], env, s);
      var s1 := Exec(yes, env, s);
      JumpAlways();
      RunJump(prog, env, s1, EndLabel(k), Zero, JMP);
      RunThen(prog, env, s, 1, s1, 2);
      n, t := 3, Run(prog, env, s1, 2).value;
    } else {
      RunStraight(prog, env, s, COMPARISON_FAIL);
      ExecOne(COMPARISON_FAIL[0], env, s);
      n, t := 1, Exec(COMPARISON_FAIL, env, s);
    }
  }

  lemma BinaryStraight()
    ensures |BINARY_HEAD| == 5 && Straight(BINARY_HEAD)
    ensures |BINARY_TAIL| == 3 && Straight(BINARY_TAIL)
  {
  }

  lemma ComparisonRuns(p: Vm.Program, prog: seq<Instruction>, env: Env, i: nat, s: Cpu) returns (n: nat, t: Cpu)
    requires Linked(p, prog, env) && i < |p.commands| && Vm.IsComparison(p.commands[i])
    requires s.pc == CodeAddress(p, i) && 2 < s.ram[0] < 0x8000
    ensures Run(prog, env, s, n) == Some(t) && t.pc == CodeAddress(p, i + 1)
    ensures var sp := s.ram[0];
            t.ram == s.ram[0 := sp - 1][sp - 2 := Vm.BinaryOp(p.commands[i], s.ram[sp - 2], s.ram[sp - 1])]
  {
    hide Bootstrap, Block, Body, Link, CodeAddress, RegistersPlaced, StaticsPlaced, LabelsPlaced, Exec, Run,
        JumpTaken, ComparisonTest,
      ComparisonSuccess, COMPARISON_FAIL, Vm.BinaryOp, StandsAt, BINARY_HEAD, BINARY_TAIL, ComparisonJump, Sub;
    var c, sp := p.commands[i], s.ram[0];
    ComparisonStands(p, prog, i);
    BinaryStraight();
    RunStraight(prog, env, s, BINARY_HEAD);
    BinaryHeadEffect(env, s);
    var s1 := Exec(BINARY_HEAD, env, s);
    ComparisonDecides(c, s1.d, s1.ram[s1.a]);
    var taken := JumpTaken(ComparisonJump(c), Sub(s1.d, s1.ram[s1.a]));
    var n1, s2 := TestRuns(p, prog, env, i, s1);
    RunThen(prog, env, s, 5, s1, n1);
    var n2, s3 := VerdictRuns(p, prog, env, i, taken, s2);
    RunThen(prog, env, s, 5 + n1, s2, n2);
    RunStraight(prog, env, s3, BINARY_TAIL);
    BinaryTailEffect(env, s3);
    RunThen(prog, env, s, 5 + n1 + n2, s3, 3);
    n, t := 5 + n1 + n2 + 3, Exec(BINARY_TAIL, env, s3);
  }

  lemma SimComparison(p: Vm.Program, prog: seq<Instruction>, env: Env, boot: Boot, ram0: Ram, v: Vm.State, s: Cpu)
      returns (n: nat)
    requires Ready(p, prog, env, boot, ram0, v, s)
    requires Vm.IsComparison(p.commands[v.pc]) && Vm.Step(p, v).Some?
    ensures Reaches(p, prog, env, boot, ram0, s, n, Vm.Step(p, v).value)
  {
    hide Bootstrap, Block, Body, Link, CodeAddress, RegistersPlaced, StaticsPlaced, LabelsPlaced, Exec, Run,
        Represents, StackImage, FrameImage, Vm.BinaryOp;
    var c := p.commands[v.pc];
    FrameHeld(p, env, boot, ram0, v, s.ram);
    StackHolds(p, env, boot, ram0, v, s.ram, 1);
    StackHolds(p, env, boot, ram0, v, s.ram, 2);
    var m, t := ComparisonRuns(p, prog, env, v.pc, s);
    n := m;
    var below, top := v.top.stack[|v.top.stack| - 2], v.top.stack[|v.top.stack| - 1];
    TopReplaced(p, env, boot, ram0, v, s.ram, 2, Vm.BinaryOp(c, below, top), t.ram);
    Repositioned(p, env, boot, ram0, Vm.StepBinary(c, v).value, Vm.Step(p, v).value, t.ram);
  }

  // ----- labels and jumps -----

  /** A jump target of the virtual machine is where its label was placed. */
  lemma TargetPlaced(p: Vm.Program, prog: seq<Instruction>, env: Env, fn: string, sym: string)
    requires Linked(p, prog, env) && Vm.LabelTarget(p, fn, sym).Some?
    ensures var target := Vm.LabelTarget(p, fn, sym).value;
            target < |p.commands| && Bound(env, LabelName(fn, sym), CodeAddress(p, target))
  {
    var target := Vm.LabelTarget(p, fn, sym).value;
    assert LabelsPlaced(p, env, target);
  }

  lemma LabelBlock(p: Vm.Program, i: nat)
    requires i < |p.commands| && p.commands[i].Label?
    ensures Strip(Block(p, i)) == []
  {
  }

  lemma SimLabel(p: Vm.Program, prog: seq<Instruction>, env: Env, boot: Boot, ram0: Ram, v: Vm.State, s: Cpu)
      returns (n: nat)
    requires Ready(p, prog, env, boot, ram0, v, s)
    requires p.commands[v.pc].Label? && Vm.Step(p, v).Some?
    ensures Reaches(p, prog, env, boot, ram0, s, n, Vm.Step(p, v).value)
  {
    hide Bootstrap, Block, Body, Link, CodeAddress, RegistersPlaced, StaticsPlaced, LabelsPlaced, Represents;
    FrameHeld(p, env, boot, ram0, v, s.ram);
    n := 0;
    BlockStands(p, prog, v.pc);
    LabelBlock(p, v.pc);
    Repositioned(p, env, boot, ram0, v, Vm.Step(p, v).value, s.ram);
  }

  lemma GotoBlock(p: Vm.Program, i: nat)
    requires i < |p.commands| && p.commands[i].Goto?
    ensures Strip(Block(p, i)) == [At(LabelName(Vm.FunctionAt(p.commands, i), p.commands[i].sym)), GOTO]
  {
    StripLines([At(LabelName(Vm.FunctionAt(p.commands, i), p.commands[i].sym)), GOTO]);
  }

  lemma SimGoto(p: Vm.Program, prog: seq<Instruction>, env: Env, boot: Boot, ram0: Ram, v: Vm.State, s: Cpu)
      returns (n: nat)
    requires Ready(p, prog, env, boot, ram0, v, s)
    requires p.commands[v.pc].Goto? && Vm.Step(p, v).Some?
    ensures Reaches(p, prog, env, boot, ram0, s, n, Vm.Step(p, v).value)
  {
    hide Bootstrap, Block, Body, Link, CodeAddress, RegistersPlaced, StaticsPlaced, LabelsPlaced, Represents, Run,
        LabelName, Vm.LabelTarget,
      JumpTaken;
    FrameHeld(p, env, boot, ram0, v, s.ram);
    var fn, sym := Vm.FunctionAt(p.commands, v.pc), p.commands[v.pc].sym;
    BlockStands(p, prog, v.pc);
    GotoBlock(p, v.pc);
    RunJump(prog, env, s, LabelName(fn, sym), Zero, JMP);
    JumpAlways();
    TargetPlaced(p, prog, env, fn, sym);
    n := 2;
    Repositioned(p, env, boot, ram0, v, Vm.Step(p, v).value, s.ram);
  }

  lemma IfGotoBlock(p: Vm.Program, i: nat)
    requires i < |p.commands| && p.commands[i].IfGoto?
    ensures Strip(Block(p, i))
         == POP_D + [At(LabelName(Vm.FunctionAt(p.commands, i), p.commands[i].sym)), CInst(DestNull, D, JNE)]
  {
    StripLines(POP_D + [At(LabelName(Vm.FunctionAt(p.commands, i), p.commands[i].sym)), CInst(DestNull, D, JNE)]);
  }

  lemma JumpNotZero(w: Word)
    ensures JumpTaken(JNE, w) <==> w != 0
  {
  }

  lemma SimIfGoto(p: Vm.Program, prog: seq<Instruction>, env: Env, boot: Boot, ram0: Ram, v: Vm.State, s: Cpu)
      returns (n: nat)
    requires Ready(p, prog, env, boot, ram0, v, s)
    requires p.commands[v.pc].IfGoto? && Vm.Step(p, v).Some?
    ensures Reaches(p, prog, env, boot, ram0, s, n, Vm.Step(p, v).value)
  {
    hide Bootstrap, Block, Body, Link, CodeAddress, RegistersPlaced, StaticsPlaced, LabelsPlaced, Exec, Run,
        Represents, LabelName, Vm.LabelTarget, JumpTaken, POP_D;
    FrameHeld(p, env, boot, ram0, v, s.ram);
    var fn, sym := Vm.FunctionAt(p.commands, v.pc), p.commands[v.pc].sym;
    var branch := [At(LabelName(fn, sym)), CInst(DestNull, D, JNE)];
    BlockStands(p, prog, v.pc);
    IfGotoBlock(p, v.pc);
    AtConcat(prog, s.pc, POP_D, branch);
    assert |POP_D| == 3 && Straight(POP_D) by { PopStraight(); }
    RunStraight(prog, env, s, POP_D);
    PopDEffect(env, s);
    var s1 := Exec(POP_D, env, s);
    assert s.ram[13 := s.ram[13]] == s.ram;
    PopRepresents(p, env, boot, ram0, v, s.ram, s.ram[13], s1.ram);
    var (v1, w) := Vm.PopWord(v).value;
    RunJump(prog, env, s1, LabelName(fn, sym), D, JNE);
    JumpNotZero(w);
    RunThen(prog, env, s, 3, s1, 2);
    n := 5;
    if w != 0 {
      TargetPlaced(p, prog, env, fn, sym);
    }
    Repositioned(p, env, boot, ram0, v1, Vm.Step(p, v).value, s1.ram);
  }

  lemma PopStraight()
    ensures |POP_D| == 3 && Straight(POP_D)
  {
  }
}
