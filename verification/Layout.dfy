/** How the frames, segments and heap of the virtual machine lie in the memory of the Hack computer. */
module Layout {
  import opened Asm
  import opened Linking
  import opened Translator
  import opened Words
  import Vm

  /** Five words below the locals of the outermost activation, left there by the bootstrap code. */
  type Boot = s: seq<Word> | |s| == 5 witness [0, 0, 0, 0, 0]

  ghost function ReturnAddress(p: Vm.Program, ret: nat): nat {
    if ret <= |p.commands| && AllFit(p.commands) then CodeAddress(p, ret) else 0
  }

  function ArgOf(outer: Vm.Frames): nat {
    Vm.STACK_BASE + Vm.Depth(outer)
  }

  function LclOf(outer: Vm.Frames, f: Vm.Frame): nat {
    ArgOf(outer) + |f.args| + 5
  }

  function SpOf(outer: Vm.Frames, f: Vm.Frame): nat {
    LclOf(outer, f) + |f.locals| + |f.stack|
  }

  /** The words saved by a call: return address, and the caller's LCL, ARG, THIS and THAT. */
  ghost function Saved(p: Vm.Program, boot: Boot, outer: Vm.Frames, ret: nat): (r: seq<int>)
    ensures |r| == 5
  {
    match outer
    case Bottom => boot
    case Frames(o, f) => [ReturnAddress(p, ret), LclOf(o, f), ArgOf(o), f.thisBase, f.thatBase]
  }

  ghost function FrameImage(p: Vm.Program, boot: Boot, outer: Vm.Frames, f: Vm.Frame): (r: seq<int>)
    ensures |r| == Vm.FrameSize(f)
  {
    f.args + Saved(p, boot, outer, f.ret) + f.locals + f.stack
  }

  /** The stack region of memory, from STACK_BASE on. */
  ghost function StackImage(p: Vm.Program, boot: Boot, fs: Vm.Frames): (r: seq<int>)
    ensures |r| == Vm.Depth(fs)
  {
    match fs
    case Bottom => []
    case Frames(outer, inner) => StackImage(p, boot, outer) + FrameImage(p, boot, outer, inner)
  }

  // ----- the parts of memory -----

  ghost predicate Holds(ram: Ram, base: nat, image: seq<int>) {
    && base + |image| <= 0x8000
    && forall a :: base <= a < base + |image| ==> ram[a] == image[a - base]
  }

  ghost predicate PointersHold(v: Vm.State, ram: Ram) {
    && ram[0] == SpOf(v.callers, v.top)
    && ram[1] == LclOf(v.callers, v.top)
    && ram[2] == ArgOf(v.callers)
    && ram[3] == v.top.thisBase
    && ram[4] == v.top.thatBase
  }

  ghost predicate StaticsHold(file: string, env: Env, statics: map<nat, Word>, ram: Ram) {
    forall k :: k in statics ==>
      && StaticName(file, k) in env
      && env[StaticName(file, k)] < 0x8000
      && ram[env[StaticName(file, k)]] == statics[k]
  }

  ghost predicate IsStatic(file: string, env: Env, statics: map<nat, Word>, a: nat) {
    exists k :: k in statics && StaticName(file, k) in env && env[StaticName(file, k)] == a
  }

  /** Words below the stack that belong to no segment keep their initial contents: only R13 and R14
  are scratch. */
  ghost predicate Untouched(file: string, env: Env, statics: map<nat, Word>, ram0: Ram, ram: Ram) {
    forall a :: 15 <= a < Vm.STACK_BASE && !IsStatic(file, env, statics, a) ==> ram[a] == ram0[a]
  }

  /** The memory is that of the given machine state. */
  ghost predicate Represents(p: Vm.Program, env: Env, boot: Boot, ram0: Ram, v: Vm.State, ram: Ram) {
    && v.Valid() && Vm.HasRoom(v, 0)
    && PointersHold(v, ram)
    && Holds(ram, 5, v.temp)
    && StaticsHold(p.file, env, v.statics, ram)
    && Untouched(p.file, env, v.statics, ram0, ram)
    && Holds(ram, Vm.STACK_BASE, StackImage(p, boot, v.callers))
    && Holds(ram, ArgOf(v.callers), FrameImage(p, boot, v.callers, v.top))
    && Holds(ram, Vm.HEAP_BASE, v.heap)
  }

  /** What keeps every part of memory but the current frame and the pointers. */
  ghost predicate SameBut(ram: Ram, ram': Ram, from: nat) {
    && from <= 0x8000
    && (forall a :: 5 <= a < 13 ==> ram'[a] == ram[a])
    && (forall a :: 15 <= a < from ==> ram'[a] == ram[a])
    && (forall a :: Vm.HEAP_BASE <= a < 0x8000 ==> ram'[a] == ram[a])
  }

  /** A change of the current frame alone. */
  lemma FrameChanged(p: Vm.Program, env: Env, boot: Boot, ram0: Ram, v: Vm.State, ram: Ram, v': Vm.State, ram': Ram)
    requires StaticsPlaced(p.file, env)
    requires Represents(p, env, boot, ram0, v, ram)
    requires v' == v.(pc := v'.pc, top := v'.top) && Vm.HasRoom(v', 0)
    requires SameBut(ram, ram', ArgOf(v.callers))
    requires PointersHold(v', ram')
    requires Holds(ram', ArgOf(v.callers), FrameImage(p, boot, v.callers, v'.top))
    ensures Represents(p, env, boot, ram0, v', ram')
  {
    hide StackImage, FrameImage, Vm.Depth;
  }
}
