/** The stack virtual machine: its commands and what a program of them means, on frames, segments and
a heap instead of memory addresses (sections 7.2 and 8.2 of The Elements of Computing Systems). */
module Vm {
  import opened Options
  import W = Words

  type Word = W.Word

  datatype Segment = Argument | Local | Static | Constant | This | That | Pointer | Temp

  datatype Command =
    | Push(segment: Segment, index: Word)
    | Pop(segment: Segment, index: Word)
    | Add | Subtract | Negate
    | Equal | GreaterThan | LessThan
    | And | Or | Not
    | Label(sym: string)
    | Goto(sym: string)
    | IfGoto(sym: string)
    | Function(name: string, nvars: Word)
    | Call(name: string, nargs: Word)
    | Return

  /** One source file. */
  datatype Program = Program(file: string, commands: seq<Command>)

  /** The function that the text before command i has opened last. */
  function FunctionAt(commands: seq<Command>, i: nat): string
    requires i <= |commands|
  {
    if i == 0 then ""
    else if commands[i - 1].Function? then commands[i - 1].name
    else FunctionAt(commands, i - 1)
  }

  /** The first command from index i on that satisfies the test. */
  function Find(commands: seq<Command>, test: nat -> bool, i: nat): (r: Option<nat>)
    requires i <= |commands|
    ensures r.Some? ==> i <= r.value < |commands| && test(r.value)
    decreases |commands| - i
  {
    if i == |commands| then None
    else if test(i) then Some(i)
    else Find(commands, test, i + 1)
  }

  /** Where control goes for a label used inside the given function. */
  function LabelTarget(p: Program, fn: string, sym: string): Option<nat> {
    Find(p.commands,
         (j: nat) => j < |p.commands| && p.commands[j] == Label(sym) && FunctionAt(p.commands, j) == fn, 0)
  }

  function FunctionEntry(p: Program, name: string): Option<nat> {
    Find(p.commands, (j: nat) => j < |p.commands| && p.commands[j].Function? && p.commands[j].name == name, 0)
  }

  // ----- machine states -----

  /** An activation: where to return to, its arguments, local variables and working stack, and its
  this and that pointers. */
  datatype Frame = Frame(
    ret: nat, args: seq<Word>, locals: seq<Word>, stack: seq<Word>, thisBase: Word, thatBase: Word)

  /** The suspended activations, the innermost last. */
  datatype Frames = Bottom | Frames(outer: Frames, inner: Frame)

  const STACK_BASE: nat := 256
  const HEAP_BASE: nat := 2048
  const HEAP_SIZE: nat := 0x8000 - HEAP_BASE

  datatype State = State(
    pc: nat,
    callers: Frames,
    top: Frame,
    statics: map<nat, Word>,
    temp: seq<Word>,
    heap: seq<Word>)
  {
    predicate Valid() {
      |temp| == 8 && |heap| == HEAP_SIZE
    }
  }

  function FrameSize(f: Frame): nat {
    |f.args| + 5 + |f.locals| + |f.stack|
  }

  /** The words of stack that these activations take. */
  function Depth(fs: Frames): nat {
    match fs
    case Bottom => 0
    case Frames(outer, inner) => Depth(outer) + FrameSize(inner)
  }

  predicate HasRoom(s: State, k: nat) {
    STACK_BASE + Depth(s.callers) + FrameSize(s.top) + k <= HEAP_BASE
  }

  // ----- segments -----

  function ReadHeap(s: State, a: nat): Option<Word>
    requires s.Valid()
  {
    if HEAP_BASE <= a < 0x8000 then Some(s.heap[a - HEAP_BASE]) else None
  }

  function WriteHeap(s: State, a: nat, v: Word): Option<State>
    requires s.Valid()
  {
    if HEAP_BASE <= a < 0x8000 then Some(s.(heap := s.heap[a - HEAP_BASE := v])) else None
  }

  function ReadSegment(s: State, segment: Segment, i: Word): Option<Word>
    requires s.Valid()
  {
    match segment
    case Argument => if i < |s.top.args| then Some(s.top.args[i]) else None
    case Local => if i < |s.top.locals| then Some(s.top.locals[i]) else None
    case Static => if i in s.statics then Some(s.statics[i]) else None
    case Constant => Some(i)
    case This => ReadHeap(s, s.top.thisBase + i)
    case That => ReadHeap(s, s.top.thatBase + i)
    case Pointer => if i == 0 then Some(s.top.thisBase) else if i == 1 then Some(s.top.thatBase) else None
    case Temp => if i < 8 then Some(s.temp[i]) else None
  }

  function WriteSegment(s: State, segment: Segment, i: Word, v: Word): (r: Option<State>)
    requires s.Valid()
    ensures r.Some? ==> r.value.Valid()
  {
    match segment
    case Argument => if i < |s.top.args| then Some(s.(top := s.top.(args := s.top.args[i := v]))) else None
    case Local => if i < |s.top.locals| then Some(s.(top := s.top.(locals := s.top.locals[i := v]))) else None
    case Static => if i in s.statics then Some(s.(statics := s.statics[i as nat := v])) else None
    case Constant => None
    case This => WriteHeap(s, s.top.thisBase + i, v)
    case That => WriteHeap(s, s.top.thatBase + i, v)
    case Pointer =>
      if i == 0 then Some(s.(top := s.top.(thisBase := v)))
      else if i == 1 then Some(s.(top := s.top.(thatBase := v)))
      else None
    case Temp => if i < 8 then Some(s.(temp := s.temp[i := v])) else None
  }

  // ----- steps -----

  function PushWord(s: State, v: Word): Option<State> {
    if HasRoom(s, 1) then Some(s.(top := s.top.(stack := s.top.stack + [v]))) else None
  }

  function PopWord(s: State): Option<(State, Word)> {
    var n := |s.top.stack|;
    if n == 0 then None
    else Some((s.(top := s.top.(stack := s.top.stack[..n - 1])), s.top.stack[n - 1]))
  }

  predicate IsUnary(c: Command) {
    c.Negate? || c.Not?
  }

  predicate IsComparison(c: Command) {
    c.Equal? || c.GreaterThan? || c.LessThan?
  }

  predicate IsBinary(c: Command) {
    c.Add? || c.Subtract? || c.And? || c.Or? || IsComparison(c)
  }

  function UnaryOp(c: Command, x: Word): Word
    requires IsUnary(c)
  {
    if c.Negate? then W.Neg(x) else W.Not(x)
  }

  function Truth(b: bool): Word {
    if b then 0xFFFF else 0
  }

  /** The comparisons look at the sign of the wrapped difference. */
  function BinaryOp(c: Command, x: Word, y: Word): Word
    requires IsBinary(c)
  {
    match c
    case Add => W.Add(x, y)
    case Subtract => W.Sub(x, y)
    case And => W.And(x, y)
    case Or => W.Or(x, y)
    case Equal => Truth(x == y)
    case GreaterThan => Truth(W.Signed(W.Sub(x, y)) > 0)
    case _ => Truth(W.Signed(W.Sub(x, y)) < 0)
  }

  function StepUnary(c: Command, s: State): Option<State>
    requires IsUnary(c)
  {
    var n := |s.top.stack|;
    if n == 0 then None
    else Some(s.(top := s.top.(stack := s.top.stack[n - 1 := UnaryOp(c, s.top.stack[n - 1])])))
  }

  function StepBinary(c: Command, s: State): Option<State>
    requires IsBinary(c)
  {
    var n := |s.top.stack|;
    if n < 2 then None
    else
      var v := BinaryOp(c, s.top.stack[n - 2], s.top.stack[n - 1]);
      Some(s.(top := s.top.(stack := s.top.stack[..n - 2] + [v])))
  }

  function StepPush(s: State, segment: Segment, i: Word): Option<State>
    requires s.Valid()
  {
    var v :- ReadSegment(s, segment, i);
    PushWord(s, v)
  }

  function StepPop(s: State, segment: Segment, i: Word): Option<State>
    requires s.Valid()
  {
    var (s', v) :- PopWord(s);
    WriteSegment(s', segment, i, v)
  }

  /** Entering a function creates its local variables. */
  function StepFunction(s: State, nvars: Word): Option<State> {
    if s.top.locals == [] && s.top.stack == [] && HasRoom(s, nvars) then
      Some(s.(top := s.top.(locals := seq(nvars, _ => 0))))
    else None
  }

  /** The callee takes its arguments off the caller's stack. */
  function StepCall(p: Program, s: State, name: string, nargs: Word): Option<State> {
    var entry :- FunctionEntry(p, name);
    var n := |s.top.stack|;
    if nargs <= n && HasRoom(s, 5) then
      Some(s.(pc := entry,
              callers := Frames(s.callers, s.top.(stack := s.top.stack[..n - nargs])),
              top := Frame(s.pc + 1, s.top.stack[n - nargs..], [], [], s.top.thisBase, s.top.thatBase)))
    else None
  }

  /** The returned value replaces the arguments on the caller's stack. */
  function StepReturn(s: State): Option<State> {
    var n := |s.top.stack|;
    if n == 0 || s.callers.Bottom? then None
    else
      var caller := s.callers.inner;
      Some(s.(pc := s.top.ret,
              callers := s.callers.outer,
              top := caller.(stack := caller.stack + [s.top.stack[n - 1]])))
  }

  function Advance(r: Option<State>): Option<State> {
    match r
    case None => None
    case Some(s) => Some(s.(pc := s.pc + 1))
  }

  /** One command; None for stack underflow and overflow, an index outside its segment, an undefined
  label or function, a heap pointer outside the heap, and returning from the outermost function. */
  function Step(p: Program, s: State): Option<State>
    requires s.Valid()
  {
    if s.pc >= |p.commands| then None
    else
      var c := p.commands[s.pc];
      if IsUnary(c) then Advance(StepUnary(c, s))
      else if IsBinary(c) then Advance(StepBinary(c, s))
      else match c
        case Push(segment, i) => Advance(StepPush(s, segment, i))
        case Pop(segment, i) => Advance(StepPop(s, segment, i))
        case Label(_) => Some(s.(pc := s.pc + 1))
        case Goto(sym) =>
          var target :- LabelTarget(p, FunctionAt(p.commands, s.pc), sym);
          Some(s.(pc := target))
        case IfGoto(sym) =>
          var (s', v) :- PopWord(s);
          if v == 0 then Some(s'.(pc := s.pc + 1))
          else
            var target :- LabelTarget(p, FunctionAt(p.commands, s.pc), sym);
            Some(s'.(pc := target))
        case Function(_, nvars) => Advance(StepFunction(s, nvars))
        case Call(name, nargs) => StepCall(p, s, name, nargs)
        case _ => StepReturn(s)
  }

  lemma StepValid(p: Program, s: State)
    requires s.Valid() && Step(p, s).Some?
    ensures Step(p, s).value.Valid()
  {
  }

  function Run(p: Program, s: State, n: nat): (r: Option<State>)
    requires s.Valid()
    ensures r.Some? ==> r.value.Valid()
    decreases n
  {
    if n == 0 then Some(s)
    else
      var s' :- Step(p, s);
      StepValid(p, s);
      Run(p, s', n - 1)
  }

  // ----- comparisons -----

  /** eq is exact; gt and lt each give the signed order exactly when the signed difference is a 16-bit
  signed number. */
  lemma ComparisonExact(x: Word, y: Word)
    ensures BinaryOp(Equal, x, y) == Truth(x == y)
    ensures var diff := W.Signed(x) - W.Signed(y);
            && (BinaryOp(GreaterThan, x, y) == Truth(diff > 0) <==> -0x8000 <= diff < 0x8000)
            && (BinaryOp(LessThan, x, y) == Truth(diff < 0) <==> -0x8000 <= diff < 0x8000)
  {
  }

  // ----- arithmetic -----

  /** Addition, subtraction and negation each give the signed result exactly when it is a 16-bit signed number; the
  second word from the top is the one that is subtracted from. Inverting gives -x - 1. */
  lemma ArithmeticExact(x: Word, y: Word)
    ensures var sum, diff := W.Signed(x) + W.Signed(y), W.Signed(x) - W.Signed(y);
            && (W.Signed(BinaryOp(Add, x, y)) == sum <==> -0x8000 <= sum < 0x8000)
            && (W.Signed(BinaryOp(Subtract, x, y)) == diff <==> -0x8000 <= diff < 0x8000)
    ensures W.Signed(UnaryOp(Negate, x)) == -W.Signed(x) <==> W.Signed(x) != -0x8000
    ensures W.Signed(UnaryOp(Not, x)) == -W.Signed(x) - 1
  {
    W.SumSigned(x, y);
    W.DifferenceSigned(x, y);
    W.DifferenceSigned(0, x);
    W.InverseSigned(x);
    hide W.Add, W.Sub, W.Not, W.Signed;
    assert W.Signed(0) == 0 by { W.ZeroSigned(); }
    W.SignedRange(x);
  }

  function Bit(x: nat, k: nat): bool {
    if k == 0 then x % 2 == 1 else Bit(x / 2, k - 1)
  }

  lemma {:induction false} BitsOf(n: nat, x: nat, y: nat, k: nat)
    requires k < n
    ensures Bit(W.AndBits(n, x, y), k) == (Bit(x, k) && Bit(y, k))
    ensures Bit(W.OrBits(n, x, y), k) == (Bit(x, k) || Bit(y, k))
  {
    if k > 0 {
      BitsOf(n - 1, x / 2, y / 2, k - 1);
    }
  }

  /** Conjunction and disjunction work on each of the 16 bits. */
  lemma BitwiseExact(x: Word, y: Word, k: nat)
    requires k < 16
    ensures Bit(BinaryOp(And, x, y), k) == (Bit(x, k) && Bit(y, k))
    ensures Bit(BinaryOp(Or, x, y), k) == (Bit(x, k) || Bit(y, k))
  {
    BitsOf(16, x, y, k);
    hide Bit;
  }
}
