/** Translating and assembling a well-named file: every label of the linked program stands for the
instruction the translator meant, and every static variable gets a memory word of its own. */
module Linking {
  import opened Asm
  import opened Naming
  import opened Options
  import opened Translator
  import A = Assembler
  import HackCpu
  import Vm

  /** The naming discipline under which no two labels clash. The translator does not check it. */
  ghost predicate WellNamed(p: Vm.Program) {
    var cs := p.commands;
    && cs != [] && cs[0].Function?
    && '$' !in p.file
    && (forall i :: 0 <= i < |cs| && cs[i].Function? ==> FunctionNameOk(p.file, cs[i].name))
    && (forall i, j :: 0 <= i < j < |cs| && cs[i].Function? && cs[j].Function? ==> cs[i].name != cs[j].name)
    && (forall i :: 0 <= i < |cs| && cs[i].Label? ==> PlainLabel(cs[i].sym))
    && (forall i, j :: 0 <= i < j < |cs| && cs[i].Label? && cs[j] == cs[i] ==>
          Vm.FunctionAt(cs, i) != Vm.FunctionAt(cs, j))
  }

  ghost predicate FunctionNameOk(file: string, name: string) {
    && name != "" && PlainName(name) && name !in A.PREDEFINED
    && forall k :: name != StaticName(file, k)
  }

  // ----- the labels of a block -----

  ghost function BlockOrigins(p: Vm.Program, i: nat): set<Origin>
    requires i < |p.commands|
  {
    var c, fn, k := p.commands[i], Vm.FunctionAt(p.commands, i), CounterAt(p.commands, i);
    if Vm.IsComparison(c) then {OfComparison(Success, k), OfComparison(Fail, k), OfComparison(End, k)}
    else match c
      case Label(sym) => {OfLabel(fn, sym)}
      case Function(name, _) => {OfFunction(name)}
      case Call(_, _) => {OfReturn(fn, k)}
      case _ => {}
  }

  lemma ComparisonOrigin(p: Vm.Program, i: nat, name: string)
    requires i < |p.commands| && Vm.IsComparison(p.commands[i]) && Label(name) in Block(p, i)
    ensures exists o :: o in BlockOrigins(p, i) && NameOf(o) == name
  {
    hide Block, SuccessLabel, FailLabel, EndLabel, CounterAt, Vm.FunctionAt;
    var k := CounterAt(p.commands, i);
    var a :| 0 <= a < |Block(p, i)| && Block(p, i)[a] == Label(name);
    ComparisonLabelLines(p, i, a);
    var o := OfComparison(if a == 10 then Success else if a == 14 then Fail else End, k);
    assert o in BlockOrigins(p, i) && NameOf(o) == name;
  }

  lemma LabelOrigin(p: Vm.Program, i: nat, name: string)
    requires i < |p.commands| && Fits(p.commands[i]) && p.commands[i].Label? && Label(name) in Block(p, i)
    ensures NameOf(OfLabel(Vm.FunctionAt(p.commands, i), p.commands[i].sym)) == name
  {
    hide LabelName, CounterAt, Vm.FunctionAt;
  }

  lemma FunctionOrigin(p: Vm.Program, i: nat, name: string)
    requires i < |p.commands| && Fits(p.commands[i]) && p.commands[i].Function? && Label(name) in Block(p, i)
    ensures NameOf(OfFunction(p.commands[i].name)) == name
  {
    hide PushZeros, CounterAt, Vm.FunctionAt;
  }

  lemma CallOrigin(p: Vm.Program, i: nat, name: string)
    requires i < |p.commands| && Fits(p.commands[i]) && p.commands[i].Call? && Label(name) in Block(p, i)
    ensures NameOf(OfReturn(Vm.FunctionAt(p.commands, i), CounterAt(p.commands, i))) == name
  {
    hide SaveCaller, Reposition, ReturnLabel, CounterAt, Vm.FunctionAt;
  }

  lemma BlockLabels(p: Vm.Program, i: nat, name: string)
    requires i < |p.commands| && Fits(p.commands[i]) && Label(name) in Block(p, i)
    ensures exists o :: o in BlockOrigins(p, i) && NameOf(o) == name
  {
    hide Block, NameOf, CounterAt, Vm.FunctionAt;
    var c, fn, k := p.commands[i], Vm.FunctionAt(p.commands, i), CounterAt(p.commands, i);
    if Vm.IsComparison(c) {
      ComparisonOrigin(p, i, name);
    } else if c.Label? {
      LabelOrigin(p, i, name);
      assert OfLabel(fn, c.sym) in BlockOrigins(p, i);
    } else if c.Function? {
      FunctionOrigin(p, i, name);
      assert OfFunction(c.name) in BlockOrigins(p, i);
    } else if c.Call? {
      CallOrigin(p, i, name);
      assert OfReturn(fn, k) in BlockOrigins(p, i);
    } else {
      NoLabels(p, i);
    }
  }

  lemma {:induction false} FunctionAtNamed(p: Vm.Program, i: nat)
    requires WellNamed(p) && 0 < i <= |p.commands|
    ensures FunctionNameOk(p.file, Vm.FunctionAt(p.commands, i))
  {
    if !p.commands[i - 1].Function? {
      FunctionAtNamed(p, i - 1);
    }
  }

  lemma BlockOriginsWellFormed(p: Vm.Program, i: nat, o: Origin)
    requires WellNamed(p) && i < |p.commands| && o in BlockOrigins(p, i)
    ensures WellFormed(o) && o != OfFooter && (Dollar(o) ==> o.fn != "")
    ensures o.OfFunction? ==> FunctionNameOk(p.file, o.name)
  {
    if i > 0 {
      FunctionAtNamed(p, i);
    }
  }

  lemma {:induction false} CounterGrows(commands: seq<Vm.Command>, i: nat, j: nat)
    requires i < j <= |commands|
    ensures CounterAt(commands, i) <= CounterAt(commands, j)
    ensures UsesCounter(commands[i]) ==> CounterAt(commands, i) < CounterAt(commands, j)
  {
    if i < j - 1 {
      CounterGrows(commands, i, j - 1);
    }
  }

  lemma BlockOriginsDisjoint(p: Vm.Program, i: nat, j: nat)
    requires WellNamed(p) && i < j < |p.commands|
    ensures BlockOrigins(p, i) !! BlockOrigins(p, j)
  {
    CounterGrows(p.commands, i, j);
  }

  lemma ComparisonLabelLines(p: Vm.Program, i: nat, a: nat)
    requires i < |p.commands| && Vm.IsComparison(p.commands[i]) && a < |Block(p, i)| && Block(p, i)[a].Label?
    ensures var k := CounterAt(p.commands, i);
            && (a == 10 || a == 14 || a == 16)
            && Block(p, i)[a].name == if a == 10 then SuccessLabel(k) else if a == 14 then FailLabel(k) else EndLabel(k)
  {
    hide SuccessLabel, FailLabel, EndLabel, CounterAt;
  }

  lemma CallLabelLine(p: Vm.Program, i: nat, a: nat)
    requires i < |p.commands| && Fits(p.commands[i]) && p.commands[i].Call?
    requires a < |Block(p, i)| && Block(p, i)[a].Label?
    ensures a == |Block(p, i)| - 1
  {
    hide SaveCaller, Reposition, ReturnLabel;
  }

  lemma BlockGenerates(p: Vm.Program, i: nat, name: string) returns (o: Origin)
    requires i < |p.commands| && Fits(p.commands[i]) && UsesCounter(p.commands[i]) && Label(name) in Block(p, i)
    ensures Generated(o) && NameOf(o) == name && o.counter == CounterAt(p.commands, i)
  {
    hide Block, NameOf, CounterAt;
    BlockLabels(p, i, name);
    o :| o in BlockOrigins(p, i) && NameOf(o) == name;
  }

  /** All comparison labels and return labels that one translation makes differ from each other: no file
  name, function name or label can make two of them the same. */
  lemma GeneratedLabelsDistinct(p: Vm.Program, i: nat, a: nat, j: nat, b: nat)
    requires i <= j < |p.commands| && (i, a) != (j, b)
    requires Fits(p.commands[i]) && UsesCounter(p.commands[i]) && a < |Block(p, i)| && Block(p, i)[a].Label?
    requires Fits(p.commands[j]) && UsesCounter(p.commands[j]) && b < |Block(p, j)| && Block(p, j)[b].Label?
    ensures Block(p, i)[a].name != Block(p, j)[b].name
  {
    hide Block, NameOf, BlockOrigins, SuccessLabel, FailLabel, EndLabel, CounterAt;
    if i < j {
      CounterGrows(p.commands, i, j);
      var o := BlockGenerates(p, i, Block(p, i)[a].name);
      var q := BlockGenerates(p, j, Block(p, j)[b].name);
      if NameOf(o) == NameOf(q) {
        GeneratedNamesDistinct(o, q);
      }
    } else if Vm.IsComparison(p.commands[i]) {
      ComparisonLabelLines(p, i, a);
      ComparisonLabelLines(p, i, b);
      ComparisonNames(CounterAt(p.commands, i));
    } else {
      CallLabelLine(p, i, a);
      CallLabelLine(p, i, b);
    }
  }

  // ----- the program from a command on -----

  ghost function Tail(p: Vm.Program, i: nat): seq<Element>
    requires i <= |p.commands| && AllFit(p.commands)
    decreases |p.commands| - i
  {
    if i == |p.commands| then FOOTER else Block(p, i) + Tail(p, i + 1)
  }

  lemma {:induction false} LinkSplit(p: Vm.Program, i: nat)
    requires i <= |p.commands| && AllFit(p.commands)
    ensures Link(p) == Bootstrap() + Body(p, i) + Tail(p, i)
    decreases |p.commands| - i
  {
    hide Bootstrap, Block;
    if i < |p.commands| {
      LinkSplit(p, i + 1);
    }
  }

  lemma {:induction false} TailLacks(p: Vm.Program, i: nat, o: Origin, j: nat)
    requires WellNamed(p) && AllFit(p.commands) && i < j <= |p.commands| && o in BlockOrigins(p, i)
    ensures Label(NameOf(o)) !in Tail(p, j)
    decreases |p.commands| - j
  {
    hide Block, BlockOrigins, WellNamed, Dollar;
    var name := NameOf(o);
    BlockOriginsWellFormed(p, i, o);
    if j == |p.commands| {
      if name == "_vm_END" {
        NamesDistinct(o, OfFooter);
      }
    } else {
      TailLacks(p, i, o, j + 1);
      if Label(name) in Block(p, j) {
        BlockLabels(p, j, name);
        var q :| q in BlockOrigins(p, j) && NameOf(q) == name;
        BlockOriginsWellFormed(p, j, q);
        NamesDistinct(o, q);
        BlockOriginsDisjoint(p, i, j);
      }
    }
  }

  /** A label of block i resolves to the number of instructions before it. */
  lemma BlockLabelResolves(p: Vm.Program, i: nat, o: Origin, before: seq<Element>, after: seq<Element>)
    requires WellNamed(p) && AllFit(p.commands) && i < |p.commands| && o in BlockOrigins(p, i)
    requires Block(p, i) == before + [Label(NameOf(o))] + after && Label(NameOf(o)) !in after
    ensures var t := A.SymbolTable(Link(p));
            NameOf(o) in t && t[NameOf(o)] == CodeAddress(p, i) + |Strip(before)|
  {
    hide Bootstrap, Body, Block, FOOTER, BlockOrigins, WellNamed, NameOf;
    var name := NameOf(o);
    LinkSplit(p, i);
    TailLacks(p, i, o, i + 1);
    var start := Bootstrap() + Body(p, i) + before;
    var rest := after + Tail(p, i + 1);
    assert Link(p) == start + [Label(name)] + rest;
    A.LabelResolves(start, name, rest);
    StripConcat(Bootstrap() + Body(p, i), before);
    A.VariablesDistinct(Strip(Link(p)), A.LabelTable(Link(p)));
  }

  // ----- every label of the program -----

  lemma {:induction false} LinkLabels(p: Vm.Program, i: nat, name: string)
    requires WellNamed(p) && AllFit(p.commands) && i <= |p.commands| && Label(name) in Tail(p, i)
    ensures exists o :: WellFormed(o) && NameOf(o) == name && (o.OfFunction? ==> FunctionNameOk(p.file, o.name))
    decreases |p.commands| - i
  {
    hide Block, BlockOrigins, WellNamed;
    if i == |p.commands| {
      assert NameOf(OfFooter) == name;
    } else if Label(name) in Block(p, i) {
      BlockLabels(p, i, name);
      var o :| o in BlockOrigins(p, i) && NameOf(o) == name;
      BlockOriginsWellFormed(p, i, o);
    } else {
      LinkLabels(p, i + 1, name);
    }
  }

  lemma AllLabels(p: Vm.Program, name: string)
    requires WellNamed(p) && AllFit(p.commands) && Label(name) in Link(p)
    ensures name !in A.PREDEFINED
    ensures forall k :: name != StaticName(p.file, k)
  {
    hide Block, A.PREDEFINED, PlainName;
    LinkSplit(p, 0);
    assert Link(p) == Bootstrap() + Tail(p, 0);
    var o: Origin;
    if Label(name) in Tail(p, 0) {
      LinkLabels(p, 0, name);
      o :| WellFormed(o) && NameOf(o) == name && (o.OfFunction? ==> FunctionNameOk(p.file, o.name));
    } else {
      o := OfReturn("", 0);
      assert Label(name) in Bootstrap() && NameOf(o) == name;
    }
    if !o.OfFunction? {
      PredefinedUnclaimed(o);
    }
    forall k ensures name != StaticName(p.file, k) {
      StaticUnclaimed(p.file, k, o);
    }
  }

  // ----- the linked program -----

  /** Static variables have distinct addresses from 16 to 255. */
  ghost predicate StaticsPlaced(file: string, env: Env) {
    && (forall k :: StaticName(file, k) in env ==> 16 <= env[StaticName(file, k)] < Vm.STACK_BASE)
    && (forall j, k :: StaticName(file, j) in env && StaticName(file, k) in env && j != k ==>
          env[StaticName(file, j)] != env[StaticName(file, k)])
  }

  ghost predicate RegistersPlaced(env: Env) {
    && "SP" in env && env["SP"] == 0
    && "LCL" in env && env["LCL"] == 1
    && "ARG" in env && env["ARG"] == 2
    && "THIS" in env && env["THIS"] == 3
    && "THAT" in env && env["THAT"] == 4
    && "R13" in env && env["R13"] == 13
    && "R14" in env && env["R14"] == 14
  }

  predicate Bound(env: Env, name: string, address: nat) {
    name in env && env[name] == address
  }

  /** The labels of command i are where control should go. */
  ghost predicate LabelsPlaced(p: Vm.Program, env: Env, i: nat)
    requires i < |p.commands| && AllFit(p.commands)
  {
    var c, fn, k, here := p.commands[i], Vm.FunctionAt(p.commands, i), CounterAt(p.commands, i), CodeAddress(p, i);
    if Vm.IsComparison(c) then
      && Bound(env, SuccessLabel(k), here + 10)
      && Bound(env, FailLabel(k), here + 13)
      && Bound(env, EndLabel(k), here + 14)
    else match c
      case Label(sym) => Bound(env, LabelName(fn, sym), here)
      case Function(name, _) => Bound(env, name, here)
      case Call(_, _) => Bound(env, ReturnLabel(fn, k), CodeAddress(p, i + 1))
      case _ => true
  }

  lemma {:induction false} StripLines(prog: seq<Instruction>)
    ensures Strip(Lines(prog)) == prog
  {
    if prog != [] {
      var init := prog[..|prog| - 1];
      StripLines(init);
      assert Lines(prog)[..|prog| - 1] == Lines(init);
      assert prog == init + [prog[|prog| - 1]];
    }
  }

  lemma StripLabel(name: string)
    ensures Strip([Label(name)]) == []
  {
  }

  /** The instructions of a block follow those of the blocks before it. */
  lemma CodeAddressNext(p: Vm.Program, i: nat)
    requires i < |p.commands| && AllFit(p.commands)
    ensures CodeAddress(p, i + 1) == CodeAddress(p, i) + |Strip(Block(p, i))|
  {
    hide Bootstrap, Block;
    assert Bootstrap() + Body(p, i + 1) == (Bootstrap() + Body(p, i)) + Block(p, i);
    StripConcat(Bootstrap() + Body(p, i), Block(p, i));
  }

  /** The seven parts of a comparison's code, cut at each of its three labels. */
  lemma CutAtLabels(head: seq<Element>, test: seq<Element>, s: Element, yes: seq<Element>, f: Element,
                    no: seq<Element>, e: Element, tail: seq<Element>)
    ensures var all := head + (test + [s] + yes + [f] + no + [e]) + tail;
            && all == (head + test) + [s] + (yes + [f] + no + [e] + tail)
            && all == (head + test + [s] + yes) + [f] + (no + [e] + tail)
            && all == (head + test + [s] + yes + [f] + no) + [e] + tail
  {
  }

  lemma StripBeforeLabels(head: seq<Instruction>, test: seq<Instruction>, s: string, yes: seq<Instruction>,
                          f: string, no: seq<Instruction>)
    ensures |Strip(Lines(head) + Lines(test))| == |head| + |test|
    ensures |Strip(Lines(head) + Lines(test) + [Label(s)] + Lines(yes))| == |head| + |test| + |yes|
    ensures |Strip(Lines(head) + Lines(test) + [Label(s)] + Lines(yes) + [Label(f)] + Lines(no))|
            == |head| + |test| + |yes| + |no|
  {
    hide Lines;
    StripLines(head);
    StripLines(test);
    StripLines(yes);
    StripLines(no);
    StripLabel(s);
    StripLabel(f);
    var b1 := Lines(head) + Lines(test);
    StripConcat(Lines(head), Lines(test));
    StripConcat(b1, [Label(s)]);
    StripConcat(b1 + [Label(s)], Lines(yes));
    var b2 := b1 + [Label(s)] + Lines(yes);
    StripConcat(b2, [Label(f)]);
    StripConcat(b2 + [Label(f)], Lines(no));
  }

  lemma ComparisonNames(k: nat)
    ensures SuccessLabel(k) != FailLabel(k) && FailLabel(k) != EndLabel(k) && EndLabel(k) != SuccessLabel(k)
  {
    assert SuccessLabel(k)[9] == 's' && FailLabel(k)[9] == 'f' && EndLabel(k)[9] == 'e';
  }

  lemma ComparisonLabelsPlaced(p: Vm.Program, i: nat)
    requires WellNamed(p) && AllFit(p.commands) && i < |p.commands| && Vm.IsComparison(p.commands[i])
    ensures LabelsPlaced(p, A.SymbolTable(Link(p)), i)
  {
    hide Bootstrap, Body, WellNamed, SuccessLabel, FailLabel, EndLabel, CodeAddress, Link, A.SymbolTable, Strip, Lines;
    var c, k := p.commands[i], CounterAt(p.commands, i);
    var s, f, e := Label(SuccessLabel(k)), Label(FailLabel(k)), Label(EndLabel(k));
    var yes, no, tail := Lines(ComparisonSuccess(k)), Lines(COMPARISON_FAIL), Lines(BINARY_TAIL);
    ComparisonNames(k);
    CutAtLabels(Lines(BINARY_HEAD), Lines(ComparisonTest(c, k)), s, yes, f, no, e, tail);
    StripBeforeLabels(BINARY_HEAD, ComparisonTest(c, k), s.name, ComparisonSuccess(k), f.name, COMPARISON_FAIL);
    var b1 := Lines(BINARY_HEAD) + Lines(ComparisonTest(c, k));
    BlockLabelResolves(p, i, OfComparison(Success, k), b1, yes + [f] + no + [e] + tail);
    BlockLabelResolves(p, i, OfComparison(Fail, k), b1 + [s] + yes, no + [e] + tail);
    BlockLabelResolves(p, i, OfComparison(End, k), b1 + [s] + yes + [f] + no, tail);
  }

  lemma CommandLabelsPlaced(p: Vm.Program, i: nat)
    requires WellNamed(p) && AllFit(p.commands) && i < |p.commands|
    ensures LabelsPlaced(p, A.SymbolTable(Link(p)), i)
  {
    hide Bootstrap, Body, WellNamed, CodeAddress, Link, A.SymbolTable, Lines, SaveCaller, Reposition, PushZeros;
    var c, fn, k := p.commands[i], Vm.FunctionAt(p.commands, i), CounterAt(p.commands, i);
    if Vm.IsComparison(c) {
      ComparisonLabelsPlaced(p, i);
    } else if c.Label? {
      assert Block(p, i) == [] + [Label(LabelName(fn, c.sym))] + [];
      BlockLabelResolves(p, i, OfLabel(fn, c.sym), [], []);
    } else if c.Function? {
      var rest := Lines(PushZeros(c.nvars));
      assert Block(p, i) == [] + [Label(c.name)] + rest;
      BlockLabelResolves(p, i, OfFunction(c.name), [], rest);
    } else if c.Call? {
      var ret := ReturnLabel(fn, k);
      var body := Lines(SaveCaller(ret) + Reposition(c.nargs) + [At(c.name), GOTO]);
      assert Block(p, i) == body + [Label(ret)] + [];
      BlockLabelResolves(p, i, OfReturn(fn, k), body, []);
      CodeAddressNext(p, i);
      StripConcat(body, [Label(ret)]);
    }
  }

  // ----- which names may be shared -----

  /** Line i, if it is a label, is where it stands, the code starting at instruction base. */
  ghost predicate PlacedAt(es: seq<Element>, env: Env, base: nat, i: nat)
    requires i < |es|
  {
    es[i].Label? ==> Bound(env, es[i].name, base + |Strip(es[..i])|)
  }

  /** Every label of a piece of code is where it stands. */
  ghost predicate Placed(es: seq<Element>, env: Env, base: nat) {
    forall i :: 0 <= i < |es| ==> PlacedAt(es, env, base, i)
  }

  lemma PlacedLeft(a: seq<Element>, b: seq<Element>, env: Env, base: nat, i: nat)
    requires i < |a|
    ensures PlacedAt(a + b, env, base, i) <==> PlacedAt(a, env, base, i)
  {
    assert (a + b)[..i] == a[..i];
  }

  lemma PlacedRight(a: seq<Element>, b: seq<Element>, env: Env, base: nat, i: nat)
    requires i < |b|
    ensures PlacedAt(a + b, env, base, |a| + i) <==> PlacedAt(b, env, base + |Strip(a)|, i)
  {
    hide Strip;
    assert (a + b)[..|a| + i] == a + b[..i];
    StripConcat(a, b[..i]);
  }

  lemma PlacedConcat(a: seq<Element>, b: seq<Element>, env: Env, base: nat)
    ensures Placed(a + b, env, base) <==> Placed(a, env, base) && Placed(b, env, base + |Strip(a)|)
  {
    hide Strip, PlacedAt;
    var next := base + |Strip(a)|;
    if Placed(a + b, env, base) {
      forall i: nat | i < |a| ensures PlacedAt(a, env, base, i) {
        PlacedLeft(a, b, env, base, i);
      }
      forall i: nat | i < |b| ensures PlacedAt(b, env, next, i) {
        PlacedRight(a, b, env, base, i);
      }
    }
    if Placed(a, env, base) && Placed(b, env, base + |Strip(a)|) {
      forall j: nat | j < |a + b| ensures PlacedAt(a + b, env, base, j) {
        if j < |a| {
          PlacedLeft(a, b, env, base, j);
        } else {
          PlacedRight(a, b, env, base, j - |a|);
        }
      }
    }
  }

  lemma PlacedLines(prog: seq<Instruction>, env: Env, base: nat)
    ensures Placed(Lines(prog), env, base)
  {
  }

  lemma PlacedLabel(name: string, env: Env, base: nat)
    ensures Placed([Label(name)], env, base) <==> Bound(env, name, base)
  {
    var es := [Label(name)];
    assert Strip(es[..0]) == [];
    assert PlacedAt(es, env, base, 0) <==> Bound(env, name, base);
  }

  /** A label between two pieces without labels. */
  lemma PlacedAround(before: seq<Instruction>, name: string, rest: seq<Element>, env: Env, base: nat)
    ensures Placed(Lines(before) + ([Label(name)] + rest), env, base)
            <==> Bound(env, name, base + |before|) && Placed(rest, env, base + |before|)
  {
    hide Placed, Lines, Bound;
    PlacedConcat(Lines(before), [Label(name)] + rest, env, base);
    PlacedLines(before, env, base);
    StripLines(before);
    PlacedConcat([Label(name)], rest, env, base + |before|);
    PlacedLabel(name, env, base + |before|);
    StripLabel(name);
  }

  lemma ComparisonPlacedIff(p: Vm.Program, env: Env, i: nat)
    requires AllFit(p.commands) && i < |p.commands| && Vm.IsComparison(p.commands[i])
    ensures Placed(Block(p, i), env, CodeAddress(p, i)) <==> LabelsPlaced(p, env, i)
  {
    hide Placed, Bound, CodeAddress, SuccessLabel, FailLabel, EndLabel, Lines, ComparisonTest, ComparisonSuccess;
    var c, k, here := p.commands[i], CounterAt(p.commands, i), CodeAddress(p, i);
    var test, yes, no := ComparisonTest(c, k), ComparisonSuccess(k), COMPARISON_FAIL;
    assert |test| == 5 && |yes| == 3 by { ComparisonLengths(c, k); }
    var three := Lines(no) + ([Label(EndLabel(k))] + Lines(BINARY_TAIL));
    var two := Lines(yes) + ([Label(FailLabel(k))] + three);
    var one := Lines(test) + ([Label(SuccessLabel(k))] + two);
    assert Block(p, i) == Lines(BINARY_HEAD) + one by {
      ComparisonPieces(Lines(BINARY_HEAD), Lines(test), Label(SuccessLabel(k)), Lines(yes), Label(FailLabel(k)),
                       Lines(no), Label(EndLabel(k)), Lines(BINARY_TAIL));
    }
    PlacedConcat(Lines(BINARY_HEAD), one, env, here);
    PlacedLines(BINARY_HEAD, env, here);
    StripLines(BINARY_HEAD);
    PlacedAround(test, SuccessLabel(k), two, env, here + 5);
    PlacedAround(yes, FailLabel(k), three, env, here + 10);
    PlacedAround(no, EndLabel(k), Lines(BINARY_TAIL), env, here + 13);
    PlacedLines(BINARY_TAIL, env, here + 14);
  }

  lemma ComparisonLengths(c: Vm.Command, k: nat)
    requires Vm.IsComparison(c)
    ensures |ComparisonTest(c, k)| == 5 && |ComparisonSuccess(k)| == 3
  {
  }

  lemma ComparisonPieces(head: seq<Element>, test: seq<Element>, s: Element, yes: seq<Element>, f: Element,
                         no: seq<Element>, e: Element, tail: seq<Element>)
    ensures head + (test + [s] + yes + [f] + no + [e]) + tail
            == head + (test + ([s] + (yes + ([f] + (no + ([e] + tail))))))
  {
  }

  lemma BlockPlacedIff(p: Vm.Program, env: Env, i: nat)
    requires AllFit(p.commands) && i < |p.commands|
    ensures Placed(Block(p, i), env, CodeAddress(p, i)) <==> LabelsPlaced(p, env, i)
  {
    hide Placed, Bound, CodeAddress, Lines, SaveCaller, Reposition, PushZeros, FetchSegment, PUSH_D, POP_D;
    var c, fn, k, here := p.commands[i], Vm.FunctionAt(p.commands, i), CounterAt(p.commands, i), CodeAddress(p, i);
    if Vm.IsComparison(c) {
      ComparisonPlacedIff(p, env, i);
    } else if c.Label? {
      PlacedLabel(LabelName(fn, c.sym), env, here);
    } else if c.Function? {
      PlacedConcat([Label(c.name)], Lines(PushZeros(c.nvars)), env, here);
      PlacedLabel(c.name, env, here);
      PlacedLines(PushZeros(c.nvars), env, here + |Strip([Label(c.name)])|);
    } else if c.Call? {
      var ret := ReturnLabel(fn, k);
      var code := SaveCaller(ret) + Reposition(c.nargs) + [At(c.name), GOTO];
      PlacedConcat(Lines(code), [Label(ret)], env, here);
      PlacedLines(code, env, here);
      PlacedLabel(ret, env, here + |Strip(Lines(code))|);
      CodeAddressNext(p, i);
      StripConcat(Lines(code), [Label(ret)]);
      StripLabel(ret);
    } else {
      NoLabels(p, i);
      StripLines(Strip(Block(p, i)));
      PlacedLines(Strip(Block(p, i)), env, here);
    }
  }

  lemma NoLabels(p: Vm.Program, i: nat)
    requires i < |p.commands| && Fits(p.commands[i])
    requires var c := p.commands[i]; !Vm.IsComparison(c) && !c.Label? && !c.Function? && !c.Call?
    ensures Block(p, i) == Lines(Strip(Block(p, i)))
  {
    hide Strip, FetchSegment;
    var c, fn := p.commands[i], Vm.FunctionAt(p.commands, i);
    if Vm.IsUnary(c) {
      StripLines(UnaryCode(c));
    } else if Vm.IsBinary(c) {
      var op := [Set(DestD, ArithmeticComp(c))];
      StripLines(BINARY_HEAD + op + BINARY_TAIL);
      assert Block(p, i) == Lines(BINARY_HEAD + op + BINARY_TAIL);
    } else {
      match c
      case Push(segment, n) => StripLines(FetchSegment(p.file, segment, n) + [LoadOperand(segment)] + PUSH_D);
      case Pop(segment, n) => StripLines(FetchSegment(p.file, segment, n) + SAVE_TARGET + POP_D + STORE_TARGET);
      case Goto(sym) => StripLines([At(LabelName(fn, sym)), GOTO]);
      case IfGoto(sym) => StripLines(POP_D + [At(LabelName(fn, sym)), CInst(DestNull, D, JNE)]);
      case Return => StripLines(SAVE_FRAME + RETURN_VALUE + RESTORE_CALLER + JUMP_BACK);
    }
  }

  lemma {:induction false} BodyPlacedIff(p: Vm.Program, env: Env, n: nat)
    requires AllFit(p.commands) && n <= |p.commands|
    ensures Placed(Body(p, n), env, |Strip(Bootstrap())|) <==> forall i :: 0 <= i < n ==> LabelsPlaced(p, env, i)
  {
    hide Placed, LabelsPlaced, Bootstrap, Block, Strip;
    if n == 0 {
      assert Placed(Body(p, 0), env, |Strip(Bootstrap())|) by { PlacedLines([], env, |Strip(Bootstrap())|); }
    } else {
      BodyPlacedIff(p, env, n - 1);
      PlacedConcat(Body(p, n - 1), Block(p, n - 1), env, |Strip(Bootstrap())|);
      StripConcat(Bootstrap(), Body(p, n - 1));
      BlockPlacedIff(p, env, n - 1);
    }
  }

  /** Where the blocks of the file lie in the linked program. */
  ghost function BodyEnd(p: Vm.Program): nat
    requires AllFit(p.commands)
  {
    |Bootstrap() + Body(p, |p.commands|)|
  }

  /** No instruction separates a label of the file from a later definition of the same name. */
  ghost predicate LabelsTogether(p: Vm.Program)
    requires AllFit(p.commands)
  {
    A.DefinitionsTogether(Link(p), |Bootstrap()|, BodyEnd(p))
  }

  /** Which files have all their labels where the translator meant them: a name may be shared only by
  labels with no instruction between them. */
  lemma LabelsPlacedIff(p: Vm.Program)
    requires AllFit(p.commands)
    ensures (forall i :: 0 <= i < |p.commands| ==> LabelsPlaced(p, A.SymbolTable(Link(p)), i)) <==> LabelsTogether(p)
  {
    hide Bootstrap, Body, FOOTER, LabelsPlaced, A.SymbolTable, Strip, A.DefinitionsTogether, A.LabelsResolved;
    var es, env, from, body := Link(p), A.SymbolTable(Link(p)), |Bootstrap()|, Body(p, |p.commands|);
    A.LabelsResolvedIff(es, from, BodyEnd(p));
    BodyPlacedIff(p, env, |p.commands|);
    ResolvedIsPlaced(es, Bootstrap(), body, FOOTER);
  }

  lemma ResolvedIsPlaced(es: seq<Element>, before: seq<Element>, body: seq<Element>, after: seq<Element>)
    requires es == before + body + after
    ensures A.LabelsResolved(es, |before|, |before + body|)
            <==> Placed(body, A.SymbolTable(es), |Strip(before)|)
  {
    hide Strip, A.SymbolTable;
    var env := A.SymbolTable(es);
    forall i: nat | i < |body| && body[i].Label?
      ensures PlacedAt(body, env, |Strip(before)|, i) <==> A.ResolvesAt(es, |before| + i)
    {
      assert es[..|before| + i] == before + body[..i];
      StripConcat(before, body[..i]);
    }
    if A.LabelsResolved(es, |before|, |before + body|) {
      forall i: nat | i < |body| ensures PlacedAt(body, env, |Strip(before)|, i) {
        if body[i].Label? {
          assert A.ResolvesAt(es, |before| + i);
        }
      }
    }
    if Placed(body, env, |Strip(before)|) {
      forall j | |before| <= j < |before + body| && es[j].Label? ensures A.ResolvesAt(es, j) {
        assert PlacedAt(body, env, |Strip(before)|, j - |before|);
      }
    }
  }

  /** All that the translated program relies on. */
  ghost predicate Linked(p: Vm.Program, prog: seq<Instruction>, env: Env) {
    && AllFit(p.commands)
    && prog == Strip(Link(p))
    && (forall i :: 0 <= i < |prog| && prog[i].AInst? ==> AValue(prog[i].a, env).Some?)
    && RegistersPlaced(env)
    && StaticsPlaced(p.file, env)
    && forall i :: 0 <= i < |p.commands| ==> LabelsPlaced(p, env, i)
  }

  const REGISTERS: set<string> := {"SP", "LCL", "ARG", "THIS", "THAT", "R13", "R14"}

  /** No label takes the name of a register that the translated code uses. */
  ghost predicate RegistersFree(p: Vm.Program)
    requires AllFit(p.commands)
  {
    forall name :: name in REGISTERS ==> Label(name) !in Link(p)
  }

  /** No label takes the name of a static variable. */
  ghost predicate StaticsFree(p: Vm.Program)
    requires AllFit(p.commands)
  {
    forall k :: Label(StaticName(p.file, k)) !in Link(p)
  }

  /** The file has no variable at all, or the final symbol table leaves room for them below the stack. */
  ghost predicate RoomForVariables(p: Vm.Program)
    requires AllFit(p.commands)
  {
    var labels, t := A.LabelTable(Link(p)), A.SymbolTable(Link(p));
    |t| == |labels| || |t| + 16 <= Vm.STACK_BASE
  }

  /** What a file needs of its names, well named or not. */
  ghost predicate NamesApart(p: Vm.Program)
    requires AllFit(p.commands)
  {
    LabelsTogether(p) && RegistersFree(p) && StaticsFree(p)
  }

  lemma RegisterKept(p: Vm.Program, name: string)
    requires AllFit(p.commands) && name in A.PREDEFINED && Label(name) !in Link(p)
    ensures Bound(A.SymbolTable(Link(p)), name, A.PREDEFINED[name])
  {
    hide Link, A.PREDEFINED, A.LabelTable, A.VariableTable, Strip;
    A.LabelTableKeys(Link(p), name);
    A.VariablesDistinct(Strip(Link(p)), A.LabelTable(Link(p)));
  }

  lemma BootstrapLabel(name: string)
    ensures Label(name) in Bootstrap() ==> "$" <= name
    ensures |Strip(Bootstrap())| == 51
  {
    var code := SaveCaller(ReturnLabel("", 0)) + Reposition(0) + [At(MAIN), GOTO];
    assert |code| == 47 by { CallLength(ReturnLabel("", 0)); }
    assert Bootstrap() == Lines(SET_STACK) + (Lines(code) + [Label(ReturnLabel("", 0))]);
    assert |SET_STACK| == 4;
    hide SaveCaller, Reposition, SET_STACK, Lines, Strip, ReturnLabel;
    StripConcat(Lines(SET_STACK), Lines(code) + [Label(ReturnLabel("", 0))]);
    StripConcat(Lines(code), [Label(ReturnLabel("", 0))]);
    StripLines(SET_STACK);
    StripLines(code);
    if Label(name) in Bootstrap() {
      assert name == ReturnLabel("", 0);
      ReturnLabelStart();
    }
  }

  lemma ReturnLabelStart()
    ensures "$" <= ReturnLabel("", 0)
  {
    assert ReturnLabel("", 0)[0] == '$';
  }

  lemma CallLength(ret: string)
    ensures |SaveCaller(ret)| == 35 && |Reposition(0)| == 10
  {
  }

  /** A label of that name stands behind the bootstrap code. */
  lemma RegisterLost(p: Vm.Program, name: string)
    requires AllFit(p.commands) && Label(name) in Link(p) && !("$" <= name)
    ensures var t := A.SymbolTable(Link(p)); name in t && t[name] >= 51
  {
    hide Bootstrap, Body, FOOTER, A.SymbolTable, Strip;
    var es := Link(p);
    BootstrapLabel(name);
    assert es == Bootstrap() + (Body(p, |p.commands|) + FOOTER);
    var i :| 0 <= i < |es| && es[i] == Label(name);
    var k := A.LastDefinition(es, i);
    A.LastResolves(es, k);
    A.StripBetween(es, |Bootstrap()|, k);
    assert es[..|Bootstrap()|] == Bootstrap();
  }

  lemma RegistersPlacedIff(p: Vm.Program)
    requires AllFit(p.commands)
    ensures RegistersPlaced(A.SymbolTable(Link(p))) <==> RegistersFree(p)
  {
    hide Link, A.SymbolTable;
    var t := A.SymbolTable(Link(p));
    forall name | name in REGISTERS
      ensures Label(name) !in Link(p) ==> Bound(t, name, A.PREDEFINED[name])
      ensures Label(name) in Link(p) ==> name in t && t[name] >= 51
    {
      if Label(name) in Link(p) {
        RegisterNames(name);
        RegisterLost(p, name);
      } else {
        RegisterKept(p, name);
      }
    }
    if RegistersFree(p) {
      assert "SP" in REGISTERS && "LCL" in REGISTERS && "ARG" in REGISTERS && "THIS" in REGISTERS;
      assert "THAT" in REGISTERS && "R13" in REGISTERS && "R14" in REGISTERS;
    }
  }

  /** A file that assembles is linked as the translator means exactly when its labels are apart as they
  have to be and its static variables get places of their own below the stack. */
  lemma LinkedIff(p: Vm.Program, code: seq<HackCpu.Bits16>)
    requires AllFit(p.commands) && A.Assembled(Link(p), code)
    ensures Linked(p, Strip(Link(p)), A.SymbolTable(Link(p)))
            <==> LabelsTogether(p) && RegistersFree(p) && StaticsPlaced(p.file, A.SymbolTable(Link(p)))
  {
    hide RegistersPlaced, RegistersFree, StaticsPlaced, LabelsTogether, LabelsPlaced, A.SymbolTable, Link;
    var prog, env := Strip(Link(p)), A.SymbolTable(Link(p));
    forall i | 0 <= i < |prog| && prog[i].AInst?
      ensures AValue(prog[i].a, env).Some?
    {
      assert A.Encode(prog[i], env) == Some(code[i]);
    }
    RegistersPlacedIff(p);
    LabelsPlacedIff(p);
  }

  /** A file with its names apart and room for its variables is linked as intended. */
  lemma AssembledIsLinked(p: Vm.Program, code: seq<HackCpu.Bits16>)
    requires AllFit(p.commands) && NamesApart(p) && RoomForVariables(p)
    requires A.Assembled(Link(p), code)
    ensures Linked(p, Strip(Link(p)), A.SymbolTable(Link(p)))
  {
    StaticNamesPlaced(p);
    LinkedIff(p, code);
  }

  lemma StaticNamesPlaced(p: Vm.Program)
    requires AllFit(p.commands) && StaticsFree(p) && RoomForVariables(p)
    ensures StaticsPlaced(p.file, A.SymbolTable(Link(p)))
  {
    hide Link, A.PREDEFINED, A.LabelTable, A.VariableTable, Strip;
    var es := Link(p);
    var labels, env := A.LabelTable(es), A.SymbolTable(es);
    A.VariablesDistinct(Strip(es), labels);
    A.VariablesBelow(es, Vm.STACK_BASE);
    forall k ensures StaticName(p.file, k) !in labels {
      A.LabelTableKeys(es, StaticName(p.file, k));
      StaticNotPredefined(p.file, k);
    }
    forall j, k | j != k ensures StaticName(p.file, j) != StaticName(p.file, k) {
      if StaticName(p.file, j) == StaticName(p.file, k) {
        StaticNamesDistinct(p.file, j, k);
      }
    }
  }

  /** The naming discipline keeps all names apart. */
  lemma WellNamedApart(p: Vm.Program)
    requires AllFit(p.commands) && WellNamed(p)
    ensures NamesApart(p)
  {
    hide Link, WellNamed, A.SymbolTable, A.PREDEFINED, LabelsTogether, LabelsPlaced;
    forall i | 0 <= i < |p.commands| ensures LabelsPlaced(p, A.SymbolTable(Link(p)), i) {
      CommandLabelsPlaced(p, i);
    }
    LabelsPlacedIff(p);
    forall name | name in REGISTERS ensures Label(name) !in Link(p) {
      RegisterNames(name);
      if Label(name) in Link(p) { AllLabels(p, name); }
    }
    forall k ensures Label(StaticName(p.file, k)) !in Link(p) {
      if Label(StaticName(p.file, k)) in Link(p) { AllLabels(p, StaticName(p.file, k)); }
    }
  }

  lemma RegisterNames(name: string)
    requires name in REGISTERS
    ensures name in A.PREDEFINED && !("$" <= name)
  {
    assert name[0] != '$';
  }
}
