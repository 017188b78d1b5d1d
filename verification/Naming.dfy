/** The names the translator makes up: decimal numerals, labels and static variables, and why they
never clash. */
module Naming {
  import opened Asm
  import opened Translator
  import Assembler
  import Vm

  // ----- decimal numerals -----

  lemma {:induction false} DecimalDigits(n: nat, k: nat)
    requires k < |Decimal(n)|
    ensures '0' <= Decimal(n)[k] <= '9'
  {
    if n >= 10 && k < |Decimal(n)| - 1 {
      DecimalDigits(n / 10, k);
    }
  }

  lemma DigitInjective(a: nat, b: nat)
    requires a < 10 && b < 10 && Digit(a) == Digit(b)
    ensures a == b
  {
  }

  lemma {:induction false} DecimalInjective(m: nat, n: nat)
    requires Decimal(m) == Decimal(n)
    ensures m == n
  {
    var d, e := Decimal(m), Decimal(n);
    assert d[|d| - 1] == Digit(m % 10) && e[|e| - 1] == Digit(n % 10);
    DigitInjective(m % 10, n % 10);
    if m >= 10 && n >= 10 {
      assert d[..|d| - 1] == Decimal(m / 10) && e[..|e| - 1] == Decimal(n / 10);
      DecimalInjective(m / 10, n / 10);
    }
  }

  lemma SuffixEqual(prefix: string, m: nat, n: nat)
    requires prefix + Decimal(m) == prefix + Decimal(n)
    ensures m == n
  {
    var a, b := prefix + Decimal(m), prefix + Decimal(n);
    assert a[|prefix|..] == Decimal(m) && b[|prefix|..] == Decimal(n);
    DecimalInjective(m, n);
  }

  lemma DecimalLacks(n: nat, c: char)
    requires c < '0' || '9' < c
    ensures c !in Decimal(n)
  {
    if c in Decimal(n) {
      var k :| 0 <= k < |Decimal(n)| && Decimal(n)[k] == c;
      DecimalDigits(n, k);
    }
  }

  // ----- where labels come from -----

  datatype Comparison = Success | Fail | End

  datatype Origin =
    | OfFunction(name: string)
    | OfLabel(fn: string, sym: string)
    | OfReturn(fn: string, counter: nat)
    | OfComparison(kind: Comparison, counter: nat)
    | OfFooter

  function NameOf(o: Origin): string {
    match o
    case OfFunction(name) => name
    case OfLabel(fn, sym) => LabelName(fn, sym)
    case OfReturn(fn, counter) => ReturnLabel(fn, counter)
    case OfComparison(Success, counter) => SuccessLabel(counter)
    case OfComparison(Fail, counter) => FailLabel(counter)
    case OfComparison(End, counter) => EndLabel(counter)
    case OfFooter => "_vm_END"
  }

  ghost predicate PlainName(name: string) {
    '$' !in name && !("_vm_" <= name)
  }

  ghost predicate PlainLabel(sym: string) {
    forall k :: sym != "ret." + Decimal(k)
  }

  ghost predicate WellFormed(o: Origin) {
    match o
    case OfFunction(name) => PlainName(name)
    case OfLabel(fn, sym) => PlainName(fn) && PlainLabel(sym)
    case OfReturn(fn, counter) => PlainName(fn)
    case OfComparison(_, _) => true
    case OfFooter => true
  }

  predicate Dollar(o: Origin) {
    o.OfLabel? || o.OfReturn?
  }

  lemma DollarName(o: Origin)
    requires WellFormed(o)
    ensures '$' in NameOf(o) <==> Dollar(o)
  {
    match o
    case OfLabel(fn, sym) => assert NameOf(o)[|fn|] == '$';
    case OfReturn(fn, counter) => assert NameOf(o)[|fn|] == '$';
    case OfComparison(_, counter) => DecimalLacks(counter, '$');
    case _ =>
  }

  lemma SplitAtDollar(a: string, b: string, x: string, y: string)
    requires '$' !in a && '$' !in b
    requires a + "$" + x == b + "$" + y
    ensures a == b && x == y
  {
    var s := a + "$" + x;
    assert s[|a|] == '$' == s[|b|];
    assert forall k :: 0 <= k < |a| ==> s[k] == a[k] && a[k] in a;
    assert forall k :: 0 <= k < |b| ==> (b + "$" + y)[k] == b[k] && b[k] in b;
    assert |a| == |b|;
    assert s[..|a|] == a && (b + "$" + y)[..|b|] == b;
    assert s[|a| + 1..] == x && (b + "$" + y)[|b| + 1..] == y;
  }

  /** A label with a dollar sign splits into the function's name and the rest. */
  function Rest(o: Origin): string
    requires Dollar(o)
  {
    if o.OfLabel? then o.sym else "ret." + Decimal(o.counter)
  }

  lemma DollarNamesDistinct(o: Origin, q: Origin)
    requires WellFormed(o) && WellFormed(q) && Dollar(o) && Dollar(q) && NameOf(o) == NameOf(q)
    ensures o == q
  {
    assert NameOf(o) == o.fn + "$" + Rest(o);
    assert NameOf(q) == q.fn + "$" + Rest(q);
    SplitAtDollar(o.fn, q.fn, Rest(o), Rest(q));
    if o.OfReturn? && q.OfReturn? {
      SuffixEqual("ret.", o.counter, q.counter);
    }
  }

  lemma ComparisonNamesDistinct(o: Origin, q: Origin)
    requires o.OfComparison? && q.OfComparison? && NameOf(o) == NameOf(q)
    ensures o == q
  {
    assert NameOf(o)[9] == NameOf(q)[9];
    match o.kind
    case Success => SuffixEqual("_vm_comp_success_", o.counter, q.counter);
    case Fail => SuffixEqual("_vm_comp_fail_", o.counter, q.counter);
    case End => SuffixEqual("_vm_comp_end_", o.counter, q.counter);
  }

  /** A return label tells its function and its number, whatever characters the function's name has. */
  lemma ReturnLabelsDistinct(f: string, m: nat, g: string, n: nat)
    requires ReturnLabel(f, m) == ReturnLabel(g, n)
    ensures f == g && m == n
  {
    var s := ReturnLabel(f, m);
    DecimalLacks(m, '.');
    DecimalLacks(n, '.');
    assert s == f + "$ret." + Decimal(m) == g + "$ret." + Decimal(n);
    assert s[|f| + 4] == '.' == s[|g| + 4];
    assert s[|f| + 5..] == Decimal(m) && s[|g| + 5..] == Decimal(n);
    assert |f| == |g|;
    assert s[..|f|] == f && s[..|g|] == g;
    DecimalInjective(m, n);
  }

  lemma ReturnHasDollar(fn: string, counter: nat)
    ensures '$' in ReturnLabel(fn, counter)
  {
    assert ReturnLabel(fn, counter)[|fn|] == '$';
  }

  predicate Generated(o: Origin) {
    o.OfReturn? || o.OfComparison?
  }

  /** The labels numbered by the translator differ whenever their origins do, with no condition on names. */
  lemma GeneratedNamesDistinct(o: Origin, q: Origin)
    requires Generated(o) && Generated(q) && NameOf(o) == NameOf(q)
    ensures o == q
  {
    if o.OfReturn? && q.OfReturn? {
      ReturnLabelsDistinct(o.fn, o.counter, q.fn, q.counter);
    } else if o.OfComparison? && q.OfComparison? {
      ComparisonNamesDistinct(o, q);
    } else {
      var r, c := if o.OfReturn? then o else q, if o.OfReturn? then q else o;
      DollarName(c);
      ReturnHasDollar(r.fn, r.counter);
    }
  }

  lemma ReservedName(o: Origin)
    requires o.OfComparison? || o.OfFooter?
    ensures "_vm_" <= NameOf(o) && NameOf(o)[4] == if o.OfFooter? then 'E' else 'c'
    ensures '.' !in NameOf(o)
  {
    if o.OfComparison? {
      DecimalLacks(o.counter, '.');
    }
  }

  /** Labels of different origin have different names: for comparison and return labels always, with labels and
  functions of the file if its names are plain. */
  lemma NamesDistinct(o: Origin, q: Origin)
    requires (Generated(o) && Generated(q)) || (WellFormed(o) && WellFormed(q))
    requires NameOf(o) == NameOf(q)
    ensures o == q
  {
    if Generated(o) && Generated(q) {
      GeneratedNamesDistinct(o, q);
      return;
    }
    DollarName(o);
    DollarName(q);
    if Dollar(o) {
      DollarNamesDistinct(o, q);
    } else if o.OfComparison? && q.OfComparison? {
      ComparisonNamesDistinct(o, q);
    } else {
      if !o.OfFunction? { ReservedName(o); }
      if !q.OfFunction? { ReservedName(q); }
    }
  }

  // ----- predefined and static names -----

  lemma PredefinedNames(name: string)
    requires name in Assembler.PREDEFINED
    ensures '.' !in name && '$' !in name && '_' !in name
  {
  }

  lemma PredefinedUnclaimed(o: Origin)
    requires WellFormed(o) && !o.OfFunction?
    ensures NameOf(o) !in Assembler.PREDEFINED
  {
    var name := NameOf(o);
    DollarName(o);
    if !Dollar(o) {
      ReservedName(o);
      assert name[0] == '_';
    }
    if name in Assembler.PREDEFINED {
      PredefinedNames(name);
    }
  }

  lemma StaticUnclaimed(file: string, index: nat, o: Origin)
    requires WellFormed(o) && '$' !in file
    requires o.OfFunction? ==> o.name != StaticName(file, index)
    ensures NameOf(o) != StaticName(file, index)
  {
    assert StaticName(file, index)[|file|] == '.';
    DecimalLacks(index, '$');
    DollarName(o);
    if o.OfComparison? || o.OfFooter? {
      ReservedName(o);
    }
  }

  lemma StaticNotPredefined(file: string, index: nat)
    ensures StaticName(file, index) !in Assembler.PREDEFINED
  {
    var name := StaticName(file, index);
    assert name[|file|] == '.';
    if name in Assembler.PREDEFINED {
      PredefinedNames(name);
    }
  }

  lemma StaticNamesDistinct(file: string, i: nat, j: nat)
    requires StaticName(file, i) == StaticName(file, j)
    ensures i == j
  {
    SuffixEqual(file + ".", i, j);
  }
}
