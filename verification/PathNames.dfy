/** Paths as the file system writes them, as strings with slashes, and why their components may stand for them. */
module PathNames {
  import opened FileSystem

  /** The full name of an entry, as the file system builds it from the parent's name. */
  function FullName(parent: string, name: string): string {
    if parent == "/" then parent + name else parent + "/" + name
  }

  /** The string that stands for a path. */
  function PathString(p: Path): string {
    if p == [] then "/" else FullName(PathString(p[..|p| - 1]), p[|p| - 1])
  }

  /** Each component with a slash before it. */
  function Slashed(p: Path): string {
    if p == [] then "" else Slashed(p[..|p| - 1]) + "/" + p[|p| - 1]
  }

  lemma {:induction false} SlashedLength(p: Path)
    requires forall i :: 0 <= i < |p| ==> p[i] != ""
    ensures p != [] ==> |Slashed(p)| >= 2
  {
    if p != [] {
      assert |p[|p| - 1]| >= 1;
    }
  }

  lemma {:induction false} PathStringIs(p: Path)
    requires forall i :: 0 <= i < |p| ==> p[i] != ""
    ensures PathString(p) == if p == [] then "/" else Slashed(p)
  {
    if p != [] {
      var front := p[..|p| - 1];
      PathStringIs(front);
      SlashedLength(front);
    }
  }

  /** The pieces of a string between its slashes. */
  function Split(s: string): (r: seq<string>)
    ensures |r| >= 1
  {
    if s == "" then [""]
    else
      var r, last := Split(s[..|s| - 1]), s[|s| - 1];
      if last == '/' then r + [""] else r[..|r| - 1] + [r[|r| - 1] + [last]]
  }

  lemma {:induction false} SplitName(s: string, name: string)
    requires '/' !in name
    ensures Split(s + "/" + name) == Split(s) + [name]
    decreases |name|
  {
    if name == "" {
      assert s + "/" + name == s + "/";
      assert (s + "/")[..|s|] == s;
    } else {
      var front, last := name[..|name| - 1], name[|name| - 1];
      SplitName(s, front);
      var whole := s + "/" + name;
      assert whole[..|whole| - 1] == s + "/" + front && whole[|whole| - 1] == last;
      assert front + [last] == name;
    }
  }

  lemma {:induction false} SplitSlashed(p: Path)
    requires forall i :: 0 <= i < |p| ==> '/' !in p[i]
    ensures Split(Slashed(p)) == [""] + p
  {
    if p != [] {
      var front, last := p[..|p| - 1], p[|p| - 1];
      SplitSlashed(front);
      SplitName(Slashed(front), last);
      assert p == front + [last];
    }
  }

  ghost predicate LegalPath(p: Path) {
    forall i :: 0 <= i < |p| ==> LegalName(p[i])
  }

  /** Different paths have different names. */
  lemma NamesTellPathsApart(p: Path, q: Path)
    requires LegalPath(p) && LegalPath(q) && PathString(p) == PathString(q)
    ensures p == q
  {
    PathStringIs(p);
    PathStringIs(q);
    SlashedLength(p);
    SlashedLength(q);
    SplitSlashed(p);
    SplitSlashed(q);
    assert p != [] && q != [] ==> ([""] + p)[1..] == p && ([""] + q)[1..] == q;
  }

  lemma SlashedNext(p: Path, k: nat)
    requires k < |p|
    ensures Slashed(p[..k + 1]) == Slashed(p[..k]) + "/" + p[k]
  {
    assert p[..k + 1][..k] == p[..k];
  }

  /** getParent finds the name of the parent, and the last piece of a path's name is its last component. */
  method GetParent(name: string, ghost p: Path) returns (parent: string, last: string)
    requires LegalPath(p) && p != [] && name == PathString(p)
    ensures parent == PathString(Parent(p)) && last == Last(p)
  {
    PathStringIs(p);
    PathStringIs(Parent(p));
    SplitSlashed(p);
    var tmp := Split(name);
    last := tmp[|tmp| - 1];
    if |tmp| == 2 {
      return "/", last;
    }
    var pname := "";
    for i := 1 to |tmp| - 1
      invariant pname == Slashed(p[..i - 1])
    {
      SlashedNext(p, i - 1);
      pname := pname + "/" + tmp[i];
    }
    parent := pname;
  }
}
