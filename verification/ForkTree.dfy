/** The process tree under fork and exit: parents and children stay inverse, and the tree holds every process once. */
module ForkTree {
  import opened Sequences

  type Name = string

  function Root(): Name {
    "a"
  }

  /** The live processes in the order of their forks, each one's children, and each one's parent. */
  datatype Tree = Tree(processes: seq<Name>, children: map<Name, seq<Name>>, parents: map<Name, Name>)

  function Without(s: seq<Name>, x: Name): seq<Name> {
    if s == [] then [] else if s[0] == x then s[1..] else [s[0]] + Without(s[1..], x)
  }

  lemma {:induction false} WithoutDistinct(s: seq<Name>, x: Name)
    requires Distinct(s)
    ensures Distinct(Without(s, x)) && forall y :: y in Without(s, x) <==> y in s && y != x
  {
    if s != [] {
      WithoutDistinct(s[1..], x);
      var rest := Without(s[1..], x);
      assert s[0] !in rest by {
        assert forall i :: 0 < i < |s| ==> s[i] != s[0];
      }
      assert forall i :: 0 <= i < |rest| ==> rest[i] in rest;
    }
  }

  // ----- the invariant -----

  ghost predicate ListsOk(t: Tree) {
    && Distinct(t.processes) && Root() in t.processes
    && (forall x :: x in t.processes <==> x in t.children)
    && (forall x :: x in t.parents <==> x in t.processes && x != Root())
  }

  predicate HasParent(t: Tree, c: Name) {
    c in t.parents && t.parents[c] in t.children
  }

  /** Parents and children are inverse. */
  ghost predicate Inverse(t: Tree) {
    && (forall p :: p in t.children ==> Distinct(t.children[p]))
    && (forall p, c {:trigger c in t.children[p]} :: p in t.children ==>
          (c in t.children[p] <==> c in t.parents && t.parents[c] == p))
    && (forall c {:trigger HasParent(t, c)} :: c in t.parents ==> HasParent(t, c))
  }

  predicate Aged(t: Tree, age: map<Name, nat>, c: Name) {
    c in t.parents && c in age && t.parents[c] in age && age[t.parents[c]] < age[c]
  }

  /** Every process is younger than its parent. */
  ghost predicate Younger(t: Tree, age: map<Name, nat>) {
    && (forall x :: x in t.processes ==> x in age)
    && (forall c {:trigger Aged(t, age, c)} :: c in t.parents ==> Aged(t, age, c))
  }

  ghost predicate Inv(t: Tree, age: map<Name, nat>) {
    ListsOk(t) && Inverse(t) && Younger(t, age)
  }

  lemma Up(t: Tree, age: map<Name, nat>, c: Name)
    requires Inv(t, age) && c in t.parents
    ensures t.parents[c] in t.processes && t.parents[c] in t.children && c in t.children[t.parents[c]]
    ensures c in age && t.parents[c] in age && age[t.parents[c]] < age[c]
  {
    assert HasParent(t, c) && Aged(t, age, c);
    assert c in t.children[t.parents[c]];
  }

  lemma Down(t: Tree, age: map<Name, nat>, p: Name, c: Name)
    requires Inv(t, age) && p in t.children && c in t.children[p]
    ensures c in t.processes && c in t.parents && t.parents[c] == p && c != Root()
    ensures p in age && c in age && age[p] < age[c]
  {
    assert Aged(t, age, c);
  }

  // ----- ancestors -----

  /** x descends from a, or is a. */
  ghost predicate Descends(t: Tree, age: map<Name, nat>, a: Name, x: Name)
    requires Inv(t, age) && x in t.processes
    decreases age[x]
  {
    a == x || (x in t.parents && (Up(t, age, x); Descends(t, age, a, t.parents[x])))
  }

  lemma {:induction false} AllDescendFromRoot(t: Tree, age: map<Name, nat>, x: Name)
    requires Inv(t, age) && x in t.processes
    ensures Descends(t, age, Root(), x)
    decreases age[x]
  {
    if x != Root() {
      Up(t, age, x);
      AllDescendFromRoot(t, age, t.parents[x]);
    }
  }

  lemma {:induction false} DescendantIsYounger(t: Tree, age: map<Name, nat>, a: Name, x: Name)
    requires Inv(t, age) && x in t.processes && Descends(t, age, a, x)
    ensures a in t.processes && (a != x ==> age[a] < age[x])
    decreases age[x]
  {
    if a != x {
      Up(t, age, x);
      DescendantIsYounger(t, age, a, t.parents[x]);
    }
  }

  /** A descendant other than the process itself descends from one of its children. */
  lemma {:induction false} ThroughChild(t: Tree, age: map<Name, nat>, a: Name, x: Name) returns (c: Name)
    requires Inv(t, age) && a in t.processes && x in t.processes && a != x && Descends(t, age, a, x)
    ensures c in t.children[a] && c in t.processes && Descends(t, age, c, x)
    decreases age[x]
  {
    Up(t, age, x);
    if t.parents[x] == a {
      c := x;
    } else {
      c := ThroughChild(t, age, a, t.parents[x]);
    }
  }

  lemma {:induction false} ChildDescends(t: Tree, age: map<Name, nat>, a: Name, c: Name, x: Name)
    requires Inv(t, age) && a in t.processes && c in t.children[a] && x in t.processes && Descends(t, age, c, x)
    ensures Descends(t, age, a, x) && a != x
    decreases age[x]
  {
    Down(t, age, a, c);
    if c == x {
      assert Descends(t, age, a, t.parents[x]);
    } else {
      Up(t, age, x);
      ChildDescends(t, age, a, c, t.parents[x]);
      DescendantIsYounger(t, age, a, t.parents[x]);
    }
  }

  /** Two processes with a common descendant: one descends from the other. */
  lemma {:induction false} OneLine(t: Tree, age: map<Name, nat>, a: Name, b: Name, x: Name)
    requires Inv(t, age) && x in t.processes && Descends(t, age, a, x) && Descends(t, age, b, x)
    ensures a in t.processes && b in t.processes && (Descends(t, age, a, b) || Descends(t, age, b, a))
    decreases age[x]
  {
    DescendantIsYounger(t, age, a, x);
    DescendantIsYounger(t, age, b, x);
    if a != x && b != x {
      Up(t, age, x);
      OneLine(t, age, a, b, t.parents[x]);
    }
  }

  lemma SiblingsApart(t: Tree, age: map<Name, nat>, p: Name, c: Name, d: Name, x: Name)
    requires Inv(t, age) && p in t.processes && c in t.children[p] && d in t.children[p] && c != d
    requires x in t.processes
    ensures !(Descends(t, age, c, x) && Descends(t, age, d, x))
  {
    if Descends(t, age, c, x) && Descends(t, age, d, x) {
      OneLine(t, age, c, d, x);
      Down(t, age, p, c);
      Down(t, age, p, d);
      if Descends(t, age, c, d) {
        DescendantIsYounger(t, age, c, p);
      } else {
        DescendantIsYounger(t, age, d, p);
      }
    }
  }

  // ----- collect_children -----

  /** The age that no process reaches. */
  ghost predicate AgesBelow(t: Tree, age: map<Name, nat>, bound: nat) {
    forall x :: x in t.processes && x in age ==> age[x] < bound
  }

  ghost function Collect(t: Tree, age: map<Name, nat>, bound: nat, p: Name): seq<Name>
    requires Inv(t, age) && AgesBelow(t, age, bound) && p in t.processes
    decreases bound - age[p], 1, 0
  {
    [p] + CollectAll(t, age, bound, p, |t.children[p]|)
  }

  /** From the first k children. */
  ghost function CollectAll(t: Tree, age: map<Name, nat>, bound: nat, p: Name, k: nat): seq<Name>
    requires Inv(t, age) && AgesBelow(t, age, bound) && p in t.processes && k <= |t.children[p]|
    decreases bound - age[p], 0, k
  {
    if k == 0 then []
    else
      Down(t, age, p, t.children[p][k - 1]);
      CollectAll(t, age, bound, p, k - 1) + Collect(t, age, bound, t.children[p][k - 1])
  }

  ghost predicate CollectsDescendants(t: Tree, age: map<Name, nat>, list: seq<Name>, p: Name)
    requires Inv(t, age)
  {
    Distinct(list) && forall x :: x in list <==> x in t.processes && Descends(t, age, p, x)
  }

  /** collect_children lists exactly the process and its descendants, each once. */
  lemma {:induction false} CollectIs(t: Tree, age: map<Name, nat>, bound: nat, p: Name)
    requires Inv(t, age) && AgesBelow(t, age, bound) && p in t.processes
    ensures CollectsDescendants(t, age, Collect(t, age, bound, p), p)
    decreases bound - age[p], 1, 0
  {
    var n := |t.children[p]|;
    CollectAllIs(t, age, bound, p, n);
    var rest := CollectAll(t, age, bound, p, n);
    forall x
      ensures x in [p] + rest <==> x in t.processes && Descends(t, age, p, x)
      ensures x in rest ==> x != p
    {
      if x in rest {
        var k :| 0 <= k < n && x in t.processes && Descends(t, age, t.children[p][k], x);
        ChildDescends(t, age, p, t.children[p][k], x);
      } else if x in t.processes && x != p && Descends(t, age, p, x) {
        var c := ThroughChild(t, age, p, x);
      }
    }
    DistinctJoin([p], rest);
  }

  lemma {:induction false} CollectAllIs(t: Tree, age: map<Name, nat>, bound: nat, p: Name, n: nat)
    requires Inv(t, age) && AgesBelow(t, age, bound) && p in t.processes && n <= |t.children[p]|
    ensures Distinct(CollectAll(t, age, bound, p, n))
    ensures forall x :: x in CollectAll(t, age, bound, p, n) <==>
              exists k :: 0 <= k < n && x in t.processes && Descends(t, age, t.children[p][k], x)
    decreases bound - age[p], 0, n
  {
    if n > 0 {
      var c := t.children[p][n - 1];
      Down(t, age, p, c);
      CollectAllIs(t, age, bound, p, n - 1);
      CollectIs(t, age, bound, c);
      hide ListsOk, Inverse, Younger;
      var before, last := CollectAll(t, age, bound, p, n - 1), Collect(t, age, bound, c);
      forall x | x in before
        ensures x !in last
      {
        var k :| 0 <= k < n - 1 && x in t.processes && Descends(t, age, t.children[p][k], x);
        if x in last {
          SiblingsApart(t, age, p, t.children[p][k], c, x);
        }
      }
      DistinctJoin(before, last);
    }
  }

  /** From the root, collect_children lists exactly the live processes. */
  lemma CollectFromRoot(t: Tree, age: map<Name, nat>, bound: nat)
    requires Inv(t, age) && AgesBelow(t, age, bound)
    ensures Distinct(Collect(t, age, bound, Root()))
    ensures forall x :: x in Collect(t, age, bound, Root()) <==> x in t.processes
  {
    CollectIs(t, age, bound, Root());
    forall x | x in t.processes
      ensures Descends(t, age, Root(), x)
    {
      AllDescendFromRoot(t, age, x);
    }
  }

  // ----- fork -----

  function Forked(t: Tree, p: Name, c: Name): Tree
    requires p in t.children
  {
    var children := t.children[c := []];
    Tree(t.processes + [c], children[p := children[p] + [c]], t.parents[c := p])
  }

  lemma ForkKeepsLists(t: Tree, p: Name, c: Name)
    requires ListsOk(t) && p in t.processes && c !in t.processes
    ensures ListsOk(Forked(t, p, c))
  {
    DistinctJoin(t.processes, [c]);
  }

  lemma ForkKeepsInverse(t: Tree, age: map<Name, nat>, p: Name, c: Name)
    requires Inv(t, age) && p in t.processes && c !in t.processes
    ensures Inverse(Forked(t, p, c))
  {
    hide Younger;
    DistinctJoin(t.children[p], [c]);
    hide Distinct;
    var t' := Forked(t, p, c);
    OneDistinct(c);
    forall q, d | q in t'.children
      ensures d in t'.children[q] <==> d in t'.parents && t'.parents[d] == q
      ensures Distinct(t'.children[q])
    {
      if q == c {
        assert d in t.parents ==> HasParent(t, d);
        NoneDistinct<Name>();
      }
    }
    forall d | d in t'.parents
      ensures HasParent(t', d)
    {
      assert d in t.parents ==> HasParent(t, d);
    }
  }

  lemma ForkKeepsInv(t: Tree, age: map<Name, nat>, bound: nat, p: Name, c: Name)
    requires Inv(t, age) && AgesBelow(t, age, bound) && p in t.processes && c !in t.processes
    ensures Inv(Forked(t, p, c), age[c := bound]) && AgesBelow(Forked(t, p, c), age[c := bound], bound + 1)
  {
    ForkKeepsLists(t, p, c);
    ForkKeepsInverse(t, age, p, c);
    ForkKeepsAges(t, age, bound, p, c);
  }

  /** Nothing stops an action list from forking a process under a name that is in use. Then the tree is broken,
  and only then. */
  lemma ForkKeepsInvIff(t: Tree, age: map<Name, nat>, bound: nat, p: Name, c: Name)
    requires Inv(t, age) && AgesBelow(t, age, bound) && p in t.processes
    ensures c !in t.processes ==> Inv(Forked(t, p, c), age[c := bound])
    ensures c in t.processes ==> forall age' :: !Inv(Forked(t, p, c), age')
  {
    if c !in t.processes {
      ForkKeepsInv(t, age, bound, p, c);
    } else {
      var i :| 0 <= i < |t.processes| && t.processes[i] == c;
      var twice := Forked(t, p, c).processes;
      assert twice[i] == twice[|t.processes|] == c;
    }
  }

  lemma ForkKeepsAges(t: Tree, age: map<Name, nat>, bound: nat, p: Name, c: Name)
    requires Inv(t, age) && AgesBelow(t, age, bound) && p in t.processes && c !in t.processes
    ensures Younger(Forked(t, p, c), age[c := bound]) && AgesBelow(Forked(t, p, c), age[c := bound], bound + 1)
  {
    hide Distinct, Inverse;
    var t', age' := Forked(t, p, c), age[c := bound];
    forall d | d in t'.parents
      ensures Aged(t', age', d)
    {
      if d != c {
        Up(t, age, d);
      }
    }
  }

  // ----- exit -----

  /** The children of an exiting process go to its parent. */
  function ExitedLocal(t: Tree, p: Name): Tree
    requires p in t.children && p in t.parents && t.parents[p] in t.children && t.parents[p] != p
  {
    var up, orphans := t.parents[p], t.children[p];
    Tree(Without(t.processes, p),
         map x | x in t.children && x != p :: if x == up then Without(t.children[x] + orphans, p) else t.children[x],
         map x | x in t.parents && x != p :: if x in orphans then up else t.parents[x])
  }

  lemma ExitKeepsLists(t: Tree, t': Tree, p: Name)
    requires ListsOk(t) && p in t.processes && p != Root() && t'.processes == Without(t.processes, p)
    requires t'.children.Keys == t.children.Keys - {p} && t'.parents.Keys == t.parents.Keys - {p}
    ensures ListsOk(t')
  {
    WithoutDistinct(t.processes, p);
    assert forall x :: x in t'.children <==> x in t'.children.Keys;
    assert forall x :: x in t'.parents <==> x in t'.parents.Keys;
  }

  /** The two lists that the exit joins have nothing in common. */
  lemma OrphansJoin(t: Tree, age: map<Name, nat>, up: Name, p: Name)
    requires Inv(t, age) && up in t.children && p in t.children && up != p
    ensures Distinct(t.children[up] + t.children[p])
  {
    DistinctJoin(t.children[up], t.children[p]);
  }

  lemma ExitLocalInverse(t: Tree, age: map<Name, nat>, p: Name)
    requires Inv(t, age) && p in t.processes && p != Root()
    requires p in t.parents && t.parents[p] in t.children && t.parents[p] != p
    ensures Inverse(ExitedLocal(t, p))
  {
    var up, orphans, t' := t.parents[p], t.children[p], ExitedLocal(t, p);
    OrphansJoin(t, age, up, p);
    WithoutDistinct(t.children[up] + orphans, p);
    Down(t, age, up, p);
    hide Younger, ListsOk, Distinct, Without;
    forall q, c | q in t'.children
      ensures c in t'.children[q] <==> c in t'.parents && t'.parents[c] == q
      ensures Distinct(t'.children[q])
    {
      assert c in t.children[q] <==> c in t.parents && t.parents[c] == q;
      assert c in orphans <==> c in t.parents && t.parents[c] == p;
    }
    forall c | c in t'.parents
      ensures HasParent(t', c)
    {
      assert HasParent(t, c);
      assert c in orphans <==> c in t.parents && t.parents[c] == p;
    }
  }

  lemma ExitLocalKeepsInv(t: Tree, age: map<Name, nat>, p: Name)
    requires Inv(t, age) && p in t.processes && p != Root()
    ensures p in t.parents && t.parents[p] in t.children && t.parents[p] != p
    ensures Inv(ExitedLocal(t, p), age)
  {
    Up(t, age, p);
    var t' := ExitedLocal(t, p);
    assert t'.children.Keys == t.children.Keys - {p} && t'.parents.Keys == t.parents.Keys - {p};
    ExitKeepsLists(t, t', p);
    ExitLocalInverse(t, age, p);
    hide Inverse, Distinct, Without;
    forall c | c in t'.parents
      ensures Aged(t', age, c)
    {
      Up(t, age, c);
      if c in t.children[p] {
        Down(t, age, p, c);
      }
    }
  }

  /** All descendants of an exiting process go to the root. */
  function ExitedGlobal(t: Tree, p: Name, orphans: seq<Name>): Tree
    requires p in t.children && p in t.parents
  {
    Tree(Without(t.processes, p),
         map x | x in t.children && x != p :: Lost(t, p, if x in orphans then [] else Gained(t, orphans, x), x),
         map x | x in t.parents && x != p :: if x in orphans then Root() else t.parents[x])
  }

  function Gained(t: Tree, orphans: seq<Name>, x: Name): seq<Name>
    requires x in t.children
  {
    if x == Root() then t.children[x] + orphans else t.children[x]
  }

  function Lost(t: Tree, p: Name, list: seq<Name>, x: Name): seq<Name>
    requires p in t.parents
  {
    if x == t.parents[p] then Without(list, p) else list
  }

  /** What collect_children finds below an exiting process. */
  ghost predicate AreOrphans(t: Tree, age: map<Name, nat>, p: Name, orphans: seq<Name>)
    requires Inv(t, age)
  {
    && p in t.processes && Distinct(orphans)
    && forall x :: x in orphans <==> x in t.processes && x != p && Descends(t, age, p, x)
  }

  /** An orphan's children are orphans, and so are the children of the exiting process; nobody else's are. */
  lemma OrphansClosed(t: Tree, age: map<Name, nat>, p: Name, orphans: seq<Name>, c: Name)
    requires Inv(t, age) && AreOrphans(t, age, p, orphans) && c in t.parents
    ensures c in orphans <==> t.parents[c] == p || t.parents[c] in orphans
    ensures Root() !in orphans
  {
    Up(t, age, c);
    if c in orphans {
    } else if t.parents[c] == p {
      assert Descends(t, age, p, c);
      DescendantIsYounger(t, age, p, c);
    } else if t.parents[c] in orphans {
      assert Descends(t, age, p, c);
      DescendantIsYounger(t, age, p, t.parents[c]);
    }
  }

  lemma RootIsNoOrphan(t: Tree, age: map<Name, nat>, p: Name, orphans: seq<Name>)
    requires Inv(t, age) && AreOrphans(t, age, p, orphans)
    ensures Root() !in orphans && (p in t.parents ==> t.parents[p] !in orphans)
  {
    if p in t.parents {
      Up(t, age, p);
      if t.parents[p] in orphans {
        DescendantIsYounger(t, age, p, t.parents[p]);
      }
    }
  }

  lemma ExitGlobalInverse(t: Tree, age: map<Name, nat>, p: Name, orphans: seq<Name>)
    requires Inv(t, age) && AreOrphans(t, age, p, orphans) && p != Root() && p in t.parents
    ensures Inverse(ExitedGlobal(t, p, orphans))
  {
    var up, root, t' := t.parents[p], Root(), ExitedGlobal(t, p, orphans);
    Up(t, age, p);
    RootIsNoOrphan(t, age, p, orphans);
    forall c | c in t.parents
      ensures c in orphans <==> t.parents[c] == p || t.parents[c] in orphans
      ensures HasParent(t, c)
    {
      OrphansClosed(t, age, p, orphans, c);
      Up(t, age, c);
    }
    forall q | q in t'.children
      ensures GlobalList(t, p, orphans, q)
    {
      ExitGlobalList(t, age, p, orphans, q);
    }
    hide Younger, ListsOk, Distinct, Without, Gained, Lost, AreOrphans;
    forall q, c | q in t'.children
      ensures c in t'.children[q] <==> c in t'.parents && t'.parents[c] == q
      ensures Distinct(t'.children[q])
    {
      assert GlobalList(t, p, orphans, q);
      assert c in t.children[q] <==> c in t.parents && t.parents[c] == q;
      assert c in orphans ==> c in t.parents && c != p;
    }
    forall c | c in t'.parents
      ensures HasParent(t', c)
    {
      assert HasParent(t, c);
    }
  }

  /** The new list of q: nothing for an orphan; the root gains the orphans, and the parent loses p. */
  ghost predicate GlobalList(t: Tree, p: Name, orphans: seq<Name>, q: Name)
    requires p in t.children && p in t.parents && q in t.children && q != p
  {
    var list := ExitedGlobal(t, p, orphans).children[q];
    && Distinct(list)
    && forall c :: c in list <==>
         c != p && q !in orphans && (c in t.children[q] || (q == Root() && c in orphans))
  }

  lemma ExitGlobalList(t: Tree, age: map<Name, nat>, p: Name, orphans: seq<Name>, q: Name)
    requires Inv(t, age) && AreOrphans(t, age, p, orphans) && p != Root() && p in t.parents && q in t.children && q != p
    ensures p in t.children && GlobalList(t, p, orphans, q)
  {
    var gained := if q in orphans then [] else Gained(t, orphans, q);
    GainedList(t, age, p, orphans, q);
    assert p !in orphans;
    assert p in t.children[q] <==> t.parents[p] == q;
    hide Inverse, Younger, AreOrphans, Gained;
    WithoutDistinct(gained, p);
  }

  lemma GainedList(t: Tree, age: map<Name, nat>, p: Name, orphans: seq<Name>, q: Name)
    requires Inv(t, age) && AreOrphans(t, age, p, orphans) && p != Root() && p in t.parents && q in t.children && q != p
    ensures var gained := if q in orphans then [] else Gained(t, orphans, q);
            && Distinct(gained)
            && forall c :: c in gained <==> q !in orphans && (c in t.children[q] || (q == Root() && c in orphans))
  {
    NoneDistinct<Name>();
    RootIsNoOrphan(t, age, p, orphans);
    assert Distinct(t.children[q]);
    if q == Root() {
      forall c | c in t.children[q]
        ensures c !in orphans
      {
        Down(t, age, q, c);
        OrphansClosed(t, age, p, orphans, c);
      }
      hide Inverse, Younger;
      DistinctJoin(t.children[q], orphans);
    }
  }

  lemma ExitGlobalKeepsInv(t: Tree, age: map<Name, nat>, p: Name, orphans: seq<Name>)
    requires Inv(t, age) && AreOrphans(t, age, p, orphans) && p != Root()
    ensures p in t.parents && p in t.children && Inv(ExitedGlobal(t, p, orphans), age)
  {
    Up(t, age, p);
    var t' := ExitedGlobal(t, p, orphans);
    assert t'.children.Keys == t.children.Keys - {p} && t'.parents.Keys == t.parents.Keys - {p};
    ExitKeepsLists(t, t', p);
    ExitGlobalInverse(t, age, p, orphans);
    forall c | c in t'.parents
      ensures Aged(t', age, c)
    {
      ExitGlobalAged(t, age, p, orphans, c);
    }
  }

  lemma ExitGlobalAged(t: Tree, age: map<Name, nat>, p: Name, orphans: seq<Name>, c: Name)
    requires Inv(t, age) && AreOrphans(t, age, p, orphans) && p != Root() && p in t.parents && p in t.children
    requires c in ExitedGlobal(t, p, orphans).parents
    ensures Aged(ExitedGlobal(t, p, orphans), age, c)
  {
    Up(t, age, c);
    if c in orphans {
      AllDescendFromRoot(t, age, c);
      DescendantIsYounger(t, age, Root(), c);
    }
  }
}
