/** The process tree and the source of process names as objects updated in place. */
module ForkObject {
  import opened ForkTree
  import opened Sequences

  /** How a request to exit ends: the program stops on an unknown process and at the exit of the root. */
  datatype Outcome = Done | HasChildren | Unknown | RootExits

  class Forker {
    const localReparent: bool
    const leafOnly: bool
    var processes: seq<Name>
    var children: map<Name, seq<Name>>
    var parents: map<Name, Name>
    ghost var age: map<Name, nat>
    ghost var bound: nat

    function View(): Tree
      reads this
    {
      Tree(processes, children, parents)
    }

    ghost predicate Valid()
      reads this
    {
      Inv(View(), age) && AgesBelow(View(), age, bound)
    }

    constructor (localReparent: bool, leafOnly: bool)
      ensures Valid() && View() == Tree([Root()], map[Root() := []], map[])
      ensures this.localReparent == localReparent && this.leafOnly == leafOnly
    {
      this.localReparent, this.leafOnly := localReparent, leafOnly;
      processes, children, parents := [Root()], map[Root() := []], map[];
      age, bound := map[Root() := 0], 1;
    }

    /** A fork under any name; the tree is in order afterwards exactly if the name was not in use. */
    method DoFork(p: Name, c: Name)
      requires Valid() && p in processes
      modifies this
      ensures View() == Forked(old(View()), p, c)
      ensures Valid() <==> c !in old(processes)
    {
      ForkKeepsInvIff(View(), age, bound, p, c);
      if c !in processes {
        ForkKeepsInv(View(), age, bound, p, c);
      }
      hide Inv;
      processes := processes + [c];
      children := children[c := []];
      children := children[p := children[p] + [c]];
      parents := parents[c := p];
      age, bound := age[c := bound], bound + 1;
    }

    /** The process and its descendants, parents before children; from the root, every live process once. */
    method CollectChildren(p: Name) returns (list: seq<Name>)
      requires Valid() && p in processes
      ensures list == Collect(View(), age, bound, p) && CollectsDescendants(View(), age, list, p)
      ensures p == Root() ==> forall x :: x in list <==> x in processes
      decreases bound - age[p]
    {
      hide Inverse, ListsOk, Younger, AgesBelow, CollectsDescendants, Distinct, Descends;
      CollectedRight(View(), age, bound, p);
      list := [p];
      if children[p] == [] {
        return;
      }
      for k := 0 to |children[p]|
        invariant list == [p] + CollectAll(View(), age, bound, p, k)
      {
        var c := children[p][k];
        Down(View(), age, p, c);
        AgeBound(View(), age, bound, c);
        var below := CollectChildren(c);
        list := list + below;
      }
    }

    /** What an exit leaves: the tree of the reparenting rule in force. */
    ghost predicate Exited(t: Tree, p: Name, orphans: seq<Name>)
      reads this
    {
      && p in t.children && p in t.parents && t.parents[p] in t.children && t.parents[p] != p
      && Inv(t, age) && AreOrphans(t, age, p, orphans)
      && View() == if localReparent then ExitedLocal(t, p) else ExitedGlobal(t, p, orphans)
    }

    /** The exit of a process; the program stops when it is the root. */
    method DoExit(p: Name) returns (stops: bool, ghost orphans: seq<Name>)
      requires Valid() && p in processes
      modifies this
      ensures Valid() && age == old(age) && (stops <==> p == Root())
      ensures if stops then View() == old(View()) else Exited(old(View()), p, orphans)
    {
      orphans := [];
      if p == Root() {
        return true, [];
      }
      stops := false;
      ghost var t := View();
      var list := CollectChildren(p);
      WithoutDistinct(list, p);
      var descendants := Without(list, p);
      orphans := descendants;
      ExitFacts(t, age, p, orphans);
      ExitLocalKeepsInv(t, age, p);
      ExitGlobalKeepsInv(t, age, p, orphans);
      hide Inv, AreOrphans, AgesBelow, ExitedLocal, ExitedGlobal;
      Leave(p, descendants);
      AgesKept(t, View(), age, bound, p);
    }

    /** An exit from the action list. Under the leaf-only rule a process with children does not exit, and so no
    process ever changes its parent. */
    method ExitAction(p: Name) returns (r: Outcome, ghost orphans: seq<Name>)
      requires Valid()
      modifies this
      ensures Valid() && age == old(age)
      ensures r == if p !in old(processes) then Unknown
                   else if leafOnly && old(children)[p] != [] then HasChildren
                   else if p == Root() then RootExits else Done
      ensures if r.Done? then Exited(old(View()), p, orphans) else View() == old(View())
      ensures leafOnly && r.Done? ==> parents == old(parents) - {p}
    {
      orphans := [];
      if p !in processes {
        return Unknown, [];
      }
      ghost var t := View();
      KnownProcess(t, age, p);
      hide Inv, AgesBelow, AreOrphans, NewList, Gained, Lost, ExitedLocal, ExitedGlobal;
      if leafOnly && |children[p]| > 0 {
        return HasChildren, [];
      }
      var stops;
      stops, orphans := DoExit(p);
      r := if stops then RootExits else Done;
      if leafOnly && r.Done? {
        LeafExit(t, age, p, orphans);
      }
    }

    /** The process goes out of all three tables, its children or descendants having been given new parents. */
    method Leave(p: Name, descendants: seq<Name>)
      requires p in children && p in parents && parents[p] in children && parents[p] != p
      requires Root() in children && Root() !in descendants && parents[p] !in descendants
      requires forall d :: d in descendants ==> d in parents && d in children && d != p
      requires forall c :: c in children[p] ==> c in parents && c != p
      modifies this`processes, this`children, this`parents
      ensures View() == if localReparent then ExitedLocal(old(View()), p) else ExitedGlobal(old(View()), p, descendants)
      ensures processes == Without(old(processes), p)
    {
      hide Without, ExitedLocal, ExitedGlobal, NewList, Reparented, Moved;
      ghost var t := View();
      var exitParent := parents[p];
      if localReparent {
        ReparentChildren(p, exitParent);
      } else {
        ReparentAll(descendants);
        MovedKeys(t.children, children, descendants);
      }
      ghost var moved, reparented := children, parents;
      processes := Without(processes, p);
      children := children[exitParent := Without(children[exitParent], p)];
      children := children - {p};
      parents := parents - {p};
      if localReparent {
        LocalTree(t, p, moved, reparented, View());
      } else {
        GlobalTree(t, p, descendants, moved, reparented, View());
      }
    }

    method ReparentChildren(p: Name, exitParent: Name)
      requires p in children && exitParent in children && exitParent != p
      requires forall c :: c in children[p] ==> c in parents
      modifies this`children, this`parents
      ensures children == old(children)[exitParent := old(children)[exitParent] + old(children)[p]]
      ensures Reparented(old(parents), parents, old(children)[p], exitParent)
    {
      var orphans := children[p];
      for k := 0 to |orphans|
        invariant exitParent in children && children[exitParent] == old(children)[exitParent] + orphans[..k]
        invariant children == old(children)[exitParent := children[exitParent]]
        invariant Reparented(old(parents), parents, orphans[..k], exitParent)
      {
        var orphan := orphans[k];
        assert orphans[..k + 1] == orphans[..k] + [orphan];
        parents := parents[orphan := exitParent];
        children := children[exitParent := children[exitParent] + [orphan]];
      }
      assert orphans[..|orphans|] == orphans;
    }

    method ReparentAll(descendants: seq<Name>)
      requires Root() in children && Root() !in descendants
      requires forall d :: d in descendants ==> d in parents && d in children
      modifies this`children, this`parents
      ensures Moved(old(children), children, descendants)
      ensures Reparented(old(parents), parents, descendants, Root())
    {
      hide NewList;
      NoneMoved(old(children));
      for k := 0 to |descendants|
        invariant Moved(old(children), children, descendants[..k])
        invariant Reparented(old(parents), parents, descendants[..k], Root())
      {
        var d := descendants[k];
        assert descendants[..k + 1] == descendants[..k] + [d];
        OneMoreMoved(old(children), children, descendants[..k], d);
        children := children[d := []];
        parents := parents[d := Root()];
        children := children[Root() := children[Root()] + [d]];
      }
      assert descendants[..|descendants|] == descendants;
    }
  }

  /** These processes have a new parent, and the others the old one. */
  ghost predicate Reparented(parents: map<Name, Name>, parents': map<Name, Name>, moved: seq<Name>, to: Name) {
    && parents'.Keys == parents.Keys
    && forall x :: x in parents ==> parents'[x] == if x in moved then to else parents[x]
  }

  /** The children of x once these processes have lost theirs and become children of the root. */
  function NewList(children: map<Name, seq<Name>>, moved: seq<Name>, x: Name): seq<Name>
    requires x in children
  {
    if x in moved then [] else if x == Root() then children[x] + moved else children[x]
  }

  ghost predicate Moved(children: map<Name, seq<Name>>, children': map<Name, seq<Name>>, moved: seq<Name>) {
    && children'.Keys == children.Keys
    && forall x :: x in children ==> children'[x] == NewList(children, moved, x)
  }

  lemma MovedKeys(children: map<Name, seq<Name>>, children': map<Name, seq<Name>>, moved: seq<Name>)
    requires Moved(children, children', moved)
    ensures children'.Keys == children.Keys
  {
  }

  lemma NoneMoved(children: map<Name, seq<Name>>)
    ensures Moved(children, children, [])
  {
  }

  lemma OneMoreMoved(children: map<Name, seq<Name>>, now: map<Name, seq<Name>>, moved: seq<Name>, d: Name)
    requires Root() in children && d in children && d != Root() && Root() !in moved && Moved(children, now, moved)
    ensures var once := now[d := []];
            Moved(children, once[Root() := once[Root()] + [d]], moved + [d])
  {
    assert children[Root()] + (moved + [d]) == children[Root()] + moved + [d];
  }

  /** Dropping the exiting process from the lists gives the tree of ExitedGlobal. */
  lemma GlobalTree(t: Tree, p: Name, orphans: seq<Name>, children': map<Name, seq<Name>>, parents': map<Name, Name>,
        t': Tree)
    requires p in t.children && p in t.parents && t.parents[p] in t.children && t.parents[p] != p
    requires Moved(t.children, children', orphans) && Reparented(t.parents, parents', orphans, Root())
    requires var up := t.parents[p];
             t' == Tree(Without(t.processes, p), children'[up := Without(children'[up], p)] - {p}, parents' - {p})
    ensures t' == ExitedGlobal(t, p, orphans)
  {
    hide Without;
    var goal := ExitedGlobal(t, p, orphans);
    forall x | x in t.children && x != p
      ensures goal.children[x] == t'.children[x]
    {
      assert NewList(t.children, orphans, x) == if x in orphans then [] else Gained(t, orphans, x);
    }
    hide NewList, Gained, Lost;
    assert goal.children.Keys == t'.children.Keys && goal.parents.Keys == t'.parents.Keys;
  }

  /** Dropping the exiting process from the lists gives the tree of ExitedLocal. */
  lemma LocalTree(t: Tree, p: Name, children': map<Name, seq<Name>>, parents': map<Name, Name>, t': Tree)
    requires p in t.children && p in t.parents && t.parents[p] in t.children && t.parents[p] != p
    requires children' == t.children[t.parents[p] := t.children[t.parents[p]] + t.children[p]]
    requires Reparented(t.parents, parents', t.children[p], t.parents[p])
    requires var up := t.parents[p];
             t' == Tree(Without(t.processes, p), children'[up := Without(children'[up], p)] - {p}, parents' - {p})
    ensures t' == ExitedLocal(t, p)
  {
    hide Without;
    var goal := ExitedLocal(t, p);
    assert goal.children.Keys == t'.children.Keys && goal.parents.Keys == t'.parents.Keys;
  }

  lemma CollectedRight(t: Tree, age: map<Name, nat>, bound: nat, p: Name)
    requires Inv(t, age) && AgesBelow(t, age, bound) && p in t.processes
    ensures p in t.children && p in age && age[p] < bound && CollectsDescendants(t, age, Collect(t, age, bound, p), p)
    ensures p == Root() ==> forall x :: x in Collect(t, age, bound, p) <==> x in t.processes
  {
    CollectIs(t, age, bound, p);
    if p == Root() {
      CollectFromRoot(t, age, bound);
    }
  }

  lemma AgeBound(t: Tree, age: map<Name, nat>, bound: nat, x: Name)
    requires AgesBelow(t, age, bound) && x in t.processes && x in age
    ensures age[x] < bound
  {
  }

  lemma AgesKept(t: Tree, t': Tree, age: map<Name, nat>, bound: nat, p: Name)
    requires AgesBelow(t, age, bound) && Inv(t, age) && t'.processes == Without(t.processes, p)
    ensures AgesBelow(t', age, bound)
  {
    WithoutDistinct(t.processes, p);
  }

  /** What the exit of p relies on. */
  lemma ExitFacts(t: Tree, age: map<Name, nat>, p: Name, orphans: seq<Name>)
    requires Inv(t, age) && p in t.processes && p != Root() && Distinct(orphans)
    requires forall x :: x in orphans <==> x in t.processes && Descends(t, age, p, x) && x != p
    ensures AreOrphans(t, age, p, orphans)
    ensures p in t.children && p in t.parents && t.parents[p] in t.children && t.parents[p] != p
    ensures Root() in t.children && Root() !in orphans && t.parents[p] !in orphans
    ensures forall d :: d in orphans ==> d in t.parents && d in t.children && d != p
    ensures forall c :: c in t.children[p] ==> c in t.parents && c != p
  {
    Up(t, age, p);
    RootIsNoOrphan(t, age, p, orphans);
  }

  lemma KnownProcess(t: Tree, age: map<Name, nat>, p: Name)
    requires Inv(t, age)
    ensures p in t.processes <==> p in t.children
  {
  }

  /** A process without children has no descendants, and its exit leaves the other parents alone. */
  lemma LeafExit(t: Tree, age: map<Name, nat>, p: Name, orphans: seq<Name>)
    requires Inv(t, age) && AreOrphans(t, age, p, orphans) && p in t.children && t.children[p] == []
    requires p in t.parents && t.parents[p] in t.children && t.parents[p] != p
    ensures ExitedLocal(t, p).parents == ExitedGlobal(t, p, orphans).parents == t.parents - {p}
  {
    if orphans != [] {
      assert orphans[0] in orphans;
      var c := ThroughChild(t, age, p, orphans[0]);
    }
    assert orphans == [];
    hide Inv, AreOrphans, Gained, Lost, Without;
  }

  // ----- names -----

  function ExtendedBy(name: Name, base: seq<char>): seq<Name> {
    seq(|base|, j requires 0 <= j < |base| => name + [base[j]])
  }

  /** Each name with each character added, in order. */
  function GrownNames(names: seq<Name>, base: seq<char>): seq<Name> {
    if names == [] then [] else GrownNames(names[..|names| - 1], base) + ExtendedBy(names[|names| - 1], base)
  }

  /** The strings of one character, then of two, and so on, each length in the order of the characters. */
  class NameSource {
    const baseNames: seq<char>
    var currNames: seq<Name>
    var currIndex: nat
    ghost var length: nat
    ghost var given: set<Name>

    /** The names of the present length are all there, and what has been given is shorter or comes before the index. */
    ghost predicate Valid()
      reads this
    {
      && |baseNames| > 0 && Distinct(baseNames)
      && length > 0 && currIndex <= |currNames| && |currNames| > 0
      && Distinct(currNames) && (forall i :: 0 <= i < |currNames| ==> |currNames[i]| == length)
      && (forall name :: name in given ==> |name| < length || name in currNames[..currIndex])
    }

    constructor (baseNames: seq<char>)
      requires |baseNames| > 0 && baseNames[0] == 'a'
      requires Distinct(baseNames)
      ensures Valid() && given == {Root()}
    {
      this.baseNames := baseNames;
      currNames := seq(|baseNames|, i requires 0 <= i < |baseNames| => [baseNames[i]]);
      currIndex, length, given := 1, 1, {Root()};
      new;
      assert currNames[0] == Root();
      assert currNames[..1] == [Root()];
    }

    /** All names one character longer. */
    method GrowNames()
      requires Valid() && currIndex == |currNames|
      modifies this
      ensures Valid() && given == old(given) && currIndex == 0
      ensures currNames == GrownNames(old(currNames), baseNames)
    {
      hide Distinct, GrownNames, ExtendedBy;
      var newNames: seq<Name> := [];
      NoneGrown(baseNames);
      for i := 0 to |currNames|
        modifies {}
        invariant newNames == GrownNames(currNames[..i], baseNames)
      {
        NoneExtended(currNames[i]);
        for j := 0 to |baseNames|
          modifies {}
          invariant newNames == GrownNames(currNames[..i], baseNames) + ExtendedBy(currNames[i], baseNames[..j])
        {
          ExtendedNext(currNames[i], baseNames, j);
          newNames := newNames + [currNames[i] + [baseNames[j]]];
        }
        assert baseNames[..|baseNames|] == baseNames;
        GrownNext(currNames, baseNames, i);
      }
      assert currNames[..|currNames|] == currNames;
      GrownDistinct(currNames, baseNames, length);
      currNames, currIndex := newNames, 0;
      length := length + 1;
    }

    /** A name that has never been given before. */
    method GetName() returns (name: Name)
      requires Valid()
      modifies this
      ensures Valid() && name !in old(given) && given == old(given) + {name}
      ensures currNames
              == if old(currIndex) < |old(currNames)| then old(currNames) else GrownNames(old(currNames), baseNames)
      ensures currIndex == if old(currIndex) < |old(currNames)| then old(currIndex) + 1 else 1
      ensures name == currNames[currIndex - 1]
    {
      hide Distinct, GrownNames;
      if currIndex == |currNames| {
        GrowNames();
      }
      NotBefore(currNames, currIndex);
      name := currNames[currIndex];
      assert currNames[..currIndex + 1] == currNames[..currIndex] + [name];
      currIndex := currIndex + 1;
      given := given + {name};
    }
  }

  lemma NotBefore(names: seq<Name>, k: nat)
    requires Distinct(names) && k < |names|
    ensures names[k] !in names[..k]
  {
  }

  lemma NoneGrown(base: seq<char>)
    ensures GrownNames([], base) == []
  {
  }

  lemma NoneExtended(name: Name)
    ensures ExtendedBy(name, []) == []
  {
  }

  lemma ExtendedNext(name: Name, base: seq<char>, j: nat)
    requires j < |base|
    ensures ExtendedBy(name, base[..j + 1]) == ExtendedBy(name, base[..j]) + [name + [base[j]]]
  {
  }

  lemma GrownNext(names: seq<Name>, base: seq<char>, i: nat)
    requires i < |names|
    ensures GrownNames(names[..i + 1], base) == GrownNames(names[..i], base) + ExtendedBy(names[i], base)
  {
    assert names[..i + 1][..i] == names[..i];
  }

  /** One of these names and one character. */
  predicate Extends(x: Name, names: seq<Name>, length: nat) {
    |x| == length + 1 && x[..length] in names
  }

  lemma ExtendedDistinct(name: Name, base: seq<char>)
    requires Distinct(base)
    ensures Distinct(ExtendedBy(name, base))
    ensures forall x :: x in ExtendedBy(name, base) ==> |x| == |name| + 1 && x[..|name|] == name
  {
    assert forall i :: 0 <= i < |base| ==> (name + [base[i]])[|name|] == base[i];
  }

  /** The grown names are different and one character longer. */
  lemma {:induction false} GrownDistinct(names: seq<Name>, base: seq<char>, length: nat)
    requires Distinct(names) && (forall i :: 0 <= i < |names| ==> |names[i]| == length)
    requires |base| > 0 && Distinct(base)
    ensures Distinct(GrownNames(names, base))
    ensures forall x :: x in GrownNames(names, base) ==> Extends(x, names, length)
    ensures forall i :: 0 <= i < |GrownNames(names, base)| ==> |GrownNames(names, base)[i]| == length + 1
    ensures names != [] ==> GrownNames(names, base) != []
  {
    if names != [] {
      var front, last := names[..|names| - 1], names[|names| - 1];
      GrownDistinct(front, base, length);
      ExtendedDistinct(last, base);
      hide GrownNames, ExtendedBy;
      var before, row := GrownNames(front, base), ExtendedBy(last, base);
      GrownNext(names, base, |names| - 1);
      assert names[..|names|] == names;
      forall x | x in before
        ensures x !in row && Extends(x, names, length)
      {
        assert x[..length] in front;
        var i :| 0 <= i < |front| && front[i] == x[..length];
        assert names[i] == x[..length];
      }
      DistinctJoin(before, row);
      assert forall x :: x in before + row <==> x in before || x in row;
      assert forall i :: 0 <= i < |before + row| ==> (before + row)[i] in before + row;
    }
  }
}
