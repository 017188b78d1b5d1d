/** What fork and exit do to the ancestry of the processes. */
module TreeEffects {
  import opened ForkTree
  import opened Sequences

  /** A fork leaves the ancestry among the other processes alone. */
  lemma {:induction false} ForkKeepsAncestry(t: Tree, age: map<Name, nat>, bound: nat, p: Name, c: Name, a: Name,
                                             x: Name)
    requires Inv(t, age) && AgesBelow(t, age, bound) && p in t.processes && c !in t.processes
    requires a in t.processes && x in t.processes
    ensures Inv(Forked(t, p, c), age[c := bound])
    ensures x in Forked(t, p, c).processes
    ensures Descends(Forked(t, p, c), age[c := bound], a, x) <==> Descends(t, age, a, x)
    decreases age[x]
  {
    ForkKeepsInv(t, age, bound, p, c);
    assert x in Forked(t, p, c).processes;
    if a != x && x in t.parents {
      Up(t, age, x);
      ForkKeepsAncestry(t, age, bound, p, c, a, t.parents[x]);
    }
  }

  /** The new process descends from its parent and from whom that descends. */
  lemma ForkAncestors(t: Tree, age: map<Name, nat>, bound: nat, p: Name, c: Name, a: Name)
    requires Inv(t, age) && AgesBelow(t, age, bound) && p in t.processes && c !in t.processes && a in t.processes
    ensures Inv(Forked(t, p, c), age[c := bound])
    ensures Forked(t, p, c).processes == t.processes + [c] && c in Forked(t, p, c).processes
    ensures Descends(Forked(t, p, c), age[c := bound], a, c) <==> Descends(t, age, a, p)
    ensures c in Forked(t, p, c).parents && Forked(t, p, c).parents[c] == p
    ensures Forked(t, p, c).children[c] == [] && Forked(t, p, c).children[p] == t.children[p] + [c]
  {
    ForkKeepsInv(t, age, bound, p, c);
    ForkKeepsAncestry(t, age, bound, p, c, a, p);
    assert c in Forked(t, p, c).processes by {
      assert (t.processes + [c])[|t.processes|] == c;
    }
  }

  /** The exiting process goes, and nobody else. */
  lemma ExitKeepsOthers(t: Tree, age: map<Name, nat>, p: Name, orphans: seq<Name>, x: Name)
    requires Inv(t, age) && AreOrphans(t, age, p, orphans) && p != Root()
    ensures p in t.parents && p in t.children && t.parents[p] in t.children && t.parents[p] != p
    ensures x in ExitedLocal(t, p).processes <==> x in t.processes && x != p
    ensures x in ExitedGlobal(t, p, orphans).processes <==> x in t.processes && x != p
  {
    Up(t, age, p);
    WithoutDistinct(t.processes, p);
  }

  /** Children that go to the exiting process's parent keep all their other ancestors. */
  lemma {:induction false} ExitLocalKeepsAncestry(t: Tree, age: map<Name, nat>, p: Name, a: Name, x: Name)
    requires Inv(t, age) && p in t.processes && p != Root()
    requires a in t.processes && x in t.processes && a != p && x != p
    ensures p in t.parents && t.parents[p] in t.children && t.parents[p] != p
    ensures Inv(ExitedLocal(t, p), age) && x in ExitedLocal(t, p).processes
    ensures Descends(ExitedLocal(t, p), age, a, x) <==> Descends(t, age, a, x)
    decreases age[x]
  {
    Up(t, age, p);
    ExitLocalKeepsInv(t, age, p);
    WithoutDistinct(t.processes, p);
    if a != x && x in t.parents {
      Up(t, age, x);
      var up := t.parents[p];
      if t.parents[x] == p {
        assert x in t.children[p];
        assert ExitedLocal(t, p).parents[x] == up;
        ExitLocalKeepsAncestry(t, age, p, a, up);
      } else {
        assert x !in t.children[p];
        assert ExitedLocal(t, p).parents[x] == t.parents[x];
        ExitLocalKeepsAncestry(t, age, p, a, t.parents[x]);
      }
    }
  }

  /** Descendants that go to the root keep no other ancestor; the other processes keep all of theirs. */
  lemma {:induction false} ExitGlobalAncestry(t: Tree, age: map<Name, nat>, p: Name, orphans: seq<Name>, a: Name,
                                              x: Name)
    requires Inv(t, age) && AreOrphans(t, age, p, orphans) && p != Root()
    requires a in t.processes && x in t.processes && a != p && x != p
    ensures p in t.parents && p in t.children
    ensures Inv(ExitedGlobal(t, p, orphans), age) && x in ExitedGlobal(t, p, orphans).processes
    ensures Descends(ExitedGlobal(t, p, orphans), age, a, x)
            <==> if Descends(t, age, p, x) then a == x || a == Root() else Descends(t, age, a, x)
    decreases age[x]
  {
    ExitGlobalKeepsInv(t, age, p, orphans);
    ExitKeepsOthers(t, age, p, orphans, x);
    var t' := ExitedGlobal(t, p, orphans);
    if x in t.parents {
      Up(t, age, x);
      OrphansClosed(t, age, p, orphans, x);
      if x in orphans {
        assert t'.parents[x] == Root();
      } else {
        assert t'.parents[x] == t.parents[x];
        ExitGlobalAncestry(t, age, p, orphans, a, t.parents[x]);
      }
    }
  }
}
