/** What creating and deleting do in the fast file system, seen through the paths. */
module FfsEffects {
  import opened Arithmetic
  import opened Directories
  import opened Ffs
  import opened FfsDelete
  import opened FfsTables
  import opened Options

  /** Every path but p names the inode it named, and this has the kind and the blocks it had. */
  ghost predicate OthersSame(t: Tables, t': Tables, p: Path) {
    forall q :: q != p ==>
      && (q in t'.nameToInode <==> q in t.nameToInode)
      && (q in t.nameToInode ==> SameInode(t, t', q))
  }

  predicate SameInode(t: Tables, t': Tables, q: Path)
    requires q in t.nameToInode && q in t'.nameToInode
  {
    var i := t.nameToInode[q];
    && t'.nameToInode[q] == i
    && i in t.inodeType && i in t'.inodeType && t'.inodeType[i] == t.inodeType[i]
    && i in t.inodeBlocks && i in t'.inodeBlocks && t'.inodeBlocks[i] == t.inodeBlocks[i]
  }

  /** The new path names the new inode, which is of the kind asked for and has the blocks at the slots given, in their
  order; its directory lists it last; no other path changes. */
  lemma CreateEffect(t: Tables, parent: Path, name: string, kind: Kind, at: Slot, slots: seq<Slot>, data': Bitmap)
    requires Creatable(t, parent, name, at, slots, data')
    ensures var t', p := Created(t, parent, name, kind, at, slots, data'), parent + [name];
            && OthersSame(t, t', p) && p !in t.nameToInode && p in t'.nameToInode
            && (var i, dir := t'.nameToInode[p], t.nameToInode[parent];
                && t.par.inodesPerGroup > 0 && t.par.blocksPerGroup > 0
                && SlotAt(i, t.par.inodesPerGroup) == at
                && i in t'.inodeType && t'.inodeType[i] == kind
                && i in t'.inodeBlocks && |t'.inodeBlocks[i]| == |slots|
                && (forall k :: 0 <= k < |slots| ==> SlotAt(t'.inodeBlocks[i][k], t.par.blocksPerGroup) == slots[k])
                && dir in t'.dirData && i != dir && t'.dirData[dir] == t.dirData[dir] + [Entry(name, i)])
  {
    NewInode(t, parent, name, at, slots, data');
    assert t.Shapes() && NamesOk(t);
    hide Ok, GlobalNumber;
    NumberDivides(at, t.par.inodesPerGroup);
    forall k | 0 <= k < |slots|
      ensures slots[k].1 < t.par.blocksPerGroup
    {
      assert slots[k] in slots;
    }
    forall k | 0 <= k < |slots|
      ensures SlotAt(GlobalNumber(slots[k], t.par.blocksPerGroup), t.par.blocksPerGroup) == slots[k]
    {
      NumberDivides(slots[k], t.par.blocksPerGroup);
    }
  }

  /** Exactly these slots have become free. */
  ghost predicate Freed(m: Bitmap, m': Bitmap, slots: seq<Slot>) {
    && |m'| == |m| && (forall g :: 0 <= g < |m| ==> |m'[g]| == |m[g]|)
    && forall g, i :: 0 <= g < |m| && 0 <= i < |m[g]| ==> m'[g][i] == if (g, i) in slots then None else m[g][i]
  }

  lemma OthersAfterDelete(t: Tables, t': Tables, p: Path, i: nat)
    requires NamesOk(t) && p in t.nameToInode && t.nameToInode[p] == i
    requires t'.nameToInode == t.nameToInode - {p} && t'.inodeType == t.inodeType - {i}
    requires t'.inodeBlocks == t.inodeBlocks[i := []]
    ensures OthersSame(t, t', p)
  {
    hide Owns;
  }

  /** The directory has lost exactly its entry of that name. */
  ghost predicate EntryLost(dirs: map<nat, seq<Entry>>, dirs': map<nat, seq<Entry>>, dir: nat, name: string) {
    && dir in dirs && dir in dirs'
    && (forall e :: e in dirs'[dir] <==> e in dirs[dir] && e.name != name)
    && (forall d :: d != dir && d in dirs ==> d in dirs' && dirs'[d] == dirs[d])
  }

  /** A deletion takes away exactly the path and its directory entry, and frees exactly the slots that the program
  computes; no other path changes. */
  lemma DeleteEffect(t: Tables, parent: Path, name: string)
    requires Deletable(t, parent, name)
    requires t.nameToInode[parent + [name]] in t.inodeBlocks && Deleted(t, parent, name).Some?
    ensures var t', p := Deleted(t, parent, name).value, parent + [name];
            var i := t.nameToInode[p];
            && OthersSame(t, t', p) && p !in t'.nameToInode
            && EntryLost(t.dirData, t'.dirData, t.nameToInode[parent], name)
            && Freed(t.data, t'.data, FreedSlots(t.par, t.inodeBlocks[i]))
            && Freed(t.inodes, t'.inodes, [FreedSlot(t.par, i)])
  {
    hide Ok, Cleared, RemoveName, BlocksOk, BlocksOnce, NamesOk, OthersSame, Freed, FreedSlots, FreedSlot;
    var i := t.nameToInode[parent + [name]];
    OkParts(t);
    EntryGone(t, parent, name);
    DeletedIs(t, parent, name, i);
    var t' := Deleted(t, parent, name).value;
    OthersAfterDelete(t, t', parent + [name], i);
    AllFreed(t.data, FreedSlots(t.par, t.inodeBlocks[i]));
    AllFreed(t.inodes, [FreedSlot(t.par, i)]);
  }

  lemma AllFreed(m: Bitmap, slots: seq<Slot>)
    ensures Cleared(m, slots).Some? ==> Freed(m, Cleared(m, slots).value, slots)
  {
    hide Cleared;
    if Cleared(m, slots).Some? {
      ClearedAt(m, slots);
    }
  }
}
