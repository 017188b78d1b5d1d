/** Deleting a file in the fast file system. The program divides the file's block and inode numbers by the
number of groups where it should divide them by the size of a group: when that frees the right slots. */
module FfsDelete {
  import opened Arithmetic
  import opened Directories
  import opened Ffs
  import opened FfsTables
  import opened Options
  import opened Sequences

  function SlotAt(n: nat, width: nat): Slot
    requires width > 0
  {
    (n / width, n % width)
  }

  /** The slot that the program computes for a block or an inode. */
  function FreedSlot(par: Params, n: nat): Slot
    requires par.Valid()
  {
    SlotAt(n, par.numGroups)
  }

  function FreedSlots(par: Params, blocks: seq<nat>): (r: seq<Slot>)
    requires par.Valid()
    ensures |r| == |blocks| && forall k :: 0 <= k < |r| ==> r[k] == FreedSlot(par, blocks[k])
  {
    seq(|blocks|, k requires 0 <= k < |blocks| => FreedSlot(par, blocks[k]))
  }

  /** The slots where the blocks are. */
  function OwnSlots(par: Params, blocks: seq<nat>): (r: seq<Slot>)
    requires par.Valid()
    ensures |r| == |blocks| && forall k :: 0 <= k < |r| ==> r[k] == SlotAt(blocks[k], par.blocksPerGroup)
  {
    seq(|blocks|, k requires 0 <= k < |blocks| => SlotAt(blocks[k], par.blocksPerGroup))
  }

  predicate InRange(m: Bitmap, slot: Slot) {
    slot.0 < |m| && slot.1 < |m[slot.0]|
  }

  /** These slots made free one by one; None at an index out of range, where the program stops. */
  function Cleared(m: Bitmap, slots: seq<Slot>): Option<Bitmap> {
    if slots == [] then Some(m)
    else
      var m' :- Cleared(m, slots[..|slots| - 1]);
      var slot := slots[|slots| - 1];
      if InRange(m', slot) then Some(m'[slot.0 := m'[slot.0][slot.1 := None]]) else None
  }

  /** A file under its name in a directory. */
  ghost predicate Deletable(t: Tables, parent: Path, name: string) {
    && Ok(t)
    && parent in t.nameToInode && t.nameToInode[parent] in t.dirData
    && parent + [name] in t.nameToInode
    && t.inodeType[t.nameToInode[parent + [name]]] == Regular
  }

  function Deleted(t: Tables, parent: Path, name: string): Option<Tables>
    requires t.par.Valid() && parent in t.nameToInode && t.nameToInode[parent] in t.dirData
    requires parent + [name] in t.nameToInode && t.nameToInode[parent + [name]] in t.inodeBlocks
  {
    var dir, inum := t.nameToInode[parent], t.nameToInode[parent + [name]];
    var data' :- Cleared(t.data, FreedSlots(t.par, t.inodeBlocks[inum]));
    var inodes' :- Cleared(t.inodes, [FreedSlot(t.par, inum)]);
    Some(t.(data := data', inodes := inodes',
            dirData := t.dirData[dir := RemoveName(t.dirData[dir], name)],
            inodeType := t.inodeType - {inum},
            inodeBlocks := t.inodeBlocks[inum := []],
            nameToInode := t.nameToInode - {parent + [name]}))
  }

  /** The slot of every block of the file is among those freed, and the inode's slot is the one freed. */
  predicate RightSlots(par: Params, inum: nat, blocks: seq<nat>)
    requires par.Valid()
  {
    && (forall b :: b in blocks ==> SlotAt(b, par.blocksPerGroup) in FreedSlots(par, blocks))
    && FreedSlot(par, inum) == SlotAt(inum, par.inodesPerGroup)
  }

  // ----- clearing -----

  lemma {:induction false} ClearedAt(m: Bitmap, slots: seq<Slot>)
    requires Cleared(m, slots).Some?
    ensures var m' := Cleared(m, slots).value;
            && |m'| == |m| && (forall g :: 0 <= g < |m| ==> |m'[g]| == |m[g]|)
            && forall g, i :: 0 <= g < |m| && 0 <= i < |m[g]| ==>
                 m'[g][i] == if (g, i) in slots then None else m[g][i]
  {
    if slots != [] {
      ClearedAt(m, slots[..|slots| - 1]);
      assert slots == slots[..|slots| - 1] + [slots[|slots| - 1]];
    }
  }

  lemma {:induction false} ClearedSome(m: Bitmap, slots: seq<Slot>)
    requires forall slot :: slot in slots ==> InRange(m, slot)
    ensures Cleared(m, slots).Some?
  {
    if slots != [] {
      ClearedSome(m, slots[..|slots| - 1]);
      ClearedAt(m, slots[..|slots| - 1]);
      assert InRange(m, slots[|slots| - 1]);
    }
  }

  /** Clearing different slots in use frees as many. */
  lemma {:induction false} ClearedCount(m: Bitmap, slots: seq<Slot>)
    requires Distinct(slots) && forall slot :: slot in slots ==> InRange(m, slot) && m[slot.0][slot.1].Some?
    ensures Cleared(m, slots).Some? && FreeCount(Cleared(m, slots).value) == FreeCount(m) + |slots|
  {
    ClearedSome(m, slots);
    if slots != [] {
      var front, slot := slots[..|slots| - 1], slots[|slots| - 1];
      ClearedCount(m, front);
      ClearedAt(m, front);
      assert slot in slots && slot !in front;
      OneCleared(Cleared(m, front).value, slot.0, slot.1);
    }
  }

  lemma OneCleared(m: Bitmap, g: nat, i: nat)
    requires g < |m| && i < |m[g]| && m[g][i].Some?
    ensures FreeCount(m[g := m[g][i := None]]) == FreeCount(m) + 1
  {
    var m': Bitmap, inum := m[g := m[g][i := None]], m[g][i].value;
    FreeCountMarked(m', g, i, inum);
    assert m[g][i := None][i := Some(inum)] == m[g];
    assert Marked(m', g, i, inum) == m;
  }

  lemma SlotNumber(slot: Slot, width: nat)
    requires slot.1 < width
    ensures SlotAt(GlobalNumber(slot, width), width) == slot
  {
    NumberDivides(slot, width);
  }

  lemma NumberSlot(n: nat, width: nat)
    requires width > 0
    ensures GlobalNumber(SlotAt(n, width), width) == n
  {
    assert n == (n / width) * width + n % width;
  }

  lemma OwnDistinct(par: Params, blocks: seq<nat>)
    requires par.Valid() && Distinct(blocks)
    ensures Distinct(OwnSlots(par, blocks))
  {
    var own, w := OwnSlots(par, blocks), par.blocksPerGroup;
    forall i, j | 0 <= i < j < |own| ensures own[i] != own[j] {
      NumberSlot(blocks[i], w);
      NumberSlot(blocks[j], w);
    }
  }

  /** If every slot of the file is freed, no other is. */
  lemma RightIsExact(par: Params, inum: nat, blocks: seq<nat>)
    requires par.Valid() && Distinct(blocks) && RightSlots(par, inum, blocks)
    ensures Distinct(FreedSlots(par, blocks))
    ensures forall slot :: slot in FreedSlots(par, blocks) <==> slot in OwnSlots(par, blocks)
  {
    var own, freed := OwnSlots(par, blocks), FreedSlots(par, blocks);
    OwnDistinct(par, blocks);
    forall slot | slot in own ensures slot in freed {
      var k :| 0 <= k < |own| && own[k] == slot;
      assert blocks[k] in blocks;
    }
    Pigeonhole(own, freed);
  }

  // ----- what a deletion leaves -----

  /** The deletion found its slots, and from the blocks' bitmap took exactly those of the file. */
  ghost predicate Exact(t: Tables, t': Tables, path: Path, inum: nat) {
    && t.Shapes() && t'.Shapes() && t'.par == t.par
    && path in t.nameToInode && t.nameToInode[path] == inum && inum in t.inodeBlocks
    && t'.nameToInode == t.nameToInode - {path}
    && t'.inodeBlocks == t.inodeBlocks[inum := []] && t'.inodeType == t.inodeType - {inum}
    && (forall g, i :: 0 <= g < |t.data| && 0 <= i < |t.data[g]| ==>
          t'.data[g][i] == if (g, i) in OwnSlots(t.par, t.inodeBlocks[inum]) then None else t.data[g][i])
    && (forall g, i :: 0 <= g < |t.inodes| && 0 <= i < |t.inodes[g]| ==>
          t'.inodes[g][i] == if (g, i) == SlotAt(inum, t.par.inodesPerGroup) then None else t.inodes[g][i])
  }

  lemma OtherInodes(t: Tables, path: Path, p: Path)
    requires NamesOk(t) && path in t.nameToInode && p in t.nameToInode && p != path
    ensures t.nameToInode[p] != t.nameToInode[path]
  {
  }

  /** A number whose slot is not cleared keeps its owner. */
  lemma KeepsOwner(m: Bitmap, m': Bitmap, width: nat, n: nat, owner: nat)
    requires Owns(m, width, n, owner) && |m'| == |m| && forall g :: 0 <= g < |m| ==> |m'[g]| == |m[g]|
    requires var slot := SlotAt(n, width); InRange(m, slot) ==> m'[slot.0][slot.1] == m[slot.0][slot.1]
    ensures Owns(m', width, n, owner)
  {
  }

  lemma ExactNames(t: Tables, t': Tables, path: Path, inum: nat)
    requires Ok(t) && Exact(t, t', path, inum) && path != []
    ensures NamesOk(t')
  {
    hide TreeOk, BlocksOk, NoLeaks, EntriesOk, NoLostInodes, KindsOk, DirsOk, BlocksOnce, Owns, SlotAt;
    var w := t.par.inodesPerGroup;
    forall p | p in t'.nameToInode ensures Owns(t'.inodes, w, t'.nameToInode[p], t'.nameToInode[p]) {
      var i := t.nameToInode[p];
      OtherInodes(t, path, p);
      NumberSlot(i, w);
      NumberSlot(inum, w);
      KeepsOwner(t.inodes, t'.inodes, w, i, i);
    }
    forall p | p in t'.nameToInode ensures t'.nameToInode[p] in t'.inodeType && t'.nameToInode[p] in t'.inodeBlocks {
      OtherInodes(t, path, p);
    }
  }

  lemma OwnListed(par: Params, blocks: seq<nat>, n: nat)
    requires par.Valid() && n in blocks
    ensures SlotAt(n, par.blocksPerGroup) in OwnSlots(par, blocks)
  {
    var k :| 0 <= k < |blocks| && blocks[k] == n;
    assert OwnSlots(par, blocks)[k] == SlotAt(n, par.blocksPerGroup);
  }

  lemma OwnInUse(t: Tables, path: Path, inum: nat, slot: Slot)
    requires NamesOk(t) && BlocksOk(t) && t.Shapes() && path in t.nameToInode && t.nameToInode[path] == inum
    requires inum in t.inodeBlocks && slot in OwnSlots(t.par, t.inodeBlocks[inum])
    ensures InRange(t.data, slot) && t.data[slot.0][slot.1] == Some(inum)
  {
    var blocks := t.inodeBlocks[inum];
    var k :| 0 <= k < |blocks| && SlotAt(blocks[k], t.par.blocksPerGroup) == slot;
    assert blocks[k] in blocks;
    assert Owns(t.data, t.par.blocksPerGroup, blocks[k], inum);
  }

  /** A block in use by another file is not among the slots of this one. */
  lemma BlockElsewhere(t: Tables, path: Path, inum: nat, slot: Slot, owner: nat)
    requires Ok(t) && path in t.nameToInode && t.nameToInode[path] == inum && owner != inum
    requires InRange(t.data, slot) && t.data[slot.0][slot.1] == Some(owner)
    ensures slot !in OwnSlots(t.par, t.inodeBlocks[inum])
  {
    hide TreeOk, NoLeaks, EntriesOk, NoLostInodes, KindsOk, DirsOk, BlocksOnce;
    var blocks := t.inodeBlocks[inum];
    if slot in OwnSlots(t.par, blocks) {
      OwnInUse(t, path, inum, slot);
    }
  }

  lemma ExactBlocks(t: Tables, t': Tables, path: Path, inum: nat)
    requires Ok(t) && Exact(t, t', path, inum)
    ensures BlocksOk(t') && BlocksOnce(t')
  {
    hide TreeOk, NoLeaks, EntriesOk, NoLostInodes, KindsOk, DirsOk;
    var w := t.par.blocksPerGroup;
    forall p, b | p in t'.nameToInode && t'.nameToInode[p] in t'.inodeBlocks && b in t'.inodeBlocks[t'.nameToInode[p]]
      ensures Owns(t'.data, w, b, t'.nameToInode[p])
    {
      OtherInodes(t, path, p);
      var owner := t.nameToInode[p];
      assert Owns(t.data, w, b, owner);
      BlockElsewhere(t, path, inum, SlotAt(b, w), owner);
      KeepsOwner(t.data, t'.data, w, b, owner);
    }
    forall p | p in t'.nameToInode && t'.nameToInode[p] in t'.inodeBlocks
      ensures Distinct(t'.inodeBlocks[t'.nameToInode[p]])
    {
      OtherInodes(t, path, p);
    }
  }

  lemma ExactNoLeaks(t: Tables, t': Tables, path: Path, inum: nat)
    requires Ok(t) && Exact(t, t', path, inum)
    ensures NoLeaks(t')
  {
    hide TreeOk, EntriesOk, NoLostInodes, KindsOk, DirsOk, BlocksOk, BlocksOnce;
    forall g: nat, i: nat | g < |t'.data| && i < |t'.data[g]| && t'.data[g][i].Some?
      ensures exists p :: OwnedBy(t', (g, i), t'.data[g][i].value, p)
    {
      var owner := t.data[g][i].value;
      var p :| OwnedBy(t, (g, i), owner, p);
      if p == path {
        SlotNumber((g, i), t.par.blocksPerGroup);
        OwnListed(t.par, t.inodeBlocks[inum], GlobalNumber((g, i), t.par.blocksPerGroup));
      }
      OtherInodes(t, path, p);
      assert OwnedBy(t', (g, i), owner, p);
    }
  }

  lemma ExactInodes(t: Tables, t': Tables, path: Path, inum: nat)
    requires Ok(t) && Exact(t, t', path, inum) && t'.dirData.Keys == t.dirData.Keys && inum !in t.dirData
    ensures NoLostInodes(t')
  {
    hide TreeOk, EntriesOk, NoLeaks, KindsOk, DirsOk, BlocksOk, BlocksOnce;
    forall i | HasPath(t, i) && i != inum ensures HasPath(t', i) {
      var p :| p in t.nameToInode && t.nameToInode[p] == i;
      assert p in t'.nameToInode && t'.nameToInode[p] == i;
    }
    forall g: nat, i: nat | g < |t'.inodes| && i < |t'.inodes[g]| && t'.inodes[g][i].Some?
      ensures HasPath(t', GlobalNumber((g, i), t.par.inodesPerGroup))
    {
      SlotNumber((g, i), t.par.inodesPerGroup);
    }
  }

  /** The directory without the entry. */
  lemma EntryGone(t: Tables, parent: Path, name: string)
    requires Deletable(t, parent, name)
    ensures var list := t.dirData[t.nameToInode[parent]];
            && (forall e :: e in RemoveName(list, name) <==> e in list && e.name != name)
            && DirectoryOk(RemoveName(list, name)) && !IsDot(name)
  {
    hide NoLeaks, NoLostInodes, BlocksOk, BlocksOnce, Owns;
    var path, list := parent + [name], t.dirData[t.nameToInode[parent]];
    assert path[..|path| - 1] == parent && path[|path| - 1] == name && Entered(t, path);
    var e := Entry(name, t.nameToInode[path]);
    assert EntryLeads(t, parent, e);
    assert !IsDot(name) by {
      RootIsDirectory(t, path);
    }
    assert DirectoryOk(list);
    var k :| 0 <= k < |list| && list[k] == e;
    RemoveNameAt(list, name, k);
    NameRemoved(list, k);
    WithoutKeepsDistinct(list, k);
    StillHas(list, k, ".");
    StillHas(list, k, "..");
  }

  lemma RootIsDirectory(t: Tables, path: Path)
    requires NamesOk(t) && KindsOk(t) && path in t.nameToInode && t.inodeType[t.nameToInode[path]] == Regular
    ensures t.nameToInode[path] != 0 && t.nameToInode[path] !in t.dirData
  {
  }

  lemma StillHas(list: seq<Entry>, k: nat, name: string)
    requires k < |list| && list[k].name != name && HasName(list, name)
    ensures HasName(list[..k] + list[k + 1..], name)
  {
    var m :| 0 <= m < |list| && list[m].name == name;
    assert (list[..k] + list[k + 1..])[if m < k then m else m - 1].name == name;
  }

  /** The file's entry is gone from its directory, and nothing else has changed in any. */
  ghost predicate Unlinked(t: Tables, t': Tables, parent: Path, name: string) {
    && parent in t.nameToInode && t.nameToInode[parent] in t.dirData && parent + [name] in t.nameToInode
    && t'.dirData == t.dirData[t.nameToInode[parent] := RemoveName(t.dirData[t.nameToInode[parent]], name)]
    && t'.nameToInode == t.nameToInode - {parent + [name]}
    && t'.inodeType == t.inodeType - {t.nameToInode[parent + [name]]}
  }

  /** What every directory still lists. */
  ghost predicate StillListed(t: Tables, t': Tables, parent: Path, name: string) {
    forall q {:trigger t.nameToInode[q]} :: q in t.nameToInode && t.nameToInode[q] in t.dirData ==>
      && t.nameToInode[q] in t'.dirData
      && ListsBut(t.dirData[t.nameToInode[q]], t'.dirData[t.nameToInode[q]], q == parent, name)
  }

  ghost predicate ListsBut(list: seq<Entry>, list': seq<Entry>, but: bool, name: string) {
    forall e :: e in list' <==> e in list && !(but && e.name == name)
  }

  lemma UnlinkedListed(t: Tables, t': Tables, parent: Path, name: string)
    requires Deletable(t, parent, name) && Unlinked(t, t', parent, name)
    ensures StillListed(t, t', parent, name)
  {
    EntryGone(t, parent, name);
    forall q | q in t.nameToInode && q != parent ensures t.nameToInode[q] != t.nameToInode[parent] {
      OtherInodes(t, parent, q);
    }
    hide Ok, RemoveName;
  }

  lemma StillEntered(t: Tables, t': Tables, parent: Path, name: string, p: Path)
    requires StillListed(t, t', parent, name) && t'.nameToInode == t.nameToInode - {parent + [name]}
    requires p in t'.nameToInode && Entered(t, p) && p[..|p| - 1] != parent + [name]
    ensures Entered(t', p)
  {
    var q, e := p[..|p| - 1], Entry(p[|p| - 1], t.nameToInode[p]);
    assert p == q + [e.name];
    var dir := t.nameToInode[q];
    assert ListsBut(t.dirData[dir], t'.dirData[dir], q == parent, name);
  }

  lemma UnlinkedTree(t: Tables, t': Tables, parent: Path, name: string)
    requires Deletable(t, parent, name) && Unlinked(t, t', parent, name)
    ensures TreeOk(t')
  {
    UnlinkedListed(t, t', parent, name);
    var path := parent + [name];
    RootIsDirectory(t, path);
    forall p | p in t'.nameToInode && p != [] ensures Entered(t', p) {
      hide NoLeaks, NoLostInodes, BlocksOk, BlocksOnce, NamesOk, EntriesOk, DirsOk, KindsOk, StillListed;
      EnteredAt(t, p);
      StillEntered(t, t', parent, name, p);
    }
  }

  lemma EntryAt(t: Tables, p: Path, e: Entry)
    requires EntriesOk(t) && p in t.nameToInode && t.nameToInode[p] in t.dirData && e in t.dirData[t.nameToInode[p]]
    ensures EntryLeads(t, p, e)
  {
  }

  lemma PathSplits(parent: Path, name: string, p: Path, other: string)
    requires p + [other] == parent + [name]
    ensures p == parent && other == name
  {
    var path := parent + [name];
    assert path[..|path| - 1] == parent && (p + [other])[..|path| - 1] == p;
    assert path[|path| - 1] == name && (p + [other])[|path| - 1] == other;
  }

  lemma StillLeading(t: Tables, t': Tables, parent: Path, name: string, p: Path, e: Entry)
    requires StillListed(t, t', parent, name) && t'.nameToInode == t.nameToInode - {parent + [name]} && EntriesOk(t)
    requires p in t'.nameToInode && t.nameToInode[p] in t.dirData && t.nameToInode[p] in t'.dirData
    requires e in t'.dirData[t.nameToInode[p]]
    ensures EntryLeads(t', p, e)
  {
    var dir := t.nameToInode[p];
    assert ListsBut(t.dirData[dir], t'.dirData[dir], p == parent, name);
    EntryAt(t, p, e);
    hide EntriesOk, StillListed;
    if p + [e.name] == parent + [name] {
      PathSplits(parent, name, p, e.name);
    }
  }

  lemma UnlinkedEntries(t: Tables, t': Tables, parent: Path, name: string)
    requires Deletable(t, parent, name) && Unlinked(t, t', parent, name)
    ensures EntriesOk(t')
  {
    UnlinkedListed(t, t', parent, name);
    hide NoLeaks, NoLostInodes, BlocksOk, BlocksOnce, NamesOk, TreeOk, DirsOk, KindsOk, StillListed, EntryLeads;
    forall p, e | p in t'.nameToInode && t'.nameToInode[p] in t'.dirData && e in t'.dirData[t'.nameToInode[p]]
      ensures EntryLeads(t', p, e)
    {
      StillLeading(t, t', parent, name, p, e);
    }
  }

  lemma UnlinkedDirs(t: Tables, t': Tables, parent: Path, name: string)
    requires Deletable(t, parent, name) && Unlinked(t, t', parent, name)
    ensures DirsOk(t')
  {
    EntryGone(t, parent, name);
    hide NamesOk, KindsOk, NoLeaks, NoLostInodes, BlocksOk, BlocksOnce, TreeOk, EntriesOk, DirectoryOk, RemoveName,
        IsDot;
  }

  lemma UnlinkedKinds(t: Tables, t': Tables, parent: Path, name: string)
    requires Deletable(t, parent, name) && Unlinked(t, t', parent, name)
    ensures KindsOk(t')
  {
    var inum := t.nameToInode[parent + [name]];
    forall p | p in t'.nameToInode ensures t.nameToInode[p] != inum {
      OtherInodes(t, parent + [name], p);
    }
    assert t'.dirData.Keys == t.dirData.Keys;
    hide NamesOk, DirsOk, NoLeaks, NoLostInodes, BlocksOk, BlocksOnce, TreeOk, EntriesOk, RemoveName;
    assert [] in t'.nameToInode;
  }

  // ----- when a deletion is right -----

  lemma InodeInUse(t: Tables, path: Path, inum: nat)
    requires NamesOk(t) && t.Shapes() && path in t.nameToInode && t.nameToInode[path] == inum
    ensures inum in t.inodeBlocks && inum in t.inodeType
    ensures var slot := SlotAt(inum, t.par.inodesPerGroup);
            InRange(t.inodes, slot) && t.inodes[slot.0][slot.1] == Some(inum)
  {
    assert Owns(t.inodes, t.par.inodesPerGroup, inum, inum);
  }

  lemma RightClears(t: Tables, path: Path, inum: nat)
    requires NamesOk(t) && BlocksOk(t) && BlocksOnce(t) && t.Shapes()
    requires path in t.nameToInode && t.nameToInode[path] == inum && inum in t.inodeBlocks
    requires RightSlots(t.par, inum, t.inodeBlocks[inum])
    ensures var blocks := t.inodeBlocks[inum];
            var m := Cleared(t.data, FreedSlots(t.par, blocks));
            && m.Some? && FreeCount(m.value) == FreeCount(t.data) + |blocks|
            && |m.value| == |t.data| && (forall g :: 0 <= g < |t.data| ==> |m.value[g]| == |t.data[g]|)
            && forall g, i :: 0 <= g < |t.data| && 0 <= i < |t.data[g]| ==>
                 m.value[g][i] == if (g, i) in OwnSlots(t.par, blocks) then None else t.data[g][i]
  {
    var blocks := t.inodeBlocks[inum];
    RightIsExact(t.par, inum, blocks);
    forall slot | slot in FreedSlots(t.par, blocks)
      ensures InRange(t.data, slot) && t.data[slot.0][slot.1].Some?
    {
      OwnInUse(t, path, inum, slot);
    }
    hide Ok, Cleared, FreeCount;
    ClearedCount(t.data, FreedSlots(t.par, blocks));
    ClearedAt(t.data, FreedSlots(t.par, blocks));
  }

  lemma InodeClears(t: Tables, path: Path, inum: nat)
    requires NamesOk(t) && t.Shapes() && path in t.nameToInode && t.nameToInode[path] == inum
    requires FreedSlot(t.par, inum) == SlotAt(inum, t.par.inodesPerGroup)
    ensures var m := Cleared(t.inodes, [FreedSlot(t.par, inum)]);
            && m.Some? && FreeCount(m.value) == FreeCount(t.inodes) + 1
            && |m.value| == |t.inodes| && (forall g :: 0 <= g < |t.inodes| ==> |m.value[g]| == |t.inodes[g]|)
            && forall g, i :: 0 <= g < |t.inodes| && 0 <= i < |t.inodes[g]| ==>
                 m.value[g][i] == if (g, i) == SlotAt(inum, t.par.inodesPerGroup) then None else t.inodes[g][i]
  {
    InodeInUse(t, path, inum);
    var slots := [FreedSlot(t.par, inum)];
    hide Cleared, FreeCount;
    ClearedCount(t.inodes, slots);
    ClearedAt(t.inodes, slots);
  }

  /** With the right slots the deletion goes through, and leaves everything in order, counts included. */
  lemma RightDeletes(t: Tables, parent: Path, name: string)
    requires Deletable(t, parent, name)
    requires var inum := t.nameToInode[parent + [name]]; RightSlots(t.par, inum, t.inodeBlocks[inum])
    ensures Deleted(t, parent, name).Some? && Ok(Deleted(t, parent, name).value)
    ensures var t', inum := Deleted(t, parent, name).value, t.nameToInode[parent + [name]];
            && FreeCount(t'.data) == FreeCount(t.data) + |t.inodeBlocks[inum]|
            && FreeCount(t'.inodes) == FreeCount(t.inodes) + 1
  {
    var path := parent + [name];
    var inum := t.nameToInode[path];
    OkParts(t);
    RightClears(t, path, inum);
    InodeClears(t, path, inum);
    hide *;
    DeletedFields(t, parent, name, inum);
    var t' := Deleted(t, parent, name).value;
    ExactFrom(t, t', path, inum);
    DeletedOk(t, t', parent, name, inum);
  }

  lemma OkParts(t: Tables)
    requires Ok(t)
    ensures t.Shapes() && NamesOk(t) && BlocksOk(t) && BlocksOnce(t)
  {
  }

  lemma DeletedFields(t: Tables, parent: Path, name: string, inum: nat)
    requires Deletable(t, parent, name) && t.nameToInode[parent + [name]] == inum
    requires Cleared(t.data, FreedSlots(t.par, t.inodeBlocks[inum])).Some?
    requires Cleared(t.inodes, [FreedSlot(t.par, inum)]).Some?
    ensures Deleted(t, parent, name).Some?
    ensures var t' := Deleted(t, parent, name).value;
            && t'.par == t.par
            && t'.data == Cleared(t.data, FreedSlots(t.par, t.inodeBlocks[inum])).value
            && t'.inodes == Cleared(t.inodes, [FreedSlot(t.par, inum)]).value
            && t'.dirData.Keys == t.dirData.Keys
            && t'.nameToInode == t.nameToInode - {parent + [name]}
            && t'.inodeBlocks == t.inodeBlocks[inum := []] && t'.inodeType == t.inodeType - {inum}
            && Unlinked(t, t', parent, name)
  {
    hide Ok, Cleared, RemoveName;
  }

  lemma ExactFrom(t: Tables, t': Tables, path: Path, inum: nat)
    requires t.Shapes() && path in t.nameToInode && t.nameToInode[path] == inum && inum in t.inodeBlocks
    requires t'.par == t.par && t'.nameToInode == t.nameToInode - {path}
    requires t'.inodeBlocks == t.inodeBlocks[inum := []] && t'.inodeType == t.inodeType - {inum}
    requires |t'.data| == |t.data| && forall g :: 0 <= g < |t.data| ==> |t'.data[g]| == |t.data[g]|
    requires |t'.inodes| == |t.inodes| && forall g :: 0 <= g < |t.inodes| ==> |t'.inodes[g]| == |t.inodes[g]|
    requires forall g, i :: 0 <= g < |t.data| && 0 <= i < |t.data[g]| ==>
               t'.data[g][i] == if (g, i) in OwnSlots(t.par, t.inodeBlocks[inum]) then None else t.data[g][i]
    requires forall g, i :: 0 <= g < |t.inodes| && 0 <= i < |t.inodes[g]| ==>
               t'.inodes[g][i] == if (g, i) == SlotAt(inum, t.par.inodesPerGroup) then None else t.inodes[g][i]
    ensures Exact(t, t', path, inum)
  {
    hide OwnSlots;
  }

  lemma DeletedOk(t: Tables, t': Tables, parent: Path, name: string, inum: nat)
    requires Deletable(t, parent, name) && Exact(t, t', parent + [name], inum) && Unlinked(t, t', parent, name)
    requires t'.dirData.Keys == t.dirData.Keys
    ensures Ok(t')
  {
    RootIsDirectory(t, parent + [name]);
    ExactShapes(t, t', parent + [name], inum);
    hide NamesOk, KindsOk, TreeOk, EntriesOk, DirsOk, BlocksOk, BlocksOnce, NoLeaks, NoLostInodes, Exact, Unlinked;
    ExactNames(t, t', parent + [name], inum);
    ExactBlocks(t, t', parent + [name], inum);
    ExactNoLeaks(t, t', parent + [name], inum);
    ExactInodes(t, t', parent + [name], inum);
    UnlinkedTree(t, t', parent, name);
    UnlinkedEntries(t, t', parent, name);
    UnlinkedDirs(t, t', parent, name);
    UnlinkedKinds(t, t', parent, name);
  }

  lemma ExactShapes(t: Tables, t': Tables, path: Path, inum: nat)
    requires Exact(t, t', path, inum)
    ensures t'.Shapes() && path in t.nameToInode && t.nameToInode[path] == inum
  {
  }

  /** A block that is not freed is lost: in use, but by nothing. */
  lemma MissedBlockIsLost(t: Tables, parent: Path, name: string, b: nat)
    requires Deletable(t, parent, name) && Deleted(t, parent, name).Some?
    requires var inum := t.nameToInode[parent + [name]];
             && b in t.inodeBlocks[inum]
             && SlotAt(b, t.par.blocksPerGroup) !in FreedSlots(t.par, t.inodeBlocks[inum])
    ensures !Ok(Deleted(t, parent, name).value)
  {
    var path := parent + [name];
    var inum, t', slot := t.nameToInode[path], Deleted(t, parent, name).value, SlotAt(b, t.par.blocksPerGroup);
    hide KindsOk, TreeOk, EntriesOk, DirsOk, BlocksOnce, NoLostInodes, Cleared, RemoveName;
    ClearedAt(t.data, FreedSlots(t.par, t.inodeBlocks[inum]));
    OwnListed(t.par, t.inodeBlocks[inum], b);
    OwnInUse(t, path, inum, slot);
    assert InRange(t'.data, slot) && t'.data[slot.0][slot.1] == Some(inum);
    forall p ensures !OwnedBy(t', slot, inum, p) {
      if p in t'.nameToInode { OtherInodes(t, path, p); }
    }
    hide Ok, Deleted;
    LostBlock(t', slot, inum);
  }

  lemma LostBlock(t: Tables, slot: Slot, inum: nat)
    requires InRange(t.data, slot) && t.data[slot.0][slot.1] == Some(inum) && forall p :: !OwnedBy(t, slot, inum, p)
    ensures !Ok(t)
  {
    hide OwnedBy, NamesOk, KindsOk, TreeOk, EntriesOk, DirsOk, BlocksOk, BlocksOnce, NoLostInodes;
  }

  lemma LostInode(t: Tables, slot: Slot, inum: nat)
    requires InRange(t.inodes, slot) && t.inodes[slot.0][slot.1].Some? && !HasPath(t, inum)
    requires GlobalNumber(slot, t.par.inodesPerGroup) == inum
    ensures !Ok(t)
  {
    hide HasPath, NamesOk, KindsOk, TreeOk, EntriesOk, DirsOk, BlocksOk, BlocksOnce, NoLeaks, GlobalNumber;
  }

  lemma MissedInodeIsLost(t: Tables, parent: Path, name: string)
    requires Deletable(t, parent, name) && Deleted(t, parent, name).Some?
    requires var inum := t.nameToInode[parent + [name]];
             FreedSlot(t.par, inum) != SlotAt(inum, t.par.inodesPerGroup)
    ensures !Ok(Deleted(t, parent, name).value)
  {
    var path := parent + [name];
    var inum, t' := t.nameToInode[path], Deleted(t, parent, name).value;
    var slot := SlotAt(inum, t.par.inodesPerGroup);
    hide KindsOk, TreeOk, EntriesOk, DirsOk, BlocksOk, BlocksOnce, NoLeaks, Cleared, RemoveName;
    ClearedAt(t.inodes, [FreedSlot(t.par, inum)]);
    InodeInUse(t, path, inum);
    NumberSlot(inum, t.par.inodesPerGroup);
    assert InRange(t'.inodes, slot) && t'.inodes[slot.0][slot.1].Some?;
    forall p | p in t'.nameToInode ensures t'.nameToInode[p] != inum {
      OtherInodes(t, path, p);
    }
    assert !HasPath(t', inum);
    hide Ok, Deleted;
    LostInode(t', slot, inum);
  }

  /** Deleting a file leaves the tables in order exactly when the slot of each of its blocks is among the
  slots computed, and its inode's slot is the one computed. Otherwise the program stops, or a block or an
  inode stays in use by nothing. */
  lemma DeleteKeepsOkIff(t: Tables, parent: Path, name: string)
    requires Deletable(t, parent, name)
    ensures var inum := t.nameToInode[parent + [name]];
            Deleted(t, parent, name).Some? && Ok(Deleted(t, parent, name).value)
            <==> RightSlots(t.par, inum, t.inodeBlocks[inum])
  {
    var inum := t.nameToInode[parent + [name]];
    if RightSlots(t.par, inum, t.inodeBlocks[inum]) {
      RightDeletes(t, parent, name);
    } else if Deleted(t, parent, name).Some? {
      hide Ok, Deleted, Cleared;
      if FreedSlot(t.par, inum) != SlotAt(inum, t.par.inodesPerGroup) {
        MissedInodeIsLost(t, parent, name);
      } else {
        var blocks := t.inodeBlocks[inum];
        var b :| b in blocks && SlotAt(b, t.par.blocksPerGroup) !in FreedSlots(t.par, blocks);
        MissedBlockIsLost(t, parent, name, b);
      }
    }
  }

  /** So it always is with as many groups as each group has blocks and inodes. */
  lemma SquareDiskDeletes(par: Params, inum: nat, blocks: seq<nat>)
    requires par.Valid() && par.numGroups == par.blocksPerGroup == par.inodesPerGroup
    ensures RightSlots(par, inum, blocks)
  {
    forall b | b in blocks ensures SlotAt(b, par.blocksPerGroup) in FreedSlots(par, blocks) {
      var k :| 0 <= k < |blocks| && blocks[k] == b;
      assert FreedSlots(par, blocks)[k] == FreedSlot(par, b);
    }
  }

  /** With the default sizes it fails for a file of one block in the second group. */
  lemma DefaultSizesFail(t: Tables, parent: Path, name: string)
    requires t.par.numGroups == t.par.inodesPerGroup == 10 && t.par.blocksPerGroup == 30 && Deletable(t, parent, name)
    requires t.inodeBlocks[t.nameToInode[parent + [name]]] == [30]
    ensures !(Deleted(t, parent, name).Some? && Ok(Deleted(t, parent, name).value))
  {
    DeleteKeepsOkIff(t, parent, name);
    hide Ok, Deleted;
    assert FreedSlots(t.par, [30])[0] == (3, 0);
    assert 30 in [30];
  }

  // ----- the entry looked for -----

  /** What a directory entry leads to, when it is not a dot. */
  lemma EntryFound(t: Tables, parent: Path, k: nat)
    requires Ok(t) && parent in t.nameToInode && t.nameToInode[parent] in t.dirData
    requires k < |t.dirData[t.nameToInode[parent]]|
    ensures var e := t.dirData[t.nameToInode[parent]][k];
            && e.inum >= 0 && e.inum in t.inodeType
            && (t.inodeType[e.inum] == Regular ==>
                  Deletable(t, parent, e.name) && t.nameToInode[parent + [e.name]] == e.inum)
  {
    var e := t.dirData[t.nameToInode[parent]][k];
    assert EntryLeads(t, parent, e);
    assert t.nameToInode[[]] in t.inodeType;
  }

  lemma NotDeletable(t: Tables, parent: Path, name: string)
    requires parent in t.nameToInode && t.nameToInode[parent] in t.dirData
    requires !HasName(t.dirData[t.nameToInode[parent]], name)
    ensures !Deletable(t, parent, name)
  {
    if Deletable(t, parent, name) {
      EntryListed(t, parent, name);
    }
  }

  lemma EntryListed(t: Tables, parent: Path, name: string)
    requires Deletable(t, parent, name)
    ensures Entry(name, t.nameToInode[parent + [name]]) in t.dirData[t.nameToInode[parent]]
    ensures HasName(t.dirData[t.nameToInode[parent]], name)
  {
    var path := parent + [name];
    assert path[..|path| - 1] == parent && path[|path| - 1] == name && Entered(t, path);
  }

  lemma DirectoryNotDeletable(t: Tables, parent: Path, k: nat)
    requires Ok(t) && parent in t.nameToInode && t.nameToInode[parent] in t.dirData
    requires k < |t.dirData[t.nameToInode[parent]]|
    requires var e := t.dirData[t.nameToInode[parent]][k]; e.inum in t.inodeType && t.inodeType[e.inum] == Directory
    ensures !Deletable(t, parent, t.dirData[t.nameToInode[parent]][k].name)
  {
    var list := t.dirData[t.nameToInode[parent]];
    var name := list[k].name;
    if Deletable(t, parent, name) {
      EntryListed(t, parent, name);
    }
  }

  lemma RightCounts(t: Tables, parent: Path, name: string)
    requires Deletable(t, parent, name)
    ensures var inum := t.nameToInode[parent + [name]];
            RightSlots(t.par, inum, t.inodeBlocks[inum]) ==>
              && Deleted(t, parent, name).Some?
              && var t' := Deleted(t, parent, name).value;
                 && FreeCount(t'.data) == FreeCount(t.data) + |t.inodeBlocks[inum]|
                 && FreeCount(t'.inodes) == FreeCount(t.inodes) + 1
  {
    var inum := t.nameToInode[parent + [name]];
    if RightSlots(t.par, inum, t.inodeBlocks[inum]) {
      RightDeletes(t, parent, name);
    }
  }

  lemma DeletableParts(t: Tables, parent: Path, name: string)
    requires Deletable(t, parent, name)
    ensures t.par.Valid() && parent in t.nameToInode && t.nameToInode[parent] in t.dirData
    ensures parent + [name] in t.nameToInode && t.nameToInode[parent + [name]] in t.inodeBlocks
  {
  }

  lemma DeletedIs(t: Tables, parent: Path, name: string, inum: nat)
    requires t.par.Valid() && parent in t.nameToInode && t.nameToInode[parent] in t.dirData
    requires parent + [name] in t.nameToInode && t.nameToInode[parent + [name]] == inum && inum in t.inodeBlocks
    ensures var data' := Cleared(t.data, FreedSlots(t.par, t.inodeBlocks[inum]));
            var inodes' := Cleared(t.inodes, [FreedSlot(t.par, inum)]);
            var dir := t.nameToInode[parent];
            Deleted(t, parent, name)
            == if data'.None? || inodes'.None? then None
               else Some(Tables(t.par, data'.value, inodes'.value,
                                t.dirData[dir := RemoveName(t.dirData[dir], name)], t.inodeType - {inum},
                                t.inodeBlocks[inum := []], t.nameToInode - {parent + [name]}))
  {
    hide Cleared, RemoveName;
  }

  // ----- clearing in a loop -----

  lemma ClearedPrefix(m: Bitmap, par: Params, blocks: seq<nat>, k: nat)
    requires par.Valid() && k <= |blocks|
    ensures FreedSlots(par, blocks[..k]) == FreedSlots(par, blocks)[..k]
  {
  }

  lemma ClearedNext(m: Bitmap, par: Params, blocks: seq<nat>, k: nat)
    requires par.Valid() && k < |blocks| && Cleared(m, FreedSlots(par, blocks[..k])).Some?
    ensures var m', slot := Cleared(m, FreedSlots(par, blocks[..k])).value, FreedSlot(par, blocks[k]);
            Cleared(m, FreedSlots(par, blocks[..k + 1]))
            == if InRange(m', slot) then Some(m'[slot.0 := m'[slot.0][slot.1 := None]]) else None
  {
    var slots := FreedSlots(par, blocks[..k + 1]);
    assert slots[..k] == FreedSlots(par, blocks[..k]);
  }

  lemma {:induction false} StaysNone(m: Bitmap, par: Params, blocks: seq<nat>, k: nat)
    requires par.Valid() && k <= |blocks| && Cleared(m, FreedSlots(par, blocks[..k])).None?
    ensures Cleared(m, FreedSlots(par, blocks)).None?
    decreases |blocks|
  {
    if k == |blocks| {
      assert blocks[..k] == blocks;
    } else {
      var front := blocks[..|blocks| - 1];
      assert front[..k] == blocks[..k];
      StaysNone(m, par, front, k);
      assert FreedSlots(par, blocks)[..|blocks| - 1] == FreedSlots(par, front);
    }
  }

  lemma ClearedOne(m: Bitmap, g: nat, i: nat)
    ensures Cleared(m, [(g, i)]) == if InRange(m, (g, i)) then Some(m[g := m[g][i := None]]) else None
  {
    assert [(g, i)][..0] == [];
  }
}
