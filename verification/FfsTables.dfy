/** The fast file system's tables together, and what creating a file or directory does to them. */
module FfsTables {
  import opened Arithmetic
  import opened Directories
  import opened Ffs
  import opened Options
  import opened Sequences

  /** A path by its components; the root is empty. */
  type Path = seq<string>

  datatype Kind = Regular | Directory

  datatype Params = Params(
    numGroups: nat, blocksPerGroup: nat, inodesPerGroup: nat, largeFile: int, policy: nat,
    spreadInodes: bool, spreadData: bool)
  {
    predicate Valid() {
      numGroups >= 1 && blocksPerGroup >= 1 && inodesPerGroup >= 1 && policy >= 1
    }
  }

  datatype Tables = Tables(
    par: Params, data: Bitmap, inodes: Bitmap, dirData: map<nat, seq<Entry>>, inodeType: map<nat, Kind>,
    inodeBlocks: map<nat, seq<nat>>, nameToInode: map<Path, nat>)
  {
    predicate Shapes() {
      && par.Valid()
      && Shaped(data, par.numGroups, par.blocksPerGroup) && Shaped(inodes, par.numGroups, par.inodesPerGroup)
    }
  }

  /** The bitmap gives global number n to the inode. */
  predicate Owns(m: Bitmap, width: nat, n: nat, inum: nat) {
    width > 0 && n / width < |m| && n % width < |m[n / width]| && m[n / width][n % width] == Some(inum)
  }

  // ----- the invariant -----

  ghost predicate NamesOk(t: Tables) {
    && [] in t.nameToInode
    && (forall p :: p in t.nameToInode ==>
          var i := t.nameToInode[p];
          Owns(t.inodes, t.par.inodesPerGroup, i, i) && i in t.inodeType && i in t.inodeBlocks)
    && (forall p, q :: p in t.nameToInode && q in t.nameToInode && t.nameToInode[p] == t.nameToInode[q] ==> p == q)
  }

  /** The root is inode 0, and exactly the directories have entries. */
  ghost predicate KindsOk(t: Tables) {
    && [] in t.nameToInode && t.nameToInode[[]] == 0 && 0 in t.dirData
    && (forall p :: p in t.nameToInode && t.nameToInode[p] in t.inodeType ==>
          (t.inodeType[t.nameToInode[p]] == Directory <==> t.nameToInode[p] in t.dirData))
  }

  /** The path is an entry of its parent, which is a directory. */
  predicate Entered(t: Tables, p: Path)
    requires p in t.nameToInode
  {
    && p != [] && p[..|p| - 1] in t.nameToInode
    && t.nameToInode[p[..|p| - 1]] in t.dirData
    && Entry(p[|p| - 1], t.nameToInode[p]) in t.dirData[t.nameToInode[p[..|p| - 1]]]
  }

  ghost predicate TreeOk(t: Tables) {
    forall p {:trigger Entered(t, p)} :: p in t.nameToInode && p != [] ==> Entered(t, p)
  }

  ghost predicate BlocksOk(t: Tables) {
    forall p, b :: p in t.nameToInode && t.nameToInode[p] in t.inodeBlocks && b in t.inodeBlocks[t.nameToInode[p]] ==>
      Owns(t.data, t.par.blocksPerGroup, b, t.nameToInode[p])
  }

  ghost predicate BlocksOnce(t: Tables) {
    forall p :: p in t.nameToInode && t.nameToInode[p] in t.inodeBlocks ==> Distinct(t.inodeBlocks[t.nameToInode[p]])
  }

  ghost predicate OwnedBy(t: Tables, slot: Slot, inum: nat, p: Path) {
    && p in t.nameToInode && t.nameToInode[p] == inum && inum in t.inodeBlocks
    && GlobalNumber(slot, t.par.blocksPerGroup) in t.inodeBlocks[inum]
  }

  /** No block is used by nothing. */
  ghost predicate NoLeaks(t: Tables)
    requires t.Shapes()
  {
    forall g, i :: 0 <= g < |t.data| && 0 <= i < |t.data[g]| && t.data[g][i].Some? ==>
      exists p :: OwnedBy(t, (g, i), t.data[g][i].value, p)
  }

  predicate IsDot(name: string) {
    name == "." || name == ".."
  }

  /** The entry of the directory at p leads to a path of the table. */
  predicate Leads(t: Tables, p: Path, e: Entry) {
    p + [e.name] in t.nameToInode && t.nameToInode[p + [e.name]] == e.inum
  }

  predicate EntryLeads(t: Tables, p: Path, e: Entry) {
    if IsDot(e.name) then e.inum == 0 else Leads(t, p, e)
  }

  /** Every directory entry but the dots is in the table, under the inode it names; the dots name the root. */
  ghost predicate EntriesOk(t: Tables) {
    forall p, e {:trigger EntryLeads(t, p, e)} ::
      p in t.nameToInode && t.nameToInode[p] in t.dirData && e in t.dirData[t.nameToInode[p]] ==> EntryLeads(t, p, e)
  }

  /** The names in a directory differ, and the dots are among them. */
  ghost predicate DirectoryOk(entries: seq<Entry>) {
    DistinctNames(entries) && HasName(entries, ".") && HasName(entries, "..")
  }

  ghost predicate DirsOk(t: Tables) {
    forall d :: d in t.dirData ==> DirectoryOk(t.dirData[d])
  }

  ghost predicate HasPath(t: Tables, inum: nat) {
    exists p :: p in t.nameToInode && t.nameToInode[p] == inum
  }

  /** No inode is used by nothing, and only inodes in use have a directory. */
  ghost predicate NoLostInodes(t: Tables)
    requires t.Shapes()
  {
    && (forall g, i :: 0 <= g < |t.inodes| && 0 <= i < |t.inodes[g]| && t.inodes[g][i].Some? ==>
          HasPath(t, GlobalNumber((g, i), t.par.inodesPerGroup)))
    && (forall d :: d in t.dirData ==> HasPath(t, d))
  }

  ghost predicate Ok(t: Tables) {
    && t.Shapes() && NamesOk(t) && KindsOk(t) && TreeOk(t) && EntriesOk(t) && DirsOk(t)
    && BlocksOk(t) && BlocksOnce(t) && NoLeaks(t) && NoLostInodes(t)
  }

  // ----- creating -----

  function GlobalNumber(slot: Slot, width: nat): nat {
    slot.1 + slot.0 * width
  }

  function GlobalNumbers(slots: seq<Slot>, width: nat): (r: seq<nat>)
    ensures |r| == |slots|
    ensures forall k :: 0 <= k < |slots| ==> r[k] == GlobalNumber(slots[k], width)
  {
    seq(|slots|, k requires 0 <= k < |slots| => GlobalNumber(slots[k], width))
  }

  /** The new inode at its slot, its directory entry, its blocks and its name. */
  function Created(t: Tables, parent: Path, name: string, kind: Kind, at: Slot, slots: seq<Slot>, data': Bitmap): Tables
    requires parent in t.nameToInode && t.nameToInode[parent] in t.dirData
    requires at.0 < |t.inodes| && at.1 < |t.inodes[at.0]|
  {
    var inum := GlobalNumber(at, t.par.inodesPerGroup);
    var dir := t.nameToInode[parent];
    var entered := t.dirData[dir := t.dirData[dir] + [Entry(name, inum)]];
    t.(data := data',
       inodes := Marked(t.inodes, at.0, at.1, inum),
       dirData := if kind == Directory then entered[inum := [Entry(".", 0), Entry("..", 0)]] else entered,
       inodeType := t.inodeType[inum := kind],
       inodeBlocks := t.inodeBlocks[inum := GlobalNumbers(slots, t.par.blocksPerGroup)],
       nameToInode := t.nameToInode[parent + [name] := inum])
  }

  lemma NumberDivides(slot: Slot, width: nat)
    requires slot.1 < width
    ensures GlobalNumber(slot, width) / width == slot.0 && GlobalNumber(slot, width) % width == slot.1
  {
    DivModUnique(GlobalNumber(slot, width), slot.0, slot.1, width);
  }

  lemma OwnsSlot(m: Bitmap, width: nat, slot: Slot, inum: nat)
    requires Shaped(m, |m|, width) && slot.0 < |m| && slot.1 < width
    ensures Owns(m, width, GlobalNumber(slot, width), inum) <==> m[slot.0][slot.1] == Some(inum)
  {
    NumberDivides(slot, width);
  }

  /** What a creation may use: a free inode, and blocks that were free. */
  ghost predicate Creatable(t: Tables, parent: Path, name: string, at: Slot, slots: seq<Slot>, data': Bitmap) {
    && Ok(t)
    && parent in t.nameToInode && t.nameToInode[parent] in t.dirData
    && !HasName(t.dirData[t.nameToInode[parent]], name)
    && at.0 < |t.inodes| && at.1 < |t.inodes[at.0]| && t.inodes[at.0][at.1].None?
    && Taken(t.data, data', GlobalNumber(at, t.par.inodesPerGroup), slots)
  }

  /** A free inode is nobody's, and a name that its directory does not have is nowhere in the table. */
  lemma NewInode(t: Tables, parent: Path, name: string, at: Slot, slots: seq<Slot>, data': Bitmap)
    requires Creatable(t, parent, name, at, slots, data')
    ensures parent + [name] !in t.nameToInode
    ensures forall p :: p in t.nameToInode ==> t.nameToInode[p] != GlobalNumber(at, t.par.inodesPerGroup)
  {
    var path, inum := parent + [name], GlobalNumber(at, t.par.inodesPerGroup);
    OwnsSlot(t.inodes, t.par.inodesPerGroup, at, inum);
    hide BlocksOk, NoLeaks, EntriesOk, NoLostInodes, Taken, GlobalNumber, Owns, KindsOk, DirsOk, BlocksOnce;
    assert path[..|path| - 1] == parent && path[|path| - 1] == name;
    assert path in t.nameToInode ==> Entered(t, path);
  }

  lemma MarkedKeepsOwner(m: Bitmap, g: nat, i: nat, inum: nat, width: nat, n: nat, owner: nat)
    requires g < |m| && i < |m[g]| && m[g][i].None? && Owns(m, width, n, owner)
    ensures Owns(Marked(m, g, i, inum), width, n, owner)
  {
  }

  lemma CreatedNames(t: Tables, parent: Path, name: string, kind: Kind, at: Slot, slots: seq<Slot>, data': Bitmap)
    requires Creatable(t, parent, name, at, slots, data')
    ensures NamesOk(Created(t, parent, name, kind, at, slots, data'))
  {
    NewInode(t, parent, name, at, slots, data');
    hide BlocksOk, NoLeaks, EntriesOk, NoLostInodes, Taken, HasName, TreeOk, GlobalNumber, Owns, KindsOk, DirsOk,
        BlocksOnce;
    var t', path := Created(t, parent, name, kind, at, slots, data'), parent + [name];
    var inum := GlobalNumber(at, t.par.inodesPerGroup);
    forall p | p in t'.nameToInode
      ensures Owns(t'.inodes, t.par.inodesPerGroup, t'.nameToInode[p], t'.nameToInode[p])
    {
      if p == path {
        OwnsSlot(t'.inodes, t.par.inodesPerGroup, at, inum);
      } else {
        MarkedKeepsOwner(t.inodes, at.0, at.1, inum, t.par.inodesPerGroup, t.nameToInode[p], t.nameToInode[p]);
      }
    }
  }

  /** How names and directories change. */
  lemma CreatedEntered(t: Tables, parent: Path, name: string, kind: Kind, at: Slot, slots: seq<Slot>, data': Bitmap)
    requires Creatable(t, parent, name, at, slots, data')
    ensures var t', inum := Created(t, parent, name, kind, at, slots, data'), GlobalNumber(at, t.par.inodesPerGroup);
            && t'.nameToInode == t.nameToInode[parent + [name] := inum] && parent + [name] !in t.nameToInode
            && (inum in t'.dirData ==> t'.dirData[inum] == [Entry(".", 0), Entry("..", 0)])
            && (forall p :: p in t.nameToInode ==> (t.nameToInode[p] in t'.dirData <==> t.nameToInode[p] in t.dirData))
            && (forall p :: p in t.nameToInode && t.nameToInode[p] in t.dirData ==>
                  t'.dirData[t.nameToInode[p]]
                  == t.dirData[t.nameToInode[p]] + (if p == parent then [Entry(name, inum)] else []))
  {
    NewInode(t, parent, name, at, slots, data');
    NewDirectory(t, at);
    hide BlocksOk, NoLeaks, EntriesOk, NoLostInodes, TreeOk, Taken, HasName, Owns, GlobalNumber, KindsOk, DirsOk,
        BlocksOnce;
  }

  lemma CreatedTree(t: Tables, parent: Path, name: string, kind: Kind, at: Slot, slots: seq<Slot>, data': Bitmap)
    requires Creatable(t, parent, name, at, slots, data')
    ensures TreeOk(Created(t, parent, name, kind, at, slots, data'))
  {
    CreatedEntered(t, parent, name, kind, at, slots, data');
    var t', inum := Created(t, parent, name, kind, at, slots, data'), GlobalNumber(at, t.par.inodesPerGroup);
    forall p | p in t'.nameToInode && p != []
      ensures Entered(t', p)
    {
      hide *;
      if p == parent + [name] {
        NewEntered(t', parent, name, inum);
      } else {
        EnteredAt(t, p);
        EnteredMore(t, t', parent, name, inum, p);
      }
    }
  }

  lemma EnteredAt(t: Tables, p: Path)
    requires TreeOk(t) && p in t.nameToInode && p != []
    ensures Entered(t, p)
  {
  }

  lemma NewEntered(t: Tables, parent: Path, name: string, inum: nat)
    requires parent + [name] in t.nameToInode && t.nameToInode[parent + [name]] == inum
    requires parent in t.nameToInode && t.nameToInode[parent] in t.dirData
    requires Entry(name, inum) in t.dirData[t.nameToInode[parent]]
    ensures Entered(t, parent + [name])
  {
    var path := parent + [name];
    assert path[..|path| - 1] == parent && path[|path| - 1] == name;
  }

  lemma EnteredMore(t: Tables, t': Tables, parent: Path, name: string, inum: nat, p: Path)
    requires p in t.nameToInode && Entered(t, p) && p != parent + [name]
    requires t'.nameToInode == t.nameToInode[parent + [name] := inum] && parent + [name] !in t.nameToInode
    requires forall q :: q in t.nameToInode ==> (t.nameToInode[q] in t'.dirData <==> t.nameToInode[q] in t.dirData)
    requires forall q :: q in t.nameToInode && t.nameToInode[q] in t.dirData ==>
               t'.dirData[t.nameToInode[q]]
               == t.dirData[t.nameToInode[q]] + (if q == parent then [Entry(name, inum)] else [])
    ensures Entered(t', p)
  {
    assert p[..|p| - 1] in t.nameToInode;
  }

  lemma CreatedEntries(t: Tables, parent: Path, name: string, kind: Kind, at: Slot, slots: seq<Slot>, data': Bitmap)
    requires Creatable(t, parent, name, at, slots, data')
    ensures EntriesOk(Created(t, parent, name, kind, at, slots, data'))
  {
    CreatedEntered(t, parent, name, kind, at, slots, data');
    DotsTaken(t, parent, name);
    var t', inum := Created(t, parent, name, kind, at, slots, data'), GlobalNumber(at, t.par.inodesPerGroup);
    forall p, e | p in t'.nameToInode && t'.nameToInode[p] in t'.dirData && e in t'.dirData[t'.nameToInode[p]]
      ensures EntryLeads(t', p, e)
    {
      hide *;
      if p == parent + [name] {
        DotLeads(t', p, e);
      } else if p == parent && e == Entry(name, inum) {
        NewLeads(t', parent, name, inum);
      } else {
        StillLeads(t, t', parent + [name], inum, p, e);
      }
    }
  }

  lemma DotLeads(t: Tables, p: Path, e: Entry)
    requires e in [Entry(".", 0), Entry("..", 0)]
    ensures EntryLeads(t, p, e)
  {
  }

  lemma NewLeads(t: Tables, parent: Path, name: string, inum: nat)
    requires !IsDot(name) && parent + [name] in t.nameToInode && t.nameToInode[parent + [name]] == inum
    ensures EntryLeads(t, parent, Entry(name, inum))
  {
  }

  lemma StillLeads(t: Tables, t': Tables, path: Path, inum: nat, p: Path, e: Entry)
    requires EntriesOk(t) && p in t.nameToInode && t.nameToInode[p] in t.dirData && e in t.dirData[t.nameToInode[p]]
    requires path !in t.nameToInode && t'.nameToInode == t.nameToInode[path := inum]
    ensures EntryLeads(t', p, e)
  {
    assert EntryLeads(t, p, e);
  }

  lemma CreatedDirs(t: Tables, parent: Path, name: string, kind: Kind, at: Slot, slots: seq<Slot>, data': Bitmap)
    requires Creatable(t, parent, name, at, slots, data')
    ensures DirsOk(Created(t, parent, name, kind, at, slots, data'))
  {
    hide BlocksOk, NoLeaks, TreeOk, EntriesOk, NoLostInodes, Taken, HasName, Owns, GlobalNumber, DirectoryOk, KindsOk,
        BlocksOnce;
    EntryAdded(t.dirData[t.nameToInode[parent]], Entry(name, GlobalNumber(at, t.par.inodesPerGroup)));
    DotEntries();
  }

  lemma CreatedKinds(t: Tables, parent: Path, name: string, kind: Kind, at: Slot, slots: seq<Slot>, data': Bitmap)
    requires Creatable(t, parent, name, at, slots, data')
    ensures KindsOk(Created(t, parent, name, kind, at, slots, data'))
  {
    NewInode(t, parent, name, at, slots, data');
    NewDirectory(t, at);
    hide BlocksOk, NoLeaks, TreeOk, EntriesOk, NoLostInodes, Taken, HasName, Owns, GlobalNumber, DirsOk, BlocksOnce;
  }

  lemma CreatedOnce(t: Tables, parent: Path, name: string, kind: Kind, at: Slot, slots: seq<Slot>, data': Bitmap)
    requires Creatable(t, parent, name, at, slots, data')
    ensures BlocksOnce(Created(t, parent, name, kind, at, slots, data'))
  {
    NewInode(t, parent, name, at, slots, data');
    NumbersDistinct(t.data, data', GlobalNumber(at, t.par.inodesPerGroup), slots, t.par.blocksPerGroup);
    hide BlocksOk, NoLeaks, TreeOk, EntriesOk, NoLostInodes, Taken, HasName, Owns, GlobalNumber, GlobalNumbers, DirsOk,
        KindsOk, Distinct;
  }

  lemma NumbersDistinct(m: Bitmap, m': Bitmap, inum: nat, slots: seq<Slot>, width: nat)
    requires Shaped(m, |m|, width) && Taken(m, m', inum, slots)
    ensures Distinct(GlobalNumbers(slots, width))
  {
    var numbers := GlobalNumbers(slots, width);
    forall i, j | 0 <= i < j < |numbers| ensures numbers[i] != numbers[j] {
      assert slots[i] in slots && slots[j] in slots;
      NumberDivides(slots[i], width);
      NumberDivides(slots[j], width);
    }
  }

  lemma DotsTaken(t: Tables, p: Path, name: string)
    requires DirsOk(t) && p in t.nameToInode && t.nameToInode[p] in t.dirData
    requires !HasName(t.dirData[t.nameToInode[p]], name)
    ensures !IsDot(name)
  {
  }

  lemma EntryAdded(entries: seq<Entry>, e: Entry)
    requires DirectoryOk(entries) && !HasName(entries, e.name)
    ensures DirectoryOk(entries + [e])
  {
    forall name | HasName(entries, name) ensures HasName(entries + [e], name) {
      var k :| 0 <= k < |entries| && entries[k].name == name;
      assert (entries + [e])[k].name == name;
    }
  }

  lemma DotEntries()
    ensures DirectoryOk([Entry(".", 0), Entry("..", 0)])
  {
    var dots := [Entry(".", 0), Entry("..", 0)];
    assert dots[0].name == "." && dots[1].name == ".." && |dots[0].name| != |dots[1].name|;
  }

  /** A free inode has no directory. */
  lemma NewDirectory(t: Tables, at: Slot)
    requires Ok(t) && at.0 < |t.inodes| && at.1 < |t.inodes[at.0]| && t.inodes[at.0][at.1].None?
    ensures GlobalNumber(at, t.par.inodesPerGroup) !in t.dirData
  {
    var inum := GlobalNumber(at, t.par.inodesPerGroup);
    OwnsSlot(t.inodes, t.par.inodesPerGroup, at, inum);
    hide BlocksOk, NoLeaks, TreeOk, EntriesOk, Owns, GlobalNumber, KindsOk, DirsOk, BlocksOnce;
  }

  lemma CreatedInodes(t: Tables, parent: Path, name: string, kind: Kind, at: Slot, slots: seq<Slot>, data': Bitmap)
    requires Creatable(t, parent, name, at, slots, data')
    requires Created(t, parent, name, kind, at, slots, data').Shapes()
    ensures NoLostInodes(Created(t, parent, name, kind, at, slots, data'))
  {
    NewInode(t, parent, name, at, slots, data');
    hide BlocksOk, NoLeaks, TreeOk, EntriesOk, Taken, HasName, Owns, GlobalNumber, KindsOk, DirsOk, BlocksOnce;
    var t', inum := Created(t, parent, name, kind, at, slots, data'), GlobalNumber(at, t.par.inodesPerGroup);
    assert t'.nameToInode[parent + [name]] == inum;
    forall i | HasPath(t, i) ensures HasPath(t', i) {
      var p :| p in t.nameToInode && t.nameToInode[p] == i;
      assert p in t'.nameToInode && t'.nameToInode[p] == i;
    }
    forall g: nat, i: nat | g < |t'.inodes| && i < |t'.inodes[g]| && t'.inodes[g][i].Some?
      ensures HasPath(t', GlobalNumber((g, i), t.par.inodesPerGroup))
    {
      if (g, i) != at {
        assert t.inodes[g][i].Some?;
      }
    }
  }

  lemma TakenKeepsOwner(m: Bitmap, m': Bitmap, width: nat, inum: nat, slots: seq<Slot>, n: nat, owner: nat)
    requires Taken(m, m', inum, slots) && Owns(m, width, n, owner)
    ensures Owns(m', width, n, owner)
  {
  }

  lemma TakenOwns(m: Bitmap, m': Bitmap, width: nat, inum: nat, slots: seq<Slot>, n: nat)
    requires Shaped(m, |m|, width) && Taken(m, m', inum, slots) && n in GlobalNumbers(slots, width)
    ensures Owns(m', width, n, inum)
  {
    var k :| 0 <= k < |slots| && GlobalNumbers(slots, width)[k] == n;
    assert slots[k] in slots;
    OwnsSlot(m', width, slots[k], inum);
  }

  lemma CreatedBlocks(t: Tables, parent: Path, name: string, kind: Kind, at: Slot, slots: seq<Slot>, data': Bitmap)
    requires Creatable(t, parent, name, at, slots, data')
    ensures BlocksOk(Created(t, parent, name, kind, at, slots, data'))
  {
    NewInode(t, parent, name, at, slots, data');
    hide NoLeaks, EntriesOk, NoLostInodes, HasName, TreeOk, Taken, GlobalNumbers, GlobalNumber, Owns, KindsOk,
        DirsOk, BlocksOnce;
    var t' := Created(t, parent, name, kind, at, slots, data');
    var width, inum := t.par.blocksPerGroup, GlobalNumber(at, t.par.inodesPerGroup);
    forall p, b | p in t'.nameToInode && t'.nameToInode[p] in t'.inodeBlocks && b in t'.inodeBlocks[t'.nameToInode[p]]
      ensures Owns(t'.data, width, b, t'.nameToInode[p])
    {
      if p == parent + [name] {
        TakenOwns(t.data, data', width, inum, slots, b);
      } else {
        assert Owns(t.data, width, b, t.nameToInode[p]);
        TakenKeepsOwner(t.data, data', width, inum, slots, b, t.nameToInode[p]);
      }
    }
  }

  lemma CreatedNoLeaks(t: Tables, parent: Path, name: string, kind: Kind, at: Slot, slots: seq<Slot>, data': Bitmap)
    requires Creatable(t, parent, name, at, slots, data')
    requires Created(t, parent, name, kind, at, slots, data').Shapes()
    ensures NoLeaks(Created(t, parent, name, kind, at, slots, data'))
  {
    NewInode(t, parent, name, at, slots, data');
    hide HasName, TreeOk, BlocksOk, EntriesOk, NoLostInodes, Owns, GlobalNumber, KindsOk, DirsOk, BlocksOnce;
    var t' := Created(t, parent, name, kind, at, slots, data');
    var width, inum := t.par.blocksPerGroup, GlobalNumber(at, t.par.inodesPerGroup);
    forall g: nat, i: nat | g < |data'| && i < |data'[g]| && data'[g][i].Some?
      ensures exists p :: OwnedBy(t', (g, i), data'[g][i].value, p)
    {
      if (g, i) in slots {
        var k :| 0 <= k < |slots| && slots[k] == (g, i);
        assert GlobalNumbers(slots, width)[k] == GlobalNumber((g, i), width);
        assert OwnedBy(t', (g, i), inum, parent + [name]);
      } else {
        assert t.data[g][i] == data'[g][i];
        var p :| OwnedBy(t, (g, i), t.data[g][i].value, p);
        assert OwnedBy(t', (g, i), data'[g][i].value, p);
      }
    }
  }

  lemma CreatedShapes(t: Tables, parent: Path, name: string, kind: Kind, at: Slot, slots: seq<Slot>, data': Bitmap)
    requires Creatable(t, parent, name, at, slots, data')
    ensures Created(t, parent, name, kind, at, slots, data').Shapes()
  {
    hide NoLeaks, HasName, TreeOk, BlocksOk, NamesOk, EntriesOk, NoLostInodes, GlobalNumber, KindsOk, DirsOk,
        BlocksOnce;
  }

  /** A creation keeps the tables in order. */
  lemma CreatedOk(t: Tables, parent: Path, name: string, kind: Kind, at: Slot, slots: seq<Slot>, data': Bitmap)
    requires Creatable(t, parent, name, at, slots, data')
    ensures Ok(Created(t, parent, name, kind, at, slots, data'))
  {
    CreatedShapes(t, parent, name, kind, at, slots, data');
    CreatedNames(t, parent, name, kind, at, slots, data');
    CreatedTree(t, parent, name, kind, at, slots, data');
    CreatedBlocks(t, parent, name, kind, at, slots, data');
    CreatedNoLeaks(t, parent, name, kind, at, slots, data');
    CreatedEntries(t, parent, name, kind, at, slots, data');
    CreatedDirs(t, parent, name, kind, at, slots, data');
    CreatedKinds(t, parent, name, kind, at, slots, data');
    CreatedOnce(t, parent, name, kind, at, slots, data');
    CreatedInodes(t, parent, name, kind, at, slots, data');
    hide NoLeaks, HasName, TreeOk, BlocksOk, NamesOk, EntriesOk, NoLostInodes, Created, KindsOk, DirsOk, BlocksOnce;
  }

  // ----- what it means -----

  /** No block belongs to two files. */
  lemma BlocksNotShared(t: Tables, p: Path, q: Path, b: nat)
    requires Ok(t) && p in t.nameToInode && q in t.nameToInode
    requires b in t.inodeBlocks[t.nameToInode[p]] && b in t.inodeBlocks[t.nameToInode[q]]
    ensures p == q
  {
    hide NoLeaks, TreeOk, EntriesOk, NoLostInodes, HasName, KindsOk, DirsOk, BlocksOnce;
    assert Owns(t.data, t.par.blocksPerGroup, b, t.nameToInode[p]);
    assert Owns(t.data, t.par.blocksPerGroup, b, t.nameToInode[q]);
  }
}
