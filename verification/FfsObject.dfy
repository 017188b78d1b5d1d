/** The fast file system's allocator as an object that updates its bitmaps, directories and counts in place. */
module FfsObject {
  import opened Arithmetic
  import opened Directories
  import opened Ffs
  import opened FfsDelete
  import opened FfsPlaces
  import opened FfsTables
  import opened Options

  class GroupAllocator {
    const par: Params
    var data: Bitmap
    var inodes: Bitmap
    var totalDataFree: int
    var totalInodesFree: int
    var dirData: map<nat, seq<Entry>>
    var inodeType: map<nat, Kind>
    var inodeBlocks: map<nat, seq<nat>>
    var nameToInode: map<Path, nat>

    function View(): Tables
      reads this
    {
      Tables(par, data, inodes, dirData, inodeType, inodeBlocks, nameToInode)
    }

    predicate Shapes()
      reads this
    {
      && par.Valid()
      && Shaped(data, par.numGroups, par.blocksPerGroup) && Shaped(inodes, par.numGroups, par.inodesPerGroup)
    }

    /** The tables agree with each other, and the counts with the bitmaps. */
    ghost predicate Valid()
      reads this
    {
      Ok(View()) && totalDataFree == FreeCount(data) && totalInodesFree == FreeCount(inodes)
    }

    /** A file system that holds nothing but its root directory. */
    constructor (par: Params)
      requires par.Valid()
      ensures Valid() && this.par == par && View() == Formatted(par)
    {
      this.par := par;
      data := Marked(Empty(par.numGroups, par.blocksPerGroup), 0, 0, 0);
      inodes := Marked(Empty(par.numGroups, par.inodesPerGroup), 0, 0, 0);
      totalDataFree := par.blocksPerGroup * par.numGroups - 1;
      totalInodesFree := par.inodesPerGroup * par.numGroups - 1;
      dirData := map[0 := [Entry(".", 0), Entry("..", 0)]];
      inodeType := map[0 := Directory];
      inodeBlocks := map[0 := [0]];
      nameToInode := map[[] := 0];
      new;
      hide Ok, FreeCount, Marked, Empty;
      FormattedOk(par);
    }

    /** Exactly size free blocks go to the inode, whatever the bitmap, the chunk size and the large-file limit: those
    that the visits give. With chunks of one block, and no limit that a group could reach, they are the first free ones
    on the round from the target group. */
    method AllocateBlocks(target: nat, size: nat, inum: nat) returns (blocks: seq<Slot>, ghost visits: seq<seq<nat>>)
      requires Shapes() && target < par.numGroups
      requires 1 <= size <= FreeCount(data)
      modifies this`data
      ensures Shapes() && |blocks| == size && Taken(old(data), data, inum, blocks)
      ensures FreeCount(data) == FreeCount(old(data)) - size
      ensures Placed(old(data), data, target, size, inum, par.policy, par.largeFile, visits, blocks)
      ensures par.policy == 1 && (par.largeFile <= 0 || par.largeFile >= par.blocksPerGroup) ==>
                FirstFree(data, target, blocks)
    {
      hide FreeCount, FreeIn, Taken, FirstFree, Shaped, Visiting, Placed, Sweeping, GroupOf;
      var width, groups := par.blocksPerGroup, par.numGroups;
      var index: nat, inGroup, current: nat, chunk := 0, 0, target, par.policy;
      blocks := [];
      ghost var k: nat, clean := 0, false;
      ghost var plain := par.policy == 1 && (par.largeFile <= 0 || par.largeFile >= width);
      ghost var past, visit: seq<nat> := [], [];
      ShapedAt(data, groups, width, target);
      SweepStarts(data, width, target, inum, plain);
      VisitStarts(data, target, size, inum, par.policy, par.largeFile);
      GroupOfNext(target, 0, groups);
      while true
        invariant |data| == groups && |blocks| < size && chunk >= 1 && 0 <= inGroup <= index < width && k < groups
        invariant Sweeping(old(data), data, width, target, inum, (current, index), k, clean || plain, plain, blocks)
        invariant clean ==> chunk == 1 && inGroup == 0
        invariant par.policy == 1 ==> chunk == 1
        invariant current == GroupOf(target, |past|, groups) && chunk == ChunkOf(par.policy, |past|, groups)
        invariant |visit| == inGroup && (par.largeFile > 0 ==> inGroup < par.largeFile)
        invariant Visiting(old(data), target, size, inum, par.policy, par.largeFile, past, visit, data, blocks, index)
        decreases size - |blocks|, if clean then 0 else 1, groups - k, width - index
      {
        SweepFacts(old(data), data, width, target, inum, (current, index), k, clean || plain, plain, blocks);
        var free := RangeFree(data[current], index, size - |blocks|, chunk);
        assert free ==> data[current][index].None?;
        Looks(old(data), target, size, inum, par.policy, par.largeFile, past, visit, data, blocks, index);
        SweepSlot(old(data), data, width, target, inum, (current, index), k, clean || plain, plain, blocks, free);
        if free {
          data := data[current := data[current][index := Some(inum)]];
          inGroup := inGroup + 1;
          blocks := blocks + [(current, index)];
          clean, visit := false, visit + [index];
        }
        index := index + 1;
        VisitEnds(old(data), target, size, inum, par.policy, par.largeFile, past, visit, data, blocks, index);
        if |blocks| == size {
          break;
        }
        if index == width || (par.largeFile > 0 && inGroup == par.largeFile) {
          SweepGroup(old(data), data, width, target, inum, (current, index), k, clean || plain, plain, blocks);
          VisitLeaves(old(data), width, target, par.largeFile, par.policy, past, visit, index);
          past, visit := past + [visit], [];
          inGroup, index := 0, 0;
          current := (current + 1) % groups;
          k := k + 1;
          if current == target {
            chunk := 1;
            k, clean := 0, true;
          }
        }
      }
      visits := past + [visit];
      SweepEnds(old(data), data, width, target, inum, (current, index), k, clean || plain, plain, blocks);
    }

    /** The same loop asked for no blocks: it takes block after block, never has the none it looks for, and ends
    only at the assertion that the next block is free, which fails at a slot in use. */
    method AllocateNothing(target: nat, inum: nat) returns (failed: Slot)
      requires Shapes() && target < par.numGroups
      modifies this`data
      ensures Shapes() && failed.0 < |data| && failed.1 < |data[failed.0]| && data[failed.0][failed.1].Some?
    {
      hide FreeCount, Shaped;
      var width, groups := par.blocksPerGroup, par.numGroups;
      var taken, inGroup, chunk := 0, 0, par.policy;
      var current: nat, index: nat := target, 0;
      while true
        invariant Shapes() && current < groups && index < width && taken >= 0 && chunk >= 1
        decreases FreeCount(data)
      {
        ShapedAt(data, groups, width, current);
        var free := RangeFree(data[current], index, 0 - taken, chunk);
        assert free;
        if data[current][index].Some? {
          return (current, index);
        }
        FreeCountMarked(data, current, index, inum);
        ShapedMarked(data, groups, width, current, index, inum);
        data := data[current := data[current][index := Some(inum)]];
        inGroup, taken, index := inGroup + 1, taken + 1, index + 1;
        if index == width || (par.largeFile > 0 && inGroup == par.largeFile) {
          inGroup, index := 0, 0;
          current := (current + 1) % groups;
          if current == target {
            chunk := 1;
          }
        }
      }
    }

    // ----- choosing a group and an inode -----

    method FindFreeInodesNear(target: nat) returns (g: int)
      requires Shapes() && target < par.numGroups
      requires FreeIn(inodes[target]) == 0 && FreeCount(inodes) > 0
      ensures 0 <= g < par.numGroups && FreeIn(inodes[g]) > 0
      ensures FirstNear(inodes, target, g)
    {
      hide FreeIn, FreeCount, Shaped, NearAt, FirstNear, Grown, Shrunk;
      var groups := par.numGroups;
      RowsShaped(inodes, groups, par.inodesPerGroup);
      NearBegin(target, groups);
      var grower := (target + 1) % groups;
      var shrinker := (target - 1) % groups;
      for i := 0 to groups - 1
        invariant grower == Grown(target, i, groups) && shrinker == Shrunk(target, i, groups)
        invariant forall j :: 0 <= j < i ==> FreeIn(inodes[NearAt(target, j, groups)]) == 0
      {
        NearTurn(target, i, groups);
        var current := if i % 2 == 0 then grower else shrinker;
        if i % 2 == 0 {
          grower := (grower + 1) % groups;
        } else {
          shrinker := (shrinker - 1) % groups;
        }
        var free := GetFreeCount(inodes[current]);
        if free > 0 {
          FoundNear(inodes, target, i);
          return current;
        }
      }
      NearLeavesNone(inodes, target, groups);
      assert false;
      g := 1;
    }

    /** FFS puts a file beside its directory and a directory where most inodes are free. */
    method PickGroup(parent: nat, kind: Kind) returns (g: int)
      requires Shapes() && parent < par.numGroups * par.inodesPerGroup && FreeCount(inodes) > 0
      ensures 0 <= g < par.numGroups && FreeIn(inodes[g]) > 0
      ensures kind == Regular && !par.spreadInodes ==>
                var home := parent / par.inodesPerGroup;
                && home < par.numGroups
                && if FreeIn(inodes[home]) > 0 then g == home else FirstNear(inodes, home, g)
      ensures kind == Directory || par.spreadInodes ==>
                forall h :: 0 <= h < par.numGroups ==>
                  FreeIn(inodes[h]) <= FreeIn(inodes[g]) && (h < g ==> FreeIn(inodes[h]) < FreeIn(inodes[g]))
    {
      hide FreeIn, FreeCount, Shaped;
      RowsShaped(inodes, par.numGroups, par.inodesPerGroup);
      if kind == Regular && !par.spreadInodes {
        SlotOf(parent, par.numGroups, par.inodesPerGroup);
        g := parent / par.inodesPerGroup;
        var free := GetFreeCount(inodes[g]);
        if free == 0 {
          g := FindFreeInodesNear(g);
        }
      } else {
        g := FindMostFree(inodes);
        NoneFree(inodes);
        assert g != -1;
      }
    }

    // ----- creating -----

    /** What the program checks before it creates anything. */
    predicate CanCreate(parent: Path, name: string, size: nat)
      reads this
    {
      && totalInodesFree != 0 && totalDataFree >= size >= 1 && parent in nameToInode
      && nameToInode[parent] in dirData && !HasName(dirData[nameToInode[parent]], name)
    }

    /** Where the program stops with an error: the parent is a file, or a name that is free gets no blocks at all. */
    predicate Stops(parent: Path, name: string, size: nat)
      reads this
    {
      && totalInodesFree != 0 && totalDataFree >= size && parent in nameToInode
      && (nameToInode[parent] in dirData ==> !HasName(dirData[nameToInode[parent]], name) && size == 0)
    }

    /** Enters the new inode, with its blocks already taken, into all the tables. */
    method Enter(parent: Path, name: string, size: nat, kind: Kind, group: nat, index: nat, blocks: seq<Slot>,
          ghost t: Tables)
      requires View() == t.(data := data) && Creatable(t, parent, name, (group, index), blocks, data)
      modifies this`inodes, this`dirData, this`inodeType, this`inodeBlocks, this`nameToInode, this`totalInodesFree,
          this`totalDataFree
      ensures View() == Created(t, parent, name, kind, (group, index), blocks, data)
      ensures totalDataFree == old(totalDataFree) - size
      ensures totalInodesFree - FreeCount(inodes) == old(totalInodesFree - FreeCount(inodes))
    {
      hide Ok, FreeCount, Taken, HasName, Created, GlobalNumbers;
      var parentInode := nameToInode[parent];
      var inum := index + group * par.inodesPerGroup;
      FreeCountMarked(inodes, group, index, inum);
      inodes := inodes[group := inodes[group][index := Some(inum)]];
      dirData := dirData[parentInode := dirData[parentInode] + [Entry(name, inum)]];
      inodeType := inodeType[inum := kind];
      var numbers := [];
      for k := 0 to |blocks|
        invariant |numbers| == k && forall j :: 0 <= j < k ==> numbers[j] == GlobalNumber(blocks[j], par.blocksPerGroup)
      {
        var (g, i) := blocks[k];
        numbers := numbers + [i + g * par.blocksPerGroup];
      }
      inodeBlocks := inodeBlocks[inum := numbers];
      NewInode(t, parent, name, (group, index), blocks, data);
      assert parent + [name] !in nameToInode;
      nameToInode := nameToInode[parent + [name] := inum];
      if kind == Directory {
        dirData := dirData[inum := [Entry(".", 0), Entry("..", 0)]];
      }
      totalInodesFree := totalInodesFree - 1;
      totalDataFree := totalDataFree - size;
      IsCreated(t, View(), parent, name, kind, (group, index), blocks, numbers);
    }

    /** Creates a file or a directory of the given size. It fails, and then changes nothing, exactly when inodes or
    blocks run out, the parent is unknown or the name is taken. */
    method DoCreate(parent: Path, name: string, size: nat, kind: Kind) returns (rc: int, stops: bool, ghost at: Slot,
          ghost slots: seq<Slot>, ghost target: nat, ghost visits: seq<seq<nat>>)
      requires Valid()
      modifies this
      ensures stops <==> old(Stops(parent, name, size))
      ensures !stops ==> Valid() && rc == if old(CanCreate(parent, name, size)) then 0 else -1
      ensures !stops && rc == -1 ==> View() == old(View())
      ensures !stops && rc == 0 ==>
                && Creatable(old(View()), parent, name, at, slots, data)
                && View() == Created(old(View()), parent, name, kind, at, slots, data)
                && |slots| == size && Chosen(old(View()), parent, kind, at, target)
                && |old(data)| > 0
                && (var inum := GlobalNumber(at, par.inodesPerGroup);
                    Placed(old(data), data, target, size, inum, par.policy, par.largeFile, visits, slots))
    {
      hide Ok, Shaped, FreeCount, FreeIn, Taken, HasName, Created, GlobalNumber, Placed;
      rc, stops, at, slots, target, visits := -1, false, (0, 0), [], 0, [];
      if totalInodesFree == 0 || totalDataFree < size {
        return;
      }
      if parent !in nameToInode {
        return;
      }
      var parentInode := nameToInode[parent];
      if parentInode !in dirData {
        stops := true;
        return;
      }
      var present := DirHasName(dirData[parentInode], name);
      if present {
        return;
      }
      ghost var t := View();
      InodeInRange(t, parent);
      OkShapes(t);
      RowsShaped(inodes, par.numGroups, par.inodesPerGroup);
      RowsShaped(data, par.numGroups, par.blocksPerGroup);
      var group := PickGroup(parentInode, kind);
      var index := FindFreeInode(inodes[group]);
      at := (group, index);
      assert index >= 0;
      var inum := index + group * par.inodesPerGroup;
      assert inum == GlobalNumber(at, par.inodesPerGroup) by {
        GlobalNumberIs(group, index, par.inodesPerGroup);
      }
      var first := group;
      if par.spreadData {
        first := FindMostFree(data);
        NoneFree(data);
      }
      if size == 0 {
        stops := true;
        if first >= 0 {
          var failed := AllocateNothing(first, inum);
        }
        return;
      }
      target := first;
      var blocks, given := AllocateBlocks(first, size, inum);
      slots, visits := blocks, given;
      Enter(parent, name, size, kind, group, index, blocks, t);
      CreatedOk(t, parent, name, kind, at, slots, data);
      rc := 0;
    }

    // ----- deleting -----

    /** Takes a file out of its directory and frees the slots that the program computes. It fails, and then changes
    nothing, if the directory or the name is unknown or the name is a directory's. It stops with an error if the
    parent is a file or a slot is out of range. Everything is in order afterwards exactly if the slots are right. */
    method DoDelete(parent: Path, name: string) returns (rc: int, stops: bool)
      requires Valid()
      modifies this
      ensures var t := old(View());
              if parent !in t.nameToInode then !stops && rc == -1
              else if t.nameToInode[parent] !in t.dirData then stops
              else if !Deletable(t, parent, name) then !stops && rc == -1
              else if Deleted(t, parent, name).None? then stops
              else !stops && rc == 0 && View() == Deleted(t, parent, name).value
      ensures !stops && rc == -1 ==> Valid() && View() == old(View())
      ensures !stops && rc == 0 ==>
                var inum := old(nameToInode)[parent + [name]];
                Valid() <==> RightSlots(par, inum, old(inodeBlocks)[inum])
    {
      rc, stops := -1, false;
      if parent !in nameToInode {
        return;
      }
      var dir := nameToInode[parent];
      if dir !in dirData {
        stops := true;
        return;
      }
      ghost var t := View();
      hide FreeCount, Ok, Deletable, Deleted, RightSlots;
      var index := FindEntry(dirData[dir], name);
      if index == -1 {
        NotDeletable(t, parent, name);
        return;
      }
      EntryFound(t, parent, index);
      var inum: nat := dirData[dir][index].inum;
      if inodeType[inum] == Directory {
        DirectoryNotDeletable(t, parent, index);
        return;
      }
      stops := DeleteFile(parent, name, inum);
      if !stops {
        rc := 0;
      }
    }

    /** The deletion of a file that was found. */
    method DeleteFile(parent: Path, name: string, inum: nat) returns (stops: bool)
      requires Valid() && Deletable(View(), parent, name) && nameToInode[parent + [name]] == inum
      modifies this
      ensures stops <==> Deleted(old(View()), parent, name).None?
      ensures !stops ==> View() == Deleted(old(View()), parent, name).value
      ensures !stops ==> (Valid() <==> RightSlots(par, inum, old(inodeBlocks)[inum]))
    {
      ghost var t := View();
      hide FreeCount, Ok, Deletable, Deleted, RightSlots;
      DeletableParts(t, parent, name);
      DeleteKeepsOkIff(t, parent, name);
      RightCounts(t, parent, name);
      stops := Unlink(parent, name, inum);
    }

    /** The entry goes, the slots computed are freed, and the file with them. */
    method Unlink(parent: Path, name: string, inum: nat) returns (stops: bool)
      requires par.Valid() && parent in nameToInode && nameToInode[parent] in dirData
      requires parent + [name] in nameToInode && nameToInode[parent + [name]] == inum && inum in inodeBlocks
      modifies this
      ensures stops <==> Deleted(old(View()), parent, name).None?
      ensures !stops ==>
                && View() == Deleted(old(View()), parent, name).value
                && totalInodesFree == old(totalInodesFree) + 1
                && totalDataFree == old(totalDataFree) + |old(inodeBlocks)[inum]|
    {
      ghost var t := View();
      hide Cleared, RemoveName, Deleted;
      DeletedIs(t, parent, name, inum);
      var dir := nameToInode[parent];
      dirData := dirData[dir := RemoveName(dirData[dir], name)];
      var blocks := inodeBlocks[inum];
      stops := ClearAll(blocks);
      if stops {
        return;
      }
      var g, i := inum / par.numGroups, inum % par.numGroups;
      ClearedOne(inodes, g, i);
      if g >= |inodes| || i >= |inodes[g]| {
        stops := true;
        return;
      }
      inodes := inodes[g := inodes[g][i := None]];
      nameToInode := nameToInode - {parent + [name]};
      totalInodesFree := totalInodesFree + 1;
      totalDataFree := totalDataFree + |blocks|;
      inodeType := inodeType - {inum};
      inodeBlocks := inodeBlocks[inum := []];
    }

    /** The loop over the file's blocks. */
    method ClearAll(blocks: seq<nat>) returns (stops: bool)
      requires par.Valid()
      modifies this`data
      ensures stops <==> Cleared(old(data), FreedSlots(par, blocks)).None?
      ensures !stops ==> data == Cleared(old(data), FreedSlots(par, blocks)).value
    {
      stops := false;
      assert Cleared(data, []) == Some(data);
      hide Cleared;
      ClearedPrefix(data, par, blocks, 0);
      for k := 0 to |blocks|
        invariant Cleared(old(data), FreedSlots(par, blocks[..k])) == Some(data)
      {
        var g, i := blocks[k] / par.numGroups, blocks[k] % par.numGroups;
        ClearedNext(old(data), par, blocks, k);
        if g >= |data| || i >= |data[g]| {
          StaysNone(old(data), par, blocks, k + 1);
          return true;
        }
        data := data[g := data[g][i := None]];
      }
      assert blocks[..|blocks|] == blocks;
    }

    /** The program's own check of its tables; none of its assertions can fail. */
    method DoVerify() returns (dataUsed: nat, inodesUsed: nat)
      requires Valid()
      ensures dataUsed + totalDataFree == par.numGroups * par.blocksPerGroup
      ensures inodesUsed + totalInodesFree == par.numGroups * par.inodesPerGroup
    {
      hide FreeCount;
      dataUsed := CountUsed(data, par.blocksPerGroup);
      inodesUsed := CountUsed(inodes, par.inodesPerGroup);
      assert dataUsed + totalDataFree == par.numGroups * par.blocksPerGroup;
      assert inodesUsed + totalInodesFree == par.numGroups * par.inodesPerGroup;
      var names := nameToInode.Keys;
      while names != {}
        invariant names <= nameToInode.Keys
        decreases |names|
      {
        var f: Path :| f in names;
        names := names - {f};
        var inum := nameToInode[f];
        assert inum in inodeBlocks;
        var blocks := inodeBlocks[inum];
        for k := 0 to |blocks| {
          assert Owns(data, par.blocksPerGroup, blocks[k], inum);
        }
      }
    }
  }

  /** The first entry of that name, or -1. */
  method FindEntry(entries: seq<Entry>, name: string) returns (index: int)
    ensures -1 <= index < |entries|
    ensures index == -1 ==> !HasName(entries, name)
    ensures index >= 0 ==> entries[index].name == name
  {
    for i := 0 to |entries|
      invariant forall j :: 0 <= j < i ==> entries[j].name != name
    {
      if entries[i].name == name {
        return i;
      }
    }
    return -1;
  }

  method DirHasName(entries: seq<Entry>, name: string) returns (r: bool)
    ensures r <==> HasName(entries, name)
  {
    for i := 0 to |entries|
      invariant forall j :: 0 <= j < i ==> entries[j].name != name
    {
      if entries[i].name == name {
        return true;
      }
    }
    return false;
  }

  /** The slots that are not free, counted one by one. */
  method CountUsed(m: Bitmap, width: nat) returns (used: nat)
    requires Shaped(m, |m|, width)
    ensures used + FreeCount(m) == |m| * width
  {
    used := 0;
    for g := 0 to |m|
      invariant used + FreeCount(m[..g]) == g * width
    {
      ghost var before := used;
      for i := 0 to |m[g]|
        invariant used - before + FreeIn(m[g][..i]) == i
      {
        assert m[g][..i + 1][..i] == m[g][..i];
        if m[g][i].Some? {
          used := used + 1;
        }
      }
      assert m[g][..|m[g]|] == m[g];
      assert m[..g + 1][..g] == m[..g];
      assert (g + 1) * width == g * width + width;
    }
    assert m[..|m|] == m;
  }

  // ----- the group chosen -----

  ghost predicate GroupChosen(t: Tables, parent: Path, kind: Kind, g: nat) {
    && parent in t.nameToInode && t.par.inodesPerGroup > 0 && g < |t.inodes|
    && if kind == Regular && !t.par.spreadInodes then
         var home := t.nameToInode[parent] / t.par.inodesPerGroup;
         && home < |t.inodes|
         && if FreeIn(t.inodes[home]) > 0 then g == home else FirstNear(t.inodes, home, g)
       else MostFree(t.inodes, g)
  }

  /** The first group with the most free slots. */
  ghost predicate MostFree(m: Bitmap, g: nat)
    requires g < |m|
  {
    forall h :: 0 <= h < |m| ==> FreeIn(m[h]) <= FreeIn(m[g]) && (h < g ==> FreeIn(m[h]) < FreeIn(m[g]))
  }

  /** The inode is the first free one of the group chosen for it, and the blocks are looked for from there on, or, if
  data is to be spread, from the group with the most free blocks. */
  ghost predicate Chosen(t: Tables, parent: Path, kind: Kind, at: Slot, target: nat) {
    && GroupChosen(t, parent, kind, at.0)
    && at.1 < |t.inodes[at.0]| && t.inodes[at.0][at.1].None?
    && (forall j :: 0 <= j < at.1 ==> t.inodes[at.0][j].Some?)
    && if t.par.spreadData then target < |t.data| && MostFree(t.data, target) else target == at.0
  }

  lemma InodeInRange(t: Tables, p: Path)
    requires Ok(t) && p in t.nameToInode
    ensures t.nameToInode[p] < t.par.numGroups * t.par.inodesPerGroup
  {
    hide TreeOk, BlocksOk, NoLeaks, EntriesOk, NoLostInodes, KindsOk, DirsOk, BlocksOnce;
    hide Owns, HasName;
    var i, w := t.nameToInode[p], t.par.inodesPerGroup;
    assert Owns(t.inodes, w, i, i);
    OwnedInRange(t.inodes, t.par.numGroups, w, i, i);
  }

  lemma OwnedInRange(m: Bitmap, groups: nat, width: nat, n: nat, inum: nat)
    requires |m| == groups && Owns(m, width, n, inum)
    ensures n < groups * width
  {
    var q := n / width;
    MulMonotone(q + 1, groups, width);
    assert (q + 1) * width == q * width + width;
  }

  lemma OkShapes(t: Tables)
    requires Ok(t)
    ensures t.Shapes()
  {
    hide TreeOk, BlocksOk, NoLeaks, EntriesOk, NoLostInodes, NamesOk, KindsOk, DirsOk, BlocksOnce;
  }

  lemma RowsShaped(m: Bitmap, groups: nat, width: nat)
    requires Shaped(m, groups, width)
    ensures |m| == groups && forall g :: 0 <= g < groups ==> |m[g]| == width
  {
  }

  lemma GlobalNumberIs(g: nat, i: nat, width: nat)
    ensures GlobalNumber((g, i), width) == i + g * width
  {
  }

  lemma IsCreated(t: Tables, t': Tables, parent: Path, name: string, kind: Kind, at: Slot, slots: seq<Slot>,
        numbers: seq<nat>)
    requires parent in t.nameToInode && t.nameToInode[parent] in t.dirData
    requires at.0 < |t.inodes| && at.1 < |t.inodes[at.0]|
    requires |numbers| == |slots|
    requires forall j :: 0 <= j < |slots| ==> numbers[j] == GlobalNumber(slots[j], t.par.blocksPerGroup)
    requires var inum, dir := GlobalNumber(at, t.par.inodesPerGroup), t.nameToInode[parent];
             var entered := t.dirData[dir := t.dirData[dir] + [Entry(name, inum)]];
             t' == Tables(t.par, t'.data, Marked(t.inodes, at.0, at.1, inum),
                          if kind == Directory then entered[inum := [Entry(".", 0), Entry("..", 0)]] else entered,
                          t.inodeType[inum := kind], t.inodeBlocks[inum := numbers],
                          t.nameToInode[parent + [name] := inum])
    ensures t' == Created(t, parent, name, kind, at, slots, t'.data)
  {
    assert numbers == GlobalNumbers(slots, t.par.blocksPerGroup);
  }

  // ----- the empty file system -----

  lemma {:induction false} AllFreeRow(row: seq<Option<nat>>)
    requires forall i :: 0 <= i < |row| ==> row[i].None?
    ensures FreeIn(row) == |row|
  {
    if row != [] {
      AllFreeRow(row[..|row| - 1]);
    }
  }

  lemma {:induction false} AllFree(m: Bitmap, width: nat)
    requires forall g :: 0 <= g < |m| ==> |m[g]| == width && forall i :: 0 <= i < width ==> m[g][i].None?
    ensures FreeCount(m) == |m| * width
  {
    if m != [] {
      AllFree(m[..|m| - 1], width);
      AllFreeRow(m[|m| - 1]);
      assert |m| * width == (|m| - 1) * width + width;
    }
  }

  lemma RootOk(t: Tables)
    requires t.Shapes()
    requires t.data == Marked(Empty(t.par.numGroups, t.par.blocksPerGroup), 0, 0, 0)
    requires t.inodes == Marked(Empty(t.par.numGroups, t.par.inodesPerGroup), 0, 0, 0)
    requires t.inodeType == map[0 := Directory] && t.inodeBlocks == map[0 := [0]] && t.nameToInode == map[[] := 0]
    requires t.dirData == map[0 := [Entry(".", 0), Entry("..", 0)]]
    ensures Ok(t)
  {
    DotEntries();
    hide DirectoryOk;
    var root: Path := [];
    assert root in t.nameToInode && t.nameToInode[root] == 0;
    assert HasPath(t, 0);
    OwnsSlot(t.data, t.par.blocksPerGroup, (0, 0), 0);
    OwnsSlot(t.inodes, t.par.inodesPerGroup, (0, 0), 0);
    assert OwnedBy(t, (0, 0), 0, []);
  }

  function Empty(groups: nat, width: nat): (m: Bitmap)
    ensures |m| == groups && forall g :: 0 <= g < groups ==> |m[g]| == width
  {
    seq(groups, _ => seq(width, _ => None))
  }

  lemma OneTaken(groups: nat, width: nat)
    requires groups > 0 && width > 0
    ensures FreeCount(Marked(Empty(groups, width), 0, 0, 0)) == width * groups - 1
  {
    AllFree(Empty(groups, width), width);
    FreeCountMarked(Empty(groups, width), 0, 0, 0);
  }

  /** The tables of a disk with nothing but the root directory. */
  function Formatted(par: Params): Tables
    requires par.Valid()
  {
    Tables(par, Marked(Empty(par.numGroups, par.blocksPerGroup), 0, 0, 0),
           Marked(Empty(par.numGroups, par.inodesPerGroup), 0, 0, 0),
           map[0 := [Entry(".", 0), Entry("..", 0)]], map[0 := Directory], map[0 := [0]], map[[] := 0])
  }

  lemma FormattedOk(par: Params)
    requires par.Valid()
    ensures Ok(Formatted(par))
    ensures FreeCount(Formatted(par).data) == par.blocksPerGroup * par.numGroups - 1
    ensures FreeCount(Formatted(par).inodes) == par.inodesPerGroup * par.numGroups - 1
  {
    OneTaken(par.numGroups, par.blocksPerGroup);
    OneTaken(par.numGroups, par.inodesPerGroup);
    hide Ok, FreeCount, Empty;
    RootOk(Formatted(par));
  }

  /** A fresh disk of the default sizes, with one file of one block that the -D option puts in the second group. */
  function OneFile(): Tables {
    var root := Formatted(Params(10, 30, 10, 30, 1, false, true));
    Created(root, [], "f", Regular, (0, 1), [(1, 0)], Marked(root.data, 1, 0, 1))
  }

  lemma OneFileRoot() returns (root: Tables)
    ensures Ok(root) && root.par == Params(10, 30, 10, 30, 1, false, true)
    ensures [] in root.nameToInode && root.nameToInode[[]] == 0 && 0 in root.dirData
    ensures root.dirData[0] == [Entry(".", 0), Entry("..", 0)]
    ensures |root.data| == 10 && |root.data[1]| == 30 && root.data[1][0].None?
    ensures |root.inodes| == 10 && |root.inodes[0]| == 10 && root.inodes[0][1].None?
    ensures OneFile() == Created(root, [], "f", Regular, (0, 1), [(1, 0)], Marked(root.data, 1, 0, 1))
  {
    root := Formatted(Params(10, 30, 10, 30, 1, false, true));
    FormattedOk(root.par);
    hide Ok;
  }

  lemma OneFileTaken(m: Bitmap)
    requires |m| == 10 && |m[1]| == 30 && m[1][0].None?
    ensures Taken(m, Marked(m, 1, 0, 1), 1, [(1, 0)])
  {
    TakenNone(m, 1);
    TakenOneMore(m, m, 1, [], 1, 0);
    assert [] + [(1, 0)] == [(1, 0)];
  }

  lemma OneFileOk()
    ensures Deletable(OneFile(), [], "f") && OneFile().inodeBlocks[OneFile().nameToInode[[] + ["f"]]] == [30]
    ensures OneFile().par == Params(10, 30, 10, 30, 1, false, true)
  {
    var root := OneFileRoot();
    var data' := Marked(root.data, 1, 0, 1);
    OneFileTaken(root.data);
    NoSuchName();
    hide Ok, Taken, OneFile, Created, HasName, Marked;
    assert GlobalNumber((0, 1), 10) == 1;
    CreatedOk(root, [], "f", Regular, (0, 1), [(1, 0)], data');
    OneFileParts(root, data');
  }

  /** Its deletion leaves a block in use by nothing. */
  lemma DefaultDiskLeaks()
    ensures Deletable(OneFile(), [], "f")
    ensures !(Deleted(OneFile(), [], "f").Some? && Ok(Deleted(OneFile(), [], "f").value))
  {
    OneFileOk();
    hide OneFile, Ok;
    DefaultSizesFail(OneFile(), [], "f");
  }

  lemma NoSuchName()
    ensures !HasName([Entry(".", 0), Entry("..", 0)], "f")
  {
  }

  lemma OneFileParts(root: Tables, data': Bitmap)
    requires root.par == Params(10, 30, 10, 30, 1, false, true)
    requires [] in root.nameToInode && root.nameToInode[[]] == 0 && 0 in root.dirData
    requires |root.inodes| == 10 && |root.inodes[0]| == 10
    ensures var t := Created(root, [], "f", Regular, (0, 1), [(1, 0)], data');
            && t.par == root.par && [] in t.nameToInode && t.nameToInode[[]] == 0 && 0 in t.dirData
            && [] + ["f"] in t.nameToInode && t.nameToInode[[] + ["f"]] == 1
            && 1 in t.inodeType && t.inodeType[1] == Regular && 1 in t.inodeBlocks && t.inodeBlocks[1] == [30]
  {
    var path: Path := ["f"];
    assert [] + ["f"] == path;
    assert GlobalNumbers([(1, 0)], 30) == [30];
  }

  method GetFreeCount(row: seq<Option<nat>>) returns (n: nat)
    ensures n == FreeIn(row)
  {
    n := 0;
    for i := 0 to |row|
      invariant n == FreeIn(row[..i])
    {
      assert row[..i + 1][..i] == row[..i];
      if row[i].None? {
        n := n + 1;
      }
    }
    assert row[..|row|] == row;
  }

  /** The first group with the most free slots, or -1 if none has any. */
  method FindMostFree(m: Bitmap) returns (group: int)
    ensures -1 <= group < |m|
    ensures group == -1 <==> forall g :: 0 <= g < |m| ==> FreeIn(m[g]) == 0
    ensures group >= 0 ==> forall g :: 0 <= g < |m| ==>
              FreeIn(m[g]) <= FreeIn(m[group]) && (g < group ==> FreeIn(m[g]) < FreeIn(m[group]))
  {
    hide FreeIn;
    group := -1;
    var most := 0;
    for g := 0 to |m|
      invariant -1 <= group < g
      invariant most == if group == -1 then 0 else FreeIn(m[group])
      invariant group >= 0 ==> most > 0
      invariant forall h :: 0 <= h < g ==> FreeIn(m[h]) <= most && (h < group ==> FreeIn(m[h]) < most)
    {
      var free := GetFreeCount(m[g]);
      if free > most {
        most, group := free, g;
      }
    }
  }

  /** The first free index of a group's inodes, or -1. */
  method FindFreeInode(row: seq<Option<nat>>) returns (i: int)
    ensures i == -1 <==> FreeIn(row) == 0
    ensures i != -1 ==> 0 <= i < |row| && row[i].None? && forall j :: 0 <= j < i ==> row[j].Some?
  {
    NoneFreeIn(row);
    for k := 0 to |row|
      invariant forall j :: 0 <= j < k ==> row[j].Some?
    {
      if row[k].None? {
        return k;
      }
    }
    return -1;
  }

  lemma OneMoreRound(x: int, y: int, groups: nat)
    requires groups > 0
    ensures (x % groups + 1) % groups == (x + 1) % groups
    ensures (y % groups - 1) % groups == (y - 1) % groups
  {
    ModStep(x, 1, groups);
    ModStep(y, -1, groups);
  }

  lemma ModStep(x: int, d: int, groups: nat)
    requires groups > 0
    ensures (x % groups + d) % groups == (x + d) % groups
  {
    var q, r := x / groups, x % groups + d;
    assert x + d == q * groups + r;
    assert r == (r / groups) * groups + r % groups;
    assert x + d == (q + r / groups) * groups + r % groups;
    DivModUnique(x + d, q + r / groups, r % groups, groups);
  }

  /** The next group upwards and the next downwards before turn i. */
  function Grown(target: nat, i: nat, groups: nat): int
    requires groups > 0
  {
    (target + 1 + (i + 1) / 2) % groups
  }

  function Shrunk(target: nat, i: nat, groups: nat): int
    requires groups > 0
  {
    (target - 1 - i / 2) % groups
  }

  lemma NearBegin(target: nat, groups: nat)
    requires target < groups
    ensures Grown(target, 0, groups) == (target + 1) % groups && Shrunk(target, 0, groups) == (target - 1) % groups
  {
  }

  lemma NearTurn(target: nat, i: nat, groups: nat)
    requires target < groups && i < groups - 1
    ensures var up, down := Grown(target, i, groups), Shrunk(target, i, groups);
            && NearAt(target, i, groups) == (if i % 2 == 0 then up else down)
            && Grown(target, i + 1, groups) == (if i % 2 == 0 then (up + 1) % groups else up)
            && Shrunk(target, i + 1, groups) == (if i % 2 == 0 then down else (down - 1) % groups)
  {
    OneMoreRound(target + 1 + (i + 1) / 2, target - 1 - i / 2, groups);
    if i % 2 == 0 {
      assert (i + 1) / 2 == i / 2 && (i + 2) / 2 == (i + 1) / 2 + 1;
    } else {
      assert (i + 2) / 2 == (i + 1) / 2 == i / 2 + 1;
    }
  }

  lemma FoundNear(m: Bitmap, target: nat, i: nat)
    requires target < |m| && i < |m| - 1 && FreeIn(m[NearAt(target, i, |m|)]) > 0
    requires forall j :: 0 <= j < i ==> FreeIn(m[NearAt(target, j, |m|)]) == 0
    ensures FirstNear(m, target, NearAt(target, i, |m|))
  {
    hide FreeIn, NearAt;
    assert TriedBefore(m, target, i);
  }

  lemma NearLeavesNone(m: Bitmap, target: nat, groups: nat)
    requires |m| == groups && target < groups && FreeIn(m[target]) == 0
    requires forall j :: 0 <= j < groups - 1 ==> FreeIn(m[NearAt(target, j, groups)]) == 0
    ensures FreeCount(m) == 0
  {
    hide FreeIn, NearAt;
    forall g | 0 <= g < groups
      ensures FreeIn(m[g]) == 0
    {
      if g != target {
        var i := NearIsEveryOther(target, g, groups);
      }
    }
    NoneFree(m);
  }

  /** The group and index of a global number. */
  lemma SlotOf(n: nat, groups: nat, width: nat)
    requires width > 0 && n < groups * width
    ensures n / width < groups && n % width < width && n == (n / width) * width + n % width
  {
    var q := n / width;
    assert n == q * width + n % width;
    if q >= groups {
      MulMonotone(groups, q, width);
    }
  }

  lemma ShapedAt(m: Bitmap, groups: nat, width: nat, g: nat)
    requires Shaped(m, groups, width) && g < groups
    ensures |m| == groups && |m[g]| == width
  {
  }

  lemma ShapedMarked(m: Bitmap, groups: nat, width: nat, g: nat, i: nat, inum: nat)
    requires Shaped(m, groups, width) && g < groups && i < width
    ensures |m| == groups && |m[g]| == width
    ensures Shaped(Marked(m, g, i, inum), groups, width) && |Marked(m, g, i, inum)| == groups
    ensures |Marked(m, g, i, inum)[g]| == width && Marked(m, g, i, inum)[g][i] == Some(inum)
  {
  }

  /** How far the round from target has come: the slots taken, and, if swept, that nothing passed is free. */
  ghost predicate Sweeping(m0: Bitmap, m: Bitmap, width: nat, target: nat, inum: nat, at: Slot, k: nat, swept: bool,
                           plain: bool, blocks: seq<Slot>) {
    && Shaped(m0, |m0|, width) && Shaped(m, |m0|, width) && target < |m0| && k < |m0| && at.1 <= width
    && GroupAt(target, k, |m|) < |m| && at.0 == GroupAt(target, k, |m|)
    && Taken(m0, m, inum, blocks) && FreeCount(m) == FreeCount(m0) - |blocks|
    && (swept ==> Swept(m, target, at)) && (plain ==> AllBefore(blocks, target, |m|, at))
  }

  lemma SweepStarts(m: Bitmap, width: nat, target: nat, inum: nat, plain: bool)
    requires Shaped(m, |m|, width) && target < |m|
    ensures Sweeping(m, m, width, target, inum, (target, 0), 0, plain, plain, [])
  {
    hide FreeCount, Swept, AllBefore, Taken, Shaped;
    GroupAtMod(target, 0, |m|);
    TakenNone(m, inum);
    SweptNone(m, target);
    NoneBefore(target, |m|);
  }

  lemma SweepFacts(m0: Bitmap, m: Bitmap, width: nat, target: nat, inum: nat, at: Slot, k: nat, swept: bool,
                   plain: bool, blocks: seq<Slot>)
    requires Sweeping(m0, m, width, target, inum, at, k, swept, plain, blocks)
    ensures |m| == |m0| && at.0 < |m| && |m[at.0]| == width == |m0[at.0]|
  {
  }

  /** A slot is taken or passed. */
  lemma SweepSlot(m0: Bitmap, m: Bitmap, width: nat, target: nat, inum: nat, at: Slot, k: nat, swept: bool,
                  plain: bool, blocks: seq<Slot>, take: bool)
    requires Sweeping(m0, m, width, target, inum, at, k, swept, plain, blocks) && at.1 < width && at.0 < |m|
    requires |m[at.0]| == width && (if take then m[at.0][at.1].None? else swept ==> m[at.0][at.1].Some?)
    ensures var next := (at.0, at.1 + 1);
            if take then Sweeping(m0, Marked(m, at.0, at.1, inum), width, target, inum, next, k, plain && swept, plain,
                                  blocks + [at])
            else Sweeping(m0, m, width, target, inum, next, k, swept, plain, blocks)
  {
    hide FreeCount, Swept, AllBefore, Taken, Shaped, GroupAt;
    SweepFacts(m0, m, width, target, inum, at, k, swept, plain, blocks);
    ShapedMarked(m, |m|, width, at.0, at.1, inum);
    PassSlot(m, target, at.0, at.1, inum, take, swept);
    AllBeforeNextIf(plain, blocks, target, |m|, at.0, at.1);
    if take {
      TakenOneMore(m0, m, inum, blocks, at.0, at.1);
      FreeCountMarked(m, at.0, at.1, inum);
    }
  }

  /** On to the next group; a swept round does not come back to the first one while a slot is free. */
  lemma SweepGroup(m0: Bitmap, m: Bitmap, width: nat, target: nat, inum: nat, at: Slot, k: nat, swept: bool,
                   plain: bool, blocks: seq<Slot>)
    requires Sweeping(m0, m, width, target, inum, at, k, swept, plain, blocks) && (plain ==> swept)
    requires |blocks| < FreeCount(m0) && (swept ==> at.1 == width)
    ensures |m| == |m0| > 0
    ensures var next := (at.0 + 1) % |m|;
            if next == target then !swept && Sweeping(m0, m, width, target, inum, (target, 0), 0, true, false, blocks)
            else k + 1 < |m| && Sweeping(m0, m, width, target, inum, (next, 0), k + 1, swept, plain, blocks)
  {
    hide FreeCount, Swept, AllBefore, Taken, Shaped, GroupAt;
    assert |m| == |m0| by { SweepFacts(m0, m, width, target, inum, at, k, swept, plain, blocks); }
    PassGroup(m, width, target, k, at.1, swept);
    AllBeforeGroupIf(plain, blocks, target, |m|, k, at.1);
    SweptNone(m, target);
  }

  lemma SweepEnds(m0: Bitmap, m: Bitmap, width: nat, target: nat, inum: nat, at: Slot, k: nat, swept: bool,
                  plain: bool, blocks: seq<Slot>)
    requires Sweeping(m0, m, width, target, inum, at, k, swept, plain, blocks) && (plain ==> swept)
    ensures |m| == |m0| && target < |m| && Shaped(m, |m|, width) && Taken(m0, m, inum, blocks)
    ensures FreeCount(m) == FreeCount(m0) - |blocks|
    ensures plain ==> FirstFree(m, target, blocks)
  {
    hide FreeCount, Swept, AllBefore, Taken, GroupAt;
    if plain {
      AfterSwept(m, target, at, blocks);
    }
  }

  lemma VisitLeaves(m: Bitmap, width: nat, target: nat, limit: int, policy: nat, past: seq<seq<nat>>, visit: seq<nat>,
                    index: nat)
    requires Shaped(m, |m|, width) && target < |m|
    requires index == width || (limit > 0 && |visit| == limit)
    ensures Leaves(m, target, limit, past, visit, index)
    ensures (GroupOf(target, |past|, |m|) + 1) % |m| == GroupOf(target, |past| + 1, |m|)
    ensures ChunkOf(policy, |past| + 1, |m|)
            == if GroupOf(target, |past| + 1, |m|) == target then 1 else ChunkOf(policy, |past|, |m|)
  {
    hide GroupOf;
    GroupOfNext(target, |past|, |m|);
    GroupOfNext(target, |past| + 1, |m|);
  }

  lemma NoneBefore(target: nat, groups: nat)
    requires target < groups
    ensures AllBefore([], target, groups, (target, 0))
  {
  }

  lemma TurnOfGroupAt(target: nat, k: nat, groups: nat)
    requires target < groups && k < groups
    ensures GroupAt(target, k, groups) < groups && TurnOf(target, GroupAt(target, k, groups), groups) == k
  {
  }

  /** Past a slot that was taken before or is taken now. */
  lemma PassSlot(m: Bitmap, target: nat, g: nat, i: nat, inum: nat, take: bool, swept: bool)
    requires target < |m| && g < |m| && i < |m[g]|
    requires swept ==> Swept(m, target, (g, i)) && (take || m[g][i].Some?)
    ensures swept && !take ==> Swept(m, target, (g, i + 1))
    ensures swept && take ==> Swept(Marked(m, g, i, inum), target, (g, i + 1))
  {
    if swept && take {
      SweptMarked(m, target, g, i, inum);
      SweptNext(Marked(m, g, i, inum), target, g, i);
    } else if swept {
      SweptNext(m, target, g, i);
    }
  }

  /** Past a group: on to the next, or back to the first, which a swept round with blocks left to find never does. */
  lemma PassGroup(m: Bitmap, width: nat, target: nat, k: nat, i: nat, swept: bool)
    requires Shaped(m, |m|, width) && target < |m| && k < |m|
    requires swept ==> GroupAt(target, k, |m|) < |m| && Swept(m, target, (GroupAt(target, k, |m|), i))
    requires swept ==> i == width && FreeCount(m) > 0
    ensures var next := (GroupAt(target, k, |m|) + 1) % |m|;
            && next == (if k + 1 == |m| then target else GroupAt(target, k + 1, |m|))
            && next < |m| && (k + 1 < |m| ==> next != target)
            && (swept ==> k + 1 < |m| && Swept(m, target, (next, 0)))
    ensures GroupAt(target, 0, |m|) == target
  {
    NextGroup(target, k, |m|);
    GroupAtMod(target, k, |m|);
    if k + 1 < |m| {
      GroupAtMod(target, k + 1, |m|);
      if swept {
        SweptGroup(m, width, target, k);
      }
    } else if swept {
      TurnOfGroupAt(target, k, |m|);
      SweptAll(m, width, target, (GroupAt(target, k, |m|), i));
    }
  }

  lemma AllBeforeNextIf(plain: bool, slots: seq<Slot>, target: nat, groups: nat, g: nat, i: nat)
    requires target < groups && g < groups && (plain ==> AllBefore(slots, target, groups, (g, i)))
    ensures plain ==> AllBefore(slots, target, groups, (g, i + 1))
    ensures plain ==> AllBefore(slots + [(g, i)], target, groups, (g, i + 1))
  {
    if plain {
      AllBeforeNext(slots, target, groups, g, i);
    }
  }

  lemma AllBeforeGroupIf(plain: bool, slots: seq<Slot>, target: nat, groups: nat, k: nat, i: nat)
    requires target < groups && k < groups
    requires plain ==> k + 1 < groups && GroupAt(target, k, groups) < groups && GroupAt(target, k + 1, groups) < groups
    requires plain ==> AllBefore(slots, target, groups, (GroupAt(target, k, groups), i))
    ensures plain ==> AllBefore(slots, target, groups, (GroupAt(target, k + 1, groups), 0))
  {
    if plain {
      AllBeforeGroup(slots, target, groups, k, i);
    }
  }
}
