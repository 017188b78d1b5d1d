/** Every request keeps the disk consistent: inodes, blocks and link counts. */
module FileInvariant {
  import opened Directories
  import opened FileCounting
  import opened FileSystem

  // ----- entering a name in a directory -----

  lemma CountsAfterAdd(data: seq<Block>, pb: nat, name: string, inum: int, i: int)
    requires pb < |data|
    ensures References(data[pb := AddEntry(data[pb], name, inum)], i)
         == References(data, i) + (if i == inum then 1 else 0)
  {
    ReferencesUpdate(data, pb, AddEntry(data[pb], name, inum), i);
    OccurrencesAdd(data[pb].dirList, Entry(name, inum), i);
  }

  /** A block that can take the entry. */
  ghost predicate CanTake(block: Block, name: string) {
    block.ftype == Directory && block.dirUsed < MAX_USED && !HasName(block.dirList, name) && LegalName(name)
  }

  lemma ShapesAfterAdd(data: seq<Block>, pb: nat, name: string, inum: int)
    requires Shapes(data) && pb < |data| && CanTake(data[pb], name)
    ensures Shapes(data[pb := AddEntry(data[pb], name, inum)])
  {
    hide LegalName;
  }

  lemma NothingDanglesAfterAdd(inodes: seq<Inode>, data: seq<Block>, pb: nat, name: string, inum: int,
        inodes': seq<Inode>)
    requires NothingDangles(inodes, data) && pb < |data|
    requires IsLive(inodes', inum) && forall i :: IsLive(inodes, i) ==> IsLive(inodes', i)
    ensures NothingDangles(inodes', data[pb := AddEntry(data[pb], name, inum)])
  {
    var data' := data[pb := AddEntry(data[pb], name, inum)];
    forall b, k | 0 <= b < |data'| && 0 <= k < |data'[b].dirList|
      ensures IsLive(inodes', data'[b].dirList[k].inum)
    {
      if k < |data[b].dirList| {
        assert data'[b].dirList[k] == data[b].dirList[k];
      }
    }
  }

  lemma DotsAfterAdd(inodes: seq<Inode>, data: seq<Block>, pb: nat, name: string, inum: int, inodes': seq<Inode>)
    requires Dots(inodes, data) && DotDots(inodes, data) && pb < |data| && LegalName(name)
    requires |data[pb].dirList| >= 2
    requires forall i :: IsDir(inodes', i) <==> IsDir(inodes, i)
    requires |inodes'| == |inodes| && forall i :: IsDir(inodes, i) ==> inodes'[i].addr == inodes[i].addr
    ensures Dots(inodes', data[pb := AddEntry(data[pb], name, inum)])
    ensures DotDots(inodes', data[pb := AddEntry(data[pb], name, inum)])
  {
    hide LegalName;
    var data' := data[pb := AddEntry(data[pb], name, inum)];
    forall i | IsDir(inodes', i) && 0 <= inodes'[i].addr < |data'|
      ensures var list := data'[inodes'[i].addr].dirList;
              && |list| >= 2 && list[0] == Entry(".", i)
              && forall k :: 2 <= k < |list| ==> LegalName(list[k].name)
    {
      var list, list' := data[inodes[i].addr].dirList, data'[inodes[i].addr].dirList;
      assert forall k :: 0 <= k < |list| ==> list'[k] == list[k];
    }
    forall b | 0 <= b < |data'| && |data'[b].dirList| >= 2
      ensures data'[b].dirList[1].name == ".." && IsDir(inodes', data'[b].dirList[1].inum)
    {
      assert data'[b].dirList[1] == data[b].dirList[1];
    }
  }

  lemma DirectoryHasDots(inodes: seq<Inode>, data: seq<Block>, b: nat)
    requires Addresses(inodes, data) && NoLostBlocks(inodes, data) && Dots(inodes, data)
    requires b < |data| && data[b].ftype == Directory
    ensures |data[b].dirList| >= 2
  {
    hide LegalName;
    var i :| Owns(inodes, i, b);
    assert IsDir(inodes, i);
  }

  /** Owners stay owners when types and addresses stay. */
  lemma SameOwners(inodes: seq<Inode>, data: seq<Block>, inodes': seq<Inode>, data': seq<Block>)
    requires Addresses(inodes, data) && NoSharing(inodes) && NoLostBlocks(inodes, data)
    requires |inodes'| == |inodes| && |data'| == |data|
    requires forall i :: 0 <= i < |inodes| ==> inodes'[i].addr == inodes[i].addr
    requires forall i :: 0 <= i < |inodes| ==>
               inodes'[i].ftype == inodes[i].ftype
               || (inodes[i].ftype == Free && inodes'[i].ftype == File)
    requires forall b :: 0 <= b < |data| ==> data'[b].ftype == data[b].ftype
    ensures Addresses(inodes', data') && NoSharing(inodes') && NoLostBlocks(inodes', data')
  {
    assert forall i, b :: b != -1 ==> Owns(inodes', i, b) == Owns(inodes, i, b);
  }

  /** The counts when one entry for t is added, and t's count goes from the old references to the new. */
  lemma CountsAfterEntry(inodes: seq<Inode>, data: seq<Block>, pb: nat, name: string, t: nat, inodes': seq<Inode>)
    requires pb < |data| && |inodes'| == |inodes| && t < |inodes|
    requires Counts(inodes, data)
    requires forall i :: 0 <= i < |inodes| && i != t ==> inodes'[i] == inodes[i]
    requires inodes'[t].ftype != Free && inodes'[t].refCnt == References(data, t) + 1
    ensures Counts(inodes', data[pb := AddEntry(data[pb], name, t)])
  {
    hide References, AddEntry;
    var data' := data[pb := AddEntry(data[pb], name, t)];
    forall i | 0 <= i < |inodes| ensures References(data', i) == References(data, i) + if i == t then 1 else 0 {
      CountsAfterAdd(data, pb, name, t, i);
    }
  }

  lemma InodeFacts(inodes: seq<Inode>, data: seq<Block>, t: nat)
    requires Addresses(inodes, data) && Counts(inodes, data) && t < |inodes|
    ensures inodes[t].ftype == Free ==> References(data, t) == 0 && inodes[t].addr == -1
    ensures inodes[t].ftype != Free ==> inodes[t].refCnt == References(data, t) >= 1
  {
  }

  // ----- createLink -----

  lemma LinkKeepsStructure(inodes: seq<Inode>, data: seq<Block>, pb: nat, name: string, t: nat)
    requires Structure(inodes, data) && pb < |data| && t < |inodes|
    requires CanTake(data[pb], name) && inodes[t].ftype == File
    ensures Structure(inodes[t := inodes[t].(refCnt := inodes[t].refCnt + 1)], data[pb := AddEntry(data[pb], name, t)])
  {
    hide Addresses, NoSharing, NoLostBlocks, Shapes, NothingDangles, Dots, DotDots, Counts, References;
    InodeFacts(inodes, data, t);
    var inodes' := inodes[t := inodes[t].(refCnt := inodes[t].refCnt + 1)];
    SameOwners(inodes, data, inodes', data[pb := AddEntry(data[pb], name, t)]);
    CountsAfterEntry(inodes, data, pb, name, t, inodes');
    ShapesAfterAdd(data, pb, name, t);
    NothingDanglesAfterAdd(inodes, data, pb, name, t, inodes');
    DirectoryHasDots(inodes, data, pb);
    DotsAfterAdd(inodes, data, pb, name, t, inodes');
  }

  // ----- createFile, for files -----

  lemma FileKeepsStructure(inodes: seq<Inode>, data: seq<Block>, pb: nat, name: string, t: nat)
    requires Structure(inodes, data) && pb < |data| && t < |inodes|
    requires CanTake(data[pb], name) && inodes[t].ftype == Free
    ensures Structure(inodes[t := Inode(File, -1, 1)], data[pb := AddEntry(data[pb], name, t)])
  {
    hide Addresses, NoSharing, NoLostBlocks, Shapes, NothingDangles, Dots, DotDots, Counts, References;
    InodeFacts(inodes, data, t);
    var inodes' := inodes[t := Inode(File, -1, 1)];
    SameOwners(inodes, data, inodes', data[pb := AddEntry(data[pb], name, t)]);
    CountsAfterEntry(inodes, data, pb, name, t, inodes');
    ShapesAfterAdd(data, pb, name, t);
    NothingDanglesAfterAdd(inodes, data, pb, name, t, inodes');
    DirectoryHasDots(inodes, data, pb);
    DotsAfterAdd(inodes, data, pb, name, t, inodes');
  }

  // ----- createFile, for directories -----

  function DotBlock(block: Block, t: int, parent: int): Block {
    AddEntry(AddEntry(block.(ftype := Directory), ".", t), "..", parent)
  }

  function WithDirectory(inodes: seq<Inode>, p: nat, t: nat, f: nat): seq<Inode>
    requires p < |inodes| && t < |inodes|
  {
    var inodes1 := inodes[t := Inode(Directory, f, 2)];
    inodes1[p := inodes1[p].(refCnt := inodes1[p].refCnt + 1)]
  }

  lemma DotBlockCounts(data: seq<Block>, f: nat, t: int, parent: int, i: int)
    requires f < |data| && data[f].dirList == []
    ensures References(data[f := DotBlock(data[f], t, parent)], i)
         == References(data, i) + (if i == t then 1 else 0) + (if i == parent then 1 else 0)
  {
    ReferencesUpdate(data, f, DotBlock(data[f], t, parent), i);
    OccurrencesAdd([], Entry(".", t), i);
    OccurrencesAdd([Entry(".", t)], Entry("..", parent), i);
    assert [] + [Entry(".", t)] == [Entry(".", t)];
  }

  /** A free inode and a free block become a directory: who owns what. */
  lemma OwnersWithDirectory(inodes: seq<Inode>, data: seq<Block>, p: nat, t: nat, f: nat)
    requires Addresses(inodes, data) && NoSharing(inodes) && NoLostBlocks(inodes, data)
    requires p < |inodes| && t < |inodes| && f < |data|
    requires inodes[p].ftype == Directory && inodes[t].ftype == Free && data[f].ftype == Free
    ensures var inodes', data' := WithDirectory(inodes, p, t, f), data[f := DotBlock(data[f], t, p)];
            Addresses(inodes', data') && NoSharing(inodes') && NoLostBlocks(inodes', data')
    ensures forall i :: 0 <= i < |inodes| ==> inodes[i].addr != f
  {
    var inodes', data' := WithDirectory(inodes, p, t, f), data[f := DotBlock(data[f], t, p)];
    assert forall i :: 0 <= i < |inodes| && i != t ==>
      inodes'[i].ftype == inodes[i].ftype && inodes'[i].addr == inodes[i].addr;
    assert inodes'[t] == Inode(Directory, f, 2);
    assert data'[f].ftype == Directory;
    assert forall i :: 0 <= i < |inodes| ==> inodes[i].addr != f;
    assert forall i, b :: b != -1 ==> (Owns(inodes', i, b) <==> Owns(inodes, i, b) || (i == t && b == f));
    assert Owns(inodes', t, f);
  }

  lemma DotsWithDirectory(inodes: seq<Inode>, data: seq<Block>, p: nat, t: nat, f: nat)
    requires Dots(inodes, data) && DotDots(inodes, data) && p < |inodes| && t < |inodes| && f < |data|
    requires inodes[p].ftype == Directory && inodes[t].ftype == Free && data[f].dirList == []
    requires forall i :: 0 <= i < |inodes| ==> inodes[i].addr != f
    ensures Dots(WithDirectory(inodes, p, t, f), data[f := DotBlock(data[f], t, p)])
    ensures DotDots(WithDirectory(inodes, p, t, f), data[f := DotBlock(data[f], t, p)])
  {
    hide LegalName;
    var inodes', data' := WithDirectory(inodes, p, t, f), data[f := DotBlock(data[f], t, p)];
    assert forall i :: IsDir(inodes', i) <==> IsDir(inodes, i) || i == t;
    assert forall i :: IsDir(inodes, i) ==> inodes'[i].addr == inodes[i].addr;
    assert data'[f].dirList == [Entry(".", t), Entry("..", p)];
  }

  lemma CountsWithDirectory(inodes: seq<Inode>, data: seq<Block>, p: nat, t: nat, f: nat, i: nat)
    requires Counts(inodes, data) && p < |inodes| && t < |inodes| && f < |data| && i < |inodes|
    requires inodes[p].ftype == Directory && inodes[t].ftype == Free && data[f].dirList == []
    ensures var inodes', data' := WithDirectory(inodes, p, t, f), data[f := DotBlock(data[f], t, p)];
            if inodes'[i].ftype == Free then References(data', i) == 0
            else inodes'[i].refCnt == References(data', i) + (if i == t then 1 else 0)
  {
    hide References, AddEntry;
    DotBlockCounts(data, f, t, p, i);
  }

  lemma BlocksWithDirectory(inodes: seq<Inode>, data: seq<Block>, p: nat, t: nat, f: nat)
    requires Shapes(data) && NothingDangles(inodes, data) && p < |inodes| && t < |inodes| && f < |data|
    requires inodes[p].ftype == Directory && data[f].dirList == []
    ensures var inodes', data' := WithDirectory(inodes, p, t, f), data[f := DotBlock(data[f], t, p)];
            Shapes(data') && NothingDangles(inodes', data')
  {
    var inodes', data' := WithDirectory(inodes, p, t, f), data[f := DotBlock(data[f], t, p)];
    assert data'[f].dirList == [Entry(".", t), Entry("..", p)];
    assert forall i :: IsLive(inodes, i) ==> IsLive(inodes', i);
    forall b, k | 0 <= b < |data'| && 0 <= k < |data'[b].dirList|
      ensures IsLive(inodes', data'[b].dirList[k].inum)
    {
      if b != f {
        assert IsLive(inodes, data[b].dirList[k].inum);
      }
    }
  }

  lemma CountsWithEntry(inodes: seq<Inode>, data: seq<Block>, p: nat, t: nat, f: nat, pb: nat, name: string)
    requires Counts(inodes, data) && p < |inodes| && t < |inodes| && f < |data| && pb < |data|
    requires inodes[p].ftype == Directory && inodes[t].ftype == Free && data[f].dirList == []
    ensures var inodes', data1 := WithDirectory(inodes, p, t, f), data[f := DotBlock(data[f], t, p)];
            Counts(inodes', data1[pb := AddEntry(data1[pb], name, t)])
  {
    hide References, AddEntry, DotBlock;
    var inodes', data1 := WithDirectory(inodes, p, t, f), data[f := DotBlock(data[f], t, p)];
    forall i | 0 <= i < |inodes|
      ensures var r := References(data1[pb := AddEntry(data1[pb], name, t)], i);
              if inodes'[i].ftype == Free then r == 0 else inodes'[i].refCnt == r >= 1
    {
      CountsWithDirectory(inodes, data, p, t, f, i);
      CountsAfterAdd(data1, pb, name, t, i);
    }
  }

  lemma DirectoryKeepsStructure(inodes: seq<Inode>, data: seq<Block>, p: nat, pb: nat, name: string, t: nat, f: nat)
    requires Structure(inodes, data) && p < |inodes| && pb < |data| && t < |inodes| && f < |data|
    requires inodes[p].ftype == Directory && CanTake(data[pb], name)
    requires inodes[t].ftype == Free && data[f].ftype == Free
    ensures Structure(WithDirectory(inodes, p, t, f),
                      data[f := DotBlock(data[f], t, p)][pb := AddEntry(data[pb], name, t)])
  {
    hide Addresses, NoSharing, NoLostBlocks, Shapes, NothingDangles, Dots, DotDots, Counts, References, DotBlock,
        CanTake;
    assert data[f].dirList == [] by { FreeBlockEmpty(data, f); }
    assert data[pb].ftype == Directory && LegalName(name) by { TakesLegal(data[pb], name); }
    var inodes', data1 := WithDirectory(inodes, p, t, f), data[f := DotBlock(data[f], t, p)];
    assert data1[pb] == data[pb];
    OwnersWithDirectory(inodes, data, p, t, f);
    DotsWithDirectory(inodes, data, p, t, f);
    BlocksWithDirectory(inodes, data, p, t, f);
    CountsWithEntry(inodes, data, p, t, f, pb, name);
    SameOwners(inodes', data1, inodes', data1[pb := AddEntry(data1[pb], name, t)]);
    ShapesAfterAdd(data1, pb, name, t);
    NothingDanglesAfterAdd(inodes', data1, pb, name, t, inodes');
    DirectoryHasDots(inodes', data1, pb);
    DotsAfterAdd(inodes', data1, pb, name, t, inodes');
  }

  lemma TakesLegal(block: Block, name: string)
    requires CanTake(block, name)
    ensures LegalName(name) && block.ftype == Directory
  {
  }

  lemma FreeBlockEmpty(data: seq<Block>, f: nat)
    requires Shapes(data) && f < |data| && data[f].ftype == Free
    ensures data[f].dirList == []
  {
  }

  // ----- writeFile -----

  function WithBlock(inodes: seq<Inode>, t: nat, f: nat): seq<Inode>
    requires t < |inodes|
  {
    inodes[t := inodes[t].(addr := f)]
  }

  function Filled(data: seq<Block>, f: nat, contents: string): seq<Block>
    requires f < |data|
  {
    data[f := data[f].(ftype := File, contents := contents)]
  }

  lemma OwnersWithBlock(inodes: seq<Inode>, data: seq<Block>, t: nat, f: nat, contents: string)
    requires Addresses(inodes, data) && NoSharing(inodes) && NoLostBlocks(inodes, data)
    requires t < |inodes| && f < |data|
    requires inodes[t].ftype == File && inodes[t].addr == -1 && data[f].ftype == Free
    ensures var inodes', data' := WithBlock(inodes, t, f), Filled(data, f, contents);
            Addresses(inodes', data') && NoSharing(inodes') && NoLostBlocks(inodes', data')
    ensures forall i :: 0 <= i < |inodes| ==> inodes[i].addr != f
  {
    var inodes', data' := WithBlock(inodes, t, f), Filled(data, f, contents);
    assert forall i :: 0 <= i < |inodes| ==> inodes[i].addr != f;
    assert forall i, b :: b != -1 ==> (Owns(inodes', i, b) <==> Owns(inodes, i, b) || (i == t && b == f));
    assert Owns(inodes', t, f);
  }

  lemma WriteKeepsStructure(inodes: seq<Inode>, data: seq<Block>, t: nat, f: nat, contents: string)
    requires Structure(inodes, data) && t < |inodes| && f < |data|
    requires inodes[t].ftype == File && inodes[t].addr == -1 && data[f].ftype == Free
    ensures Structure(WithBlock(inodes, t, f), Filled(data, f, contents))
  {
    hide Addresses, NoSharing, NoLostBlocks, Shapes, NothingDangles, Dots, DotDots, Counts;
    OwnersWithBlock(inodes, data, t, f, contents);
    EntriesWithBlock(inodes, data, t, f, contents);
  }

  lemma EntriesWithBlock(inodes: seq<Inode>, data: seq<Block>, t: nat, f: nat, contents: string)
    requires Shapes(data) && NothingDangles(inodes, data) && Counts(inodes, data)
    requires Dots(inodes, data) && DotDots(inodes, data)
    requires t < |inodes| && f < |data| && inodes[t].ftype == File && data[f].ftype == Free
    ensures var inodes', data' := WithBlock(inodes, t, f), Filled(data, f, contents);
            && Shapes(data') && NothingDangles(inodes', data') && Counts(inodes', data')
            && Dots(inodes', data') && DotDots(inodes', data')
  {
    hide LegalName, References;
    var inodes', data' := WithBlock(inodes, t, f), Filled(data, f, contents);
    assert forall b :: 0 <= b < |data| ==> data'[b].dirList == data[b].dirList && data'[b].dirUsed == data[b].dirUsed;
    assert forall i :: IsLive(inodes', i) == IsLive(inodes, i) && IsDir(inodes', i) == IsDir(inodes, i);
    forall i ensures References(data', i) == References(data, i) {
      ReferencesSame(data, data', i);
    }
  }

  // ----- deleteFile -----

  /** Where the entry that a deletion removes stands: behind the dots. */
  lemma EntryPosition(inodes: seq<Inode>, data: seq<Block>, d: nat, name: string, t: nat) returns (k: nat)
    requires Dots(inodes, data) && DotDots(inodes, data) && Shapes(data)
    requires IsDir(inodes, d) && 0 <= inodes[d].addr < |data|
    requires LegalName(name) && Entry(name, t) in data[inodes[d].addr].dirList
    ensures var list := data[inodes[d].addr].dirList;
            && 2 <= k < |list| && list[k] == Entry(name, t)
            && RemoveName(list, name) == list[..k] + list[k + 1..]
  {
    var list := data[inodes[d].addr].dirList;
    k :| 0 <= k < |list| && list[k] == Entry(name, t);
    assert list[0].name == "." && list[1].name == "..";
    RemoveNameAt(list, name, k);
  }

  function WithoutEntry(data: seq<Block>, pb: nat, name: string): seq<Block>
    requires pb < |data|
  {
    data[pb := RemoveEntry(data[pb], name)]
  }

  lemma CountsAfterRemove(data: seq<Block>, pb: nat, name: string, k: nat, i: int)
    requires pb < |data| && k < |data[pb].dirList|
    requires RemoveName(data[pb].dirList, name) == data[pb].dirList[..k] + data[pb].dirList[k + 1..]
    ensures References(WithoutEntry(data, pb, name), i)
         == References(data, i) - (if data[pb].dirList[k].inum == i then 1 else 0)
  {
    ReferencesUpdate(data, pb, RemoveEntry(data[pb], name), i);
    OccurrencesSplit(data[pb].dirList, k, i);
  }

  lemma ShapesAfterRemove(data: seq<Block>, pb: nat, name: string, k: nat)
    requires Shapes(data) && pb < |data| && k < |data[pb].dirList|
    requires RemoveName(data[pb].dirList, name) == data[pb].dirList[..k] + data[pb].dirList[k + 1..]
    ensures Shapes(WithoutEntry(data, pb, name))
  {
    var list, list' := data[pb].dirList, RemoveName(data[pb].dirList, name);
    forall a, b | 0 <= a < b < |list'| ensures list'[a].name != list'[b].name {
      assert list'[a] == list[if a < k then a else a + 1];
      assert list'[b] == list[if b < k then b else b + 1];
    }
  }

  /** A listed entry after the removal was there before. */
  lemma EntriesAfterRemove(data: seq<Block>, pb: nat, name: string, k: nat, b: nat, j: nat) returns (j': nat)
    requires pb < |data| && k < |data[pb].dirList|
    requires RemoveName(data[pb].dirList, name) == data[pb].dirList[..k] + data[pb].dirList[k + 1..]
    requires b < |data| && j < |WithoutEntry(data, pb, name)[b].dirList|
    ensures j' < |data[b].dirList| && WithoutEntry(data, pb, name)[b].dirList[j] == data[b].dirList[j']
    ensures j < k ==> j' == j
    ensures j >= 2 && k >= 2 ==> j' >= 2
  {
    j' := if b == pb && j >= k then j + 1 else j;
  }

  lemma DotsAfterRemove(inodes: seq<Inode>, data: seq<Block>, pb: nat, name: string, k: nat, inodes': seq<Inode>)
    requires Dots(inodes, data) && DotDots(inodes, data) && pb < |data| && 2 <= k < |data[pb].dirList|
    requires RemoveName(data[pb].dirList, name) == data[pb].dirList[..k] + data[pb].dirList[k + 1..]
    requires |inodes'| == |inodes| && forall i :: IsDir(inodes', i) <==> IsDir(inodes, i)
    requires forall i :: IsDir(inodes, i) ==> inodes'[i].addr == inodes[i].addr
    ensures Dots(inodes', WithoutEntry(data, pb, name)) && DotDots(inodes', WithoutEntry(data, pb, name))
  {
    hide LegalName;
    var data' := WithoutEntry(data, pb, name);
    forall i | IsDir(inodes', i) && 0 <= inodes'[i].addr < |data'|
      ensures var list := data'[inodes'[i].addr].dirList;
              && |list| >= 2 && list[0] == Entry(".", i)
              && forall j :: 2 <= j < |list| ==> LegalName(list[j].name)
    {
      var b: nat := inodes[i].addr;
      var list' := data'[b].dirList;
      forall j | 2 <= j < |list'| ensures LegalName(list'[j].name) {
        var j' := EntriesAfterRemove(data, pb, name, k, b, j);
      }
    }
    forall b | 0 <= b < |data'| && |data'[b].dirList| >= 2
      ensures data'[b].dirList[1].name == ".." && IsDir(inodes', data'[b].dirList[1].inum)
    {
      assert data'[b].dirList[1] == data[b].dirList[1];
    }
  }

  /** The entry goes, the inode stays with one reference less. */
  lemma UnlinkKeepsStructure(inodes: seq<Inode>, data: seq<Block>, d: nat, name: string, t: nat)
    requires Structure(inodes, data) && IsDir(inodes, d) && IsFile(inodes, t) && LegalName(name)
    requires 0 <= inodes[d].addr < |data| && Entry(name, t) in data[inodes[d].addr].dirList
    requires inodes[t].refCnt != 1
    ensures Structure(inodes[t := inodes[t].(refCnt := inodes[t].refCnt - 1)], WithoutEntry(data, inodes[d].addr, name))
  {
    hide Addresses, NoSharing, NoLostBlocks, Shapes, NothingDangles, Dots, DotDots, Counts, References, WithoutEntry;
    var pb: nat := inodes[d].addr;
    var k := EntryPosition(inodes, data, d, name, t);
    var inodes' := inodes[t := inodes[t].(refCnt := inodes[t].refCnt - 1)];
    var data' := WithoutEntry(data, pb, name);
    WithoutEntryTypes(data, pb, name);
    SameOwners(inodes, data, inodes', data');
    ShapesAfterRemove(data, pb, name, k);
    DotsAfterRemove(inodes, data, pb, name, k, inodes');
    InodeFacts(inodes, data, t);
    NothingDanglesAfterRemove(inodes, data, pb, name, k, inodes');
    CountsAfterUnlink(inodes, data, pb, name, k, t, inodes');
  }

  lemma WithoutEntryTypes(data: seq<Block>, pb: nat, name: string)
    requires pb < |data|
    ensures |WithoutEntry(data, pb, name)| == |data|
    ensures forall b :: 0 <= b < |data| ==> WithoutEntry(data, pb, name)[b].ftype == data[b].ftype
  {
  }

  lemma NothingDanglesAfterRemove(inodes: seq<Inode>, data: seq<Block>, pb: nat, name: string, k: nat,
        inodes': seq<Inode>)
    requires NothingDangles(inodes, data) && pb < |data| && k < |data[pb].dirList|
    requires RemoveName(data[pb].dirList, name) == data[pb].dirList[..k] + data[pb].dirList[k + 1..]
    requires |inodes'| == |inodes|
    requires forall i :: IsLive(inodes, i) ==> IsLive(inodes', i) || References(WithoutEntry(data, pb, name), i) == 0
    ensures NothingDangles(inodes', WithoutEntry(data, pb, name))
  {
    hide References;
    var data' := WithoutEntry(data, pb, name);
    forall b, j | 0 <= b < |data'| && 0 <= j < |data'[b].dirList|
      ensures IsLive(inodes', data'[b].dirList[j].inum)
    {
      var j' := EntriesAfterRemove(data, pb, name, k, b, j);
      assert IsLive(inodes, data[b].dirList[j'].inum);
      ReferenceCounted(data', b, j);
    }
  }

  lemma CountsAfterUnlink(inodes: seq<Inode>, data: seq<Block>, pb: nat, name: string, k: nat, t: nat,
        inodes': seq<Inode>)
    requires Counts(inodes, data) && pb < |data| && k < |data[pb].dirList| && t < |inodes| == |inodes'|
    requires RemoveName(data[pb].dirList, name) == data[pb].dirList[..k] + data[pb].dirList[k + 1..]
    requires data[pb].dirList[k].inum == t && inodes[t].ftype != Free
    requires forall i :: 0 <= i < |inodes| && i != t ==> inodes'[i] == inodes[i]
    requires if inodes[t].refCnt == 1 then inodes'[t].ftype == Free
             else inodes'[t].ftype != Free && inodes'[t].refCnt == inodes[t].refCnt - 1
    ensures Counts(inodes', WithoutEntry(data, pb, name))
  {
    hide References, WithoutEntry;
    forall i ensures References(WithoutEntry(data, pb, name), i) == References(data, i) - if i == t then 1 else 0 {
      CountsAfterRemove(data, pb, name, k, i);
    }
  }

  // ----- deleteFile of the last reference -----

  function WithoutInode(inodes: seq<Inode>, t: nat): seq<Inode>
    requires t < |inodes|
  {
    inodes[t := Inode(Free, -1, inodes[t].refCnt)]
  }

  function WithoutBlock(data: seq<Block>, addr: int): seq<Block>
    requires addr < |data|
  {
    if addr < 0 then data else data[addr := data[addr].(ftype := Free, contents := "")]
  }

  lemma OwnersWithoutInode(inodes: seq<Inode>, data: seq<Block>, t: nat)
    requires Addresses(inodes, data) && NoSharing(inodes) && NoLostBlocks(inodes, data)
    requires IsFile(inodes, t)
    ensures var inodes', data' := WithoutInode(inodes, t), WithoutBlock(data, inodes[t].addr);
            Addresses(inodes', data') && NoSharing(inodes') && NoLostBlocks(inodes', data')
  {
    var addr := inodes[t].addr;
    var inodes', data' := WithoutInode(inodes, t), WithoutBlock(data, addr);
    assert Owns(inodes, t, addr);
    assert forall i, b :: b != -1 ==> (Owns(inodes', i, b) <==> Owns(inodes, i, b) && i != t);
    assert forall i :: 0 <= i < |inodes| && i != t && addr != -1 && inodes[i].ftype != Free ==>
      Owns(inodes, i, inodes[i].addr);
    forall b | 0 <= b < |data'| && data'[b].ftype != Free ensures exists i :: Owns(inodes', i, b) {
      var i :| Owns(inodes, i, b);
      assert Owns(inodes', i, b);
    }
  }

  lemma EntriesWithoutBlock(inodes: seq<Inode>, data: seq<Block>, addr: int)
    requires Shapes(data) && NothingDangles(inodes, data) && Counts(inodes, data)
    requires Dots(inodes, data) && DotDots(inodes, data)
    requires -1 <= addr < |data| && (addr >= 0 ==> data[addr].ftype == File)
    ensures var data' := WithoutBlock(data, addr);
            && Shapes(data') && NothingDangles(inodes, data') && Counts(inodes, data')
            && Dots(inodes, data') && DotDots(inodes, data')
    ensures forall b :: 0 <= b < |data| ==> WithoutBlock(data, addr)[b].dirList == data[b].dirList
  {
    hide LegalName, References;
    var data' := WithoutBlock(data, addr);
    forall i ensures References(data', i) == References(data, i) {
      ReferencesSame(data, data', i);
    }
  }

  lemma DeleteKeepsStructure(inodes: seq<Inode>, data: seq<Block>, d: nat, name: string, t: nat)
    requires Structure(inodes, data) && IsDir(inodes, d) && IsFile(inodes, t) && LegalName(name)
    requires 0 <= inodes[d].addr < |data| && Entry(name, t) in data[inodes[d].addr].dirList
    requires inodes[t].refCnt == 1 && -1 <= inodes[t].addr < |data|
    ensures Structure(WithoutInode(inodes, t), WithoutEntry(WithoutBlock(data, inodes[t].addr), inodes[d].addr, name))
  {
    hide Addresses, NoSharing, NoLostBlocks, Shapes, NothingDangles, Dots, DotDots, Counts, References, WithoutEntry,
        WithoutBlock;
    assert inodes[t].addr >= 0 ==> data[inodes[t].addr].ftype == File by { FileBlock(inodes, data, t); }
    var pb: nat := inodes[d].addr;
    var inodes', data1 := WithoutInode(inodes, t), WithoutBlock(data, inodes[t].addr);
    WithoutBlockSize(data, inodes[t].addr);
    OwnersWithoutInode(inodes, data, t);
    EntriesWithoutBlock(inodes, data, inodes[t].addr);
    var k := EntryPosition(inodes, data1, d, name, t);
    var data' := WithoutEntry(data1, pb, name);
    WithoutEntryTypes(data1, pb, name);
    SameOwners(inodes', data1, inodes', data');
    ShapesAfterRemove(data1, pb, name, k);
    DotsAfterRemove(inodes, data1, pb, name, k, inodes');
    InodeFacts1(inodes, data1, t);
    CountsAfterRemove(data1, pb, name, k, t);
    NothingDanglesAfterRemove(inodes, data1, pb, name, k, inodes');
    CountsAfterUnlink(inodes, data1, pb, name, k, t, inodes');
  }

  lemma FileBlock(inodes: seq<Inode>, data: seq<Block>, t: nat)
    requires Addresses(inodes, data) && IsFile(inodes, t)
    ensures -1 <= inodes[t].addr < |data| && (inodes[t].addr >= 0 ==> data[inodes[t].addr].ftype == File)
  {
  }

  lemma WithoutBlockSize(data: seq<Block>, addr: int)
    requires addr < |data|
    ensures |WithoutBlock(data, addr)| == |data|
  {
  }

  lemma InodeFacts1(inodes: seq<Inode>, data: seq<Block>, t: nat)
    requires Counts(inodes, data) && IsFile(inodes, t)
    ensures inodes[t].refCnt == References(data, t) >= 1
  {
  }
}
