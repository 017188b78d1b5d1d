/** The file system as an object that updates its bitmaps, inodes, blocks and path table in place.
Where the program asserts something about its own state, the methods assert it too. */
module FileSystemObject {
  import opened Directories
  import opened FileCounting
  import opened FileSystem
  import T = FileTheorems

  class BitmapObject {
    var bmap: seq<bool>
    var numAllocated: int

    ghost function View(): Bitmap
      reads this
    {
      Bitmap(bmap, numAllocated)
    }

    constructor (size: nat)
      ensures View() == Bitmap(seq(size, _ => false), 0)
    {
      bmap, numAllocated := seq(size, _ => false), 0;
    }

    method Alloc() returns (num: int)
      modifies this
      ensures num == FirstFree(old(bmap), 0)
      ensures View() == if num == -1 then old(View()) else Mark(old(View()), num)
    {
      for i := 0 to |bmap|
        invariant bmap == old(bmap) && numAllocated == old(numAllocated)
        invariant FirstFree(bmap, 0) == FirstFree(bmap, i)
      {
        if !bmap[i] {
          bmap := bmap[i := true];
          numAllocated := numAllocated + 1;
          return i;
        }
      }
      return -1;
    }

    method Free(num: nat)
      requires num < |bmap| && bmap[num]
      modifies this
      ensures View() == Clear(old(View()), num)
    {
      numAllocated := numAllocated - 1;
      bmap := bmap[num := false];
    }

    method MarkAllocated(num: nat)
      requires num < |bmap| && !bmap[num]
      modifies this
      ensures View() == Mark(old(View()), num)
    {
      numAllocated := numAllocated + 1;
      bmap := bmap[num := true];
    }
  }

  method DirEntryExists(block: Block, name: string) returns (r: bool)
    ensures r <==> HasName(block.dirList, name)
  {
    for i := 0 to |block.dirList|
      invariant forall k :: 0 <= k < i ==> block.dirList[k].name != name
    {
      if block.dirList[i].name == name {
        return true;
      }
    }
    return false;
  }

  /** Removes the entry; that there is one is what the program asserts. */
  method DelDirEntry(block: Block, name: string) returns (r: Block)
    requires HasName(block.dirList, name) && DistinctNames(block.dirList)
    ensures r == RemoveEntry(block, name)
  {
    for i := 0 to |block.dirList|
      invariant forall k :: 0 <= k < i ==> block.dirList[k].name != name
    {
      if block.dirList[i].name == name {
        RemoveNameAt(block.dirList, name, i);
        return block.(dirList := block.dirList[..i] + block.dirList[i + 1..], dirUsed := block.dirUsed - 1);
      }
    }
    assert false;
    r := block;
  }

  /** The reads that the requests rely on. */
  lemma PathReads(s: Disk, p: Path)
    requires Inv(s) && Listed(s, p)
    ensures p in s.nameToInum && s.nameToInum[p] == InodeOf(s, p)
  {
    hide Bits, Structure, ListedEntered, EntriesListed, OnePath, ParentsNamed;
  }

  lemma BlockRoom(s: Disk, b: nat)
    requires Inv(s) && b < |s.data|
    ensures s.data[b].dirUsed == |s.data[b].dirList| <= MAX_USED && DistinctNames(s.data[b].dirList)
  {
    hide Bits, Table, Addresses, NoSharing, NoLostBlocks, NothingDangles, Dots, DotDots, Counts;
  }

  lemma BitmapSizes(s: Disk)
    requires Inv(s)
    ensures |s.ibitmap.bits| == |s.inodes| && |s.dbitmap.bits| == |s.data|
  {
    hide Structure, Table, BitmapOk;
  }

  lemma LiveBits(s: Disk, i: nat)
    requires Inv(s) && IsLive(s.inodes, i)
    ensures i < |s.ibitmap.bits| && s.ibitmap.bits[i]
    ensures s.inodes[i].addr >= 0 ==>
              s.inodes[i].addr < |s.dbitmap.bits| == |s.data| && s.dbitmap.bits[s.inodes[i].addr]
              && s.data[s.inodes[i].addr].ftype != FileType.Free
  {
    hide Table, BitmapOk, NoSharing, NoLostBlocks, Shapes, NothingDangles, Dots, DotDots, Counts;
  }

  class Fs {
    const ibitmap: BitmapObject
    const dbitmap: BitmapObject
    var inodes: seq<Inode>
    var data: seq<Block>
    var files: seq<Path>
    var dirs: seq<Path>
    var nameToInum: map<Path, int>

    ghost function View(): Disk
      reads this, ibitmap, dbitmap
    {
      Disk(ibitmap.View(), inodes, dbitmap.View(), data, files, dirs, nameToInum)
    }

    ghost predicate Valid()
      reads this, ibitmap, dbitmap
    {
      ibitmap != dbitmap && Inv(View())
    }

    constructor (numInodes: nat, numData: nat)
      requires numInodes > 0 && numData > 0
      ensures Valid() && fresh(ibitmap) && fresh(dbitmap)
      ensures View() == Format(numInodes, numData)
    {
      hide Inv, BitmapOk;
      ibitmap := new BitmapObject(numInodes);
      dbitmap := new BitmapObject(numData);
      files, dirs, nameToInum := [], [[]], map[[] := ROOT];
      inodes := seq(numInodes, _ => Inode(Free, -1, 1));
      data := seq(numData, _ => EMPTY_BLOCK);
      new;
      ibitmap.MarkAllocated(0);
      inodes := inodes[0 := Inode(Directory, 0, 2)];
      dbitmap.MarkAllocated(0);
      assert data[0].ftype == FileType.Free;
      data := data[0 := data[0].(ftype := Directory)];
      data := data[0 := AddEntry(data[0], ".", ROOT)];
      data := data[0 := AddEntry(data[0], "..", ROOT)];
      T.FormatInv(numInodes, numData);
      assert data[0].dirList == [Entry(".", ROOT), Entry("..", ROOT)];
      assert data == Format(numInodes, numData).data;
      assert inodes == Format(numInodes, numData).inodes;
    }

    method CreateFile(parent: Path, name: string, ftype: FileType) returns (inum: int)
      requires Valid() && parent in dirs && ftype != Free
      modifies this`inodes, this`data, ibitmap, dbitmap
      ensures (View(), inum) == FileSystem.CreateFile(old(View()), parent, name, ftype)
    {
      hide Bits, Structure, Table, LegalName, DirectoryOf, HasName, BitmapOk;
      ghost var s := View();
      PathReads(s, parent);
      BitmapSizes(s);
      var pinum := nameToInum[parent];
      var pblock := inodes[pinum].addr;
      ghost var pb := BlockOf(s, parent);
      BlockRoom(s, pb);
      if MAX_USED - data[pblock].dirUsed <= 0 {
        return -1;
      }
      var taken := DirEntryExists(data[pblock], name);
      if taken {
        return -1;
      }
      ghost var t, f := FreeInode(s), FreeBlock(s);
      inum := ibitmap.Alloc();
      if inum == -1 {
        return;
      }
      var fblock, refCnt := -1, 1;
      if ftype == Directory {
        refCnt := 2;
        fblock := dbitmap.Alloc();
        if fblock == -1 {
          ibitmap.Free(inum);
          inodes := inodes[inum := Inode(Free, -1, inodes[inum].refCnt)];
          return -1;
        }
        assert data[fblock].ftype == FileType.Free;
        BlockRoom(s, fblock);
        data := data[fblock := data[fblock].(ftype := Directory)];
        data := data[fblock := AddEntry(data[fblock], ".", inum)];
        data := data[fblock := AddEntry(data[fblock], "..", pinum)];
      }
      assert data[pblock] == s.data[pblock];
      inodes := inodes[inum := Inode(ftype, fblock, refCnt)];
      if ftype == Directory {
        inodes := inodes[pinum := inodes[pinum].(refCnt := inodes[pinum].refCnt + 1)];
      }
      data := data[pblock := AddEntry(data[pblock], name, inum)];
      assert data[pblock].dirUsed <= MAX_USED;
      if ftype == Directory {
        assert View().data == PlaceDirectory(s, pinum, pblock, name, inum, fblock).data;
      }
    }

    method CreateLink(target: Path, name: string, parent: Path) returns (inum: int)
      requires Valid() && parent in dirs && target in files
      modifies this`inodes, this`data
      ensures (View(), inum) == FileSystem.CreateLink(old(View()), target, name, parent)
    {
      hide Bits, Structure, Table, LegalName, DirectoryOf, HasName, BitmapOk;
      ghost var s := View();
      PathReads(s, parent);
      PathReads(s, target);
      var parentInum := nameToInum[parent];
      var pblock := inodes[parentInum].addr;
      ghost var pb := BlockOf(s, parent);
      BlockRoom(s, pb);
      if MAX_USED - data[pblock].dirUsed <= 0 {
        return -1;
      }
      var taken := DirEntryExists(data[pblock], name);
      if taken {
        return -1;
      }
      inum := nameToInum[target];
      inodes := inodes[inum := inodes[inum].(refCnt := inodes[inum].refCnt + 1)];
      data := data[pblock := AddEntry(data[pblock], name, inum)];
      assert data[pblock].dirUsed <= MAX_USED;
    }

    method DropReference(inum: nat)
      requires Valid() && IsFile(inodes, inum)
      modifies this`inodes, this`data, ibitmap, dbitmap
      ensures View() == FileSystem.DropReference(old(View()), inum)
    {
      hide Bits, Structure, Table, LegalName, DirectoryOf, HasName, BitmapOk;
      ghost var s := View();
      LiveBits(s, inum);
      assert -1 <= inodes[inum].addr < |data| by { T.FileBlockOf(s, inum); }
      if inodes[inum].refCnt == 1 {
        var dblock := inodes[inum].addr;
        if dblock != -1 {
          dbitmap.Free(dblock);
          assert data[dblock].ftype == File by { T.FileBlockOf(s, inum); }
          data := data[dblock := data[dblock].(ftype := Free, contents := "")];
        }
        ibitmap.Free(inum);
        inodes := inodes[inum := Inode(Free, -1, inodes[inum].refCnt)];
      } else {
        inodes := inodes[inum := inodes[inum].(refCnt := inodes[inum].refCnt - 1)];
      }
    }

    /** doDelete, for the file that was picked. */
    method DeleteFile(file: Path)
      requires Valid() && file in files
      modifies this, ibitmap, dbitmap
      ensures Valid() && View() == Apply(old(View()), Unlink(file))
    {
      hide Bits, Structure, Table, LegalName, DirectoryOf, BitmapOk;
      ghost var s := View();
      T.ApplyKeepsInv(s, Unlink(file));
      T.EntryOfFile(s, file);
      PathReads(s, file);
      DropReference(nameToInum[file]);
      PathReads(s, Parent(file));
      var pinum := nameToInum[Parent(file)];
      var pblock := inodes[pinum].addr;
      ghost var pb := BlockOf(s, Parent(file));
      BlockRoom(s, pb);
      T.FileBlockOf(s, InodeOf(s, file));
      assert data[pblock].ftype == Directory;
      var block := DelDirEntry(data[pblock], Last(file));
      data := data[pblock := block];
      files := RemoveFirst(files, file);
    }

    /** doLink, for the target, name and directory that were picked. */
    method DoLink(target: Path, name: string, parent: Path) returns (done: bool)
      requires Valid() && Enabled(View(), Link(target, name, parent))
      modifies this
      ensures Valid() && View() == Apply(old(View()), Link(target, name, parent))
      ensures done <==> FileSystem.CreateLink(old(View()), target, name, parent).1 >= 0
    {
      hide Bits, Structure, Table, LegalName, DirectoryOf, BitmapOk;
      ghost var s := View();
      T.ApplyKeepsInv(s, Link(target, name, parent));
      var inum := CreateLink(target, name, parent);
      done := inum >= 0;
      if done {
        files := files + [parent + [name]];
        nameToInum := nameToInum[parent + [name] := inum];
      }
    }

    /** doCreate, for the name and directory that were picked. */
    method DoCreate(parent: Path, name: string, ftype: FileType) returns (done: bool)
      requires Valid() && Enabled(View(), Create(parent, name, ftype))
      modifies this, ibitmap, dbitmap
      ensures Valid() && View() == Apply(old(View()), Create(parent, name, ftype))
      ensures done <==> FileSystem.CreateFile(old(View()), parent, name, ftype).1 >= 0
    {
      hide Bits, Structure, Table, LegalName, DirectoryOf, BitmapOk;
      ghost var s := View();
      T.ApplyKeepsInv(s, Create(parent, name, ftype));
      var inum := CreateFile(parent, name, ftype);
      done := inum >= 0;
      if done {
        if ftype == Directory {
          dirs := dirs + [parent + [name]];
        } else {
          files := files + [parent + [name]];
        }
        nameToInum := nameToInum[parent + [name] := inum];
      }
    }

    /** doAppend, for the file that was picked. */
    method WriteFile(file: Path, contents: string) returns (done: bool)
      requires Valid() && Enabled(View(), Write(file, contents))
      modifies this`inodes, this`data, dbitmap
      ensures Valid() && View() == Apply(old(View()), Write(file, contents))
      ensures done == FileSystem.WriteFile(old(View()), file, contents).1
    {
      hide Bits, Structure, Table, LegalName, DirectoryOf, BitmapOk;
      ghost var s := View();
      T.ApplyKeepsInv(s, Write(file, contents));
      PathReads(s, file);
      BitmapSizes(s);
      var inum := nameToInum[file];
      if inodes[inum].addr != -1 {
        return false;
      }
      ghost var f := FreeBlock(s);
      var fblock := dbitmap.Alloc();
      if fblock == -1 {
        return false;
      }
      assert data[fblock].ftype == FileType.Free;
      data := data[fblock := data[fblock].(ftype := File)];
      data := data[fblock := data[fblock].(contents := contents)];
      inodes := inodes[inum := inodes[inum].(addr := fblock)];
      assert data == s.data[fblock := s.data[fblock].(ftype := File, contents := contents)];
      return true;
    }
  }
}
