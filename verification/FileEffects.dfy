/** What each request does, seen through the paths: which paths there are, which inodes they name, and what these
hold. */
module FileEffects {
  import opened Directories
  import opened FileCounting
  import opened FileInvariant
  import opened FileSystem
  import opened FileTheorems
  import opened Options
  import opened Sequences

  /** What a file holds; None while it has no block. */
  function ContentsOf(s: Disk, i: int): Option<string> {
    if 0 <= i < |s.inodes| && 0 <= s.inodes[i].addr < |s.data| then Some(s.data[s.inodes[i].addr].contents) else None
  }

  /** The same paths, naming the same inodes, but for p. */
  ghost predicate SamePaths(s: Disk, s': Disk, p: Path) {
    forall q :: q != p ==>
      && (q in s'.files <==> q in s.files) && (q in s'.dirs <==> q in s.dirs)
      && (Listed(s, q) ==> InumOf(s', q) == InumOf(s, q))
  }

  /** The same inodes but for i. */
  ghost predicate SameInodes(s: Disk, s': Disk, i: int) {
    && |s'.inodes| == |s.inodes|
    && forall j :: 0 <= j < |s.inodes| && j != i ==> s'.inodes[j] == s.inodes[j]
  }

  /** All files but i hold what they held. */
  ghost predicate SameContents(s: Disk, s': Disk, i: int) {
    forall j :: IsFile(s.inodes, j) && j != i ==> ContentsOf(s', j) == ContentsOf(s, j)
  }

  /** The directory has room, and the path is new. */
  predicate Enterable(s: Disk, parent: Path, name: string) {
    |DirectoryOf(s, parent)| < MAX_USED && !Listed(s, parent + [name])
  }

  lemma EnterableIff(s: Disk, parent: Path, name: string)
    requires Inv(s) && parent in s.dirs && LegalName(name)
    ensures CanEnter(s, parent, name) <==> Enterable(s, parent, name)
  {
    hide Bits, Structure, TableTyped, ListedEntered, EntriesListed, OnePath, ParentsNamed, DirectoryOf, LegalName;
    var list := DirectoryOf(s, parent);
    assert s.data[BlockOf(s, parent)].dirUsed == |list| by { RoomUsed(s, BlockOf(s, parent)); }
    if HasName(list, name) {
      var k :| 0 <= k < |list| && list[k].name == name;
      assert list[k] == Entry(name, list[k].inum);
      ListedBy(s, parent, list[k]);
    } else {
      FreshPath(s, parent, name);
    }
  }

  lemma RoomUsed(s: Disk, b: nat)
    requires Inv(s) && b < |s.data|
    ensures s.data[b].dirUsed == |s.data[b].dirList|
  {
    hide Bits, Table, Addresses, NoSharing, NoLostBlocks, NothingDangles, Dots, DotDots, Counts;
  }

  // ----- link -----

  ghost predicate Linked(s: Disk, s': Disk, target: Path, p: Path) {
    var t := InumOf(s, target);
    && p in s'.files && p !in s'.dirs && InumOf(s', p) == t == InumOf(s', target) && SamePaths(s, s', p)
    && SameInodes(s, s', t) && 0 <= t < |s.inodes|
    && s'.inodes[t] == s.inodes[t].(refCnt := s.inodes[t].refCnt + 1)
    && SameContents(s, s', -1)
  }

  lemma LinkDone(s: Disk, target: Path, name: string, parent: Path)
    requires Inv(s) && Enabled(s, Link(target, name, parent)) && CanEnter(s, parent, name)
    ensures Linked(s, Apply(s, Link(target, name, parent)), target, parent + [name])
  {
    hide Bits, Structure, Table, LegalName, HasName, BitmapOk, DirectoryOf, FirstFree;
    NotListed(s, parent, name);
    var s', p, t, b := Apply(s, Link(target, name, parent)), parent + [name], InodeOf(s, target), BlockOf(s, parent);
    assert s'.files == s.files + [p] && s'.dirs == s.dirs && s'.nameToInum == s.nameToInum[p := t];
    assert s'.inodes == s.inodes[t := s.inodes[t].(refCnt := s.inodes[t].refCnt + 1)];
    assert s'.data == s.data[b := AddEntry(s.data[b], name, t)];
    hide Apply, CreateLink, Enabled, CanEnter;
    assert forall q :: q in s'.files <==> q in s.files || q == p;
  }

  /** A link succeeds if and only if the directory has room and the path is new. Then the new path names the inode of
  the target, which has one reference more; nothing else changes. */
  lemma LinkEffect(s: Disk, target: Path, name: string, parent: Path)
    requires Inv(s) && Enabled(s, Link(target, name, parent))
    ensures CreateLink(s, target, name, parent).1 >= 0 <==> Enterable(s, parent, name)
    ensures var s' := Apply(s, Link(target, name, parent));
            if Enterable(s, parent, name) then Linked(s, s', target, parent + [name]) else s' == s
  {
    EnterableIff(s, parent, name);
    assert CreateLink(s, target, name, parent).1 >= 0 <==> Enterable(s, parent, name) by {
      hide Bits, Structure, Table, LegalName, HasName, DirectoryOf, Enterable, FirstFree;
    }
    hide *;
    if Enterable(s, parent, name) {
      LinkDone(s, target, name, parent);
    } else {
      FailureChangesNothing(s, Link(target, name, parent));
    }
  }

  // ----- create -----

  /** A new file has the first free inode, no block and one reference; nothing else changes. */
  lemma CreateFileEffect(s: Disk, parent: Path, name: string)
    requires Inv(s) && Enabled(s, Create(parent, name, File)) && CreateFile(s, parent, name, File).1 >= 0
    ensures var s', p := Apply(s, Create(parent, name, File)), parent + [name];
            var t := InumOf(s', p);
            && !Listed(s, p) && p in s'.files && p !in s'.dirs && SamePaths(s, s', p)
            && 0 <= t < |s.inodes| && s.inodes[t].ftype == FileType.Free
            && (forall i :: 0 <= i < t ==> s.inodes[i].ftype != FileType.Free)
            && SameInodes(s, s', t) && s'.inodes[t] == Inode(File, -1, 1)
            && ContentsOf(s', t) == None && SameContents(s, s', -1)
  {
    hide Structure, Table, LegalName, HasName, BitmapOk, DirectoryOf;
    NotListed(s, parent, name);
    FirstFreeIsFirst(s.ibitmap.bits, 0);
    var s', p := Apply(s, Create(parent, name, File)), parent + [name];
    assert forall q :: q in s'.files <==> q in s.files || q == p;
  }

  lemma {:induction false} FirstFreeIsFirst(bits: seq<bool>, from: nat)
    requires from <= |bits|
    ensures forall i :: from <= i < FirstFree(bits, from) ==> bits[i]
    decreases |bits| - from
  {
    if from < |bits| {
      FirstFreeIsFirst(bits, from + 1);
    }
  }

  /** A new directory has the first free inode and a free block with the entries for itself and its parent, which has
  one reference more; nothing else changes. */
  lemma CreateDirectoryEffect(s: Disk, parent: Path, name: string)
    requires Inv(s) && Enabled(s, Create(parent, name, Directory)) && CreateFile(s, parent, name, Directory).1 >= 0
    ensures var s', p, up := Apply(s, Create(parent, name, Directory)), parent + [name], InumOf(s, parent);
            var t := InumOf(s', p);
            && !Listed(s, p) && p in s'.dirs && p !in s'.files && SamePaths(s, s', p)
            && 0 <= up < |s.inodes| && 0 <= t < |s.inodes| && s.inodes[t].ftype == FileType.Free
            && (forall i :: 0 <= i < t ==> s.inodes[i].ftype != FileType.Free)
            && |s'.inodes| == |s.inodes|
            && (forall i :: 0 <= i < |s.inodes| && i != t && i != up ==> s'.inodes[i] == s.inodes[i])
            && s'.inodes[up] == s.inodes[up].(refCnt := s.inodes[up].refCnt + 1)
            && s'.inodes[t].ftype == Directory && s'.inodes[t].refCnt == 2
            && DirectoryOf(s', p) == [Entry(".", t), Entry("..", up)] && SameContents(s, s', -1)
  {
    hide Structure, Table, LegalName, HasName, BitmapOk, DirectoryOf;
    NotListed(s, parent, name);
    FirstFreeIsFirst(s.ibitmap.bits, 0);
    var s', p := Apply(s, Create(parent, name, Directory)), parent + [name];
    var f := FreeBlock(s);
    assert forall q :: q in s'.dirs <==> q in s.dirs || q == p;
    EmptyWhenFree(s, f);
    DirectoryAt(s', p, FreeInode(s), f);
    hide Bits;
    forall j | IsFile(s.inodes, j)
      ensures ContentsOf(s', j) == ContentsOf(s, j)
    {
      FileBlockOf(s, j);
    }
  }

  // ----- unlink -----

  /** The inode loses a reference; with the last one it becomes free, and so does its block. */
  ghost predicate Dropped(s: Disk, s': Disk, t: int) {
    && 0 <= t < |s.inodes| && SameInodes(s, s', t) && |s'.data| == |s.data|
    && (if s.inodes[t].refCnt == 1 then s'.inodes[t] == Inode(Free, -1, 1)
        else s'.inodes[t] == s.inodes[t].(refCnt := s.inodes[t].refCnt - 1) && ContentsOf(s', t) == ContentsOf(s, t))
    && (forall b :: 0 <= b < |s.data| ==>
          (s'.data[b].ftype == FileType.Free <==>
           s.data[b].ftype == FileType.Free || (s.inodes[t].refCnt == 1 && s.inodes[t].addr == b)))
  }

  /** The blocks after the inode has lost a reference. */
  function Released(s: Disk, t: int): seq<Block>
    requires 0 <= t < |s.inodes| && -1 <= s.inodes[t].addr < |s.data|
  {
    var n := s.inodes[t];
    if n.refCnt == 1 && n.addr != -1 then s.data[n.addr := s.data[n.addr].(ftype := Free, contents := "")] else s.data
  }

  function Lowered(n: Inode): Inode {
    if n.refCnt == 1 then Inode(Free, -1, 1) else n.(refCnt := n.refCnt - 1)
  }

  /** The disk after the path's entry in block b and a reference to inode t are gone. */
  ghost predicate Unlinked(s: Disk, s': Disk, t: int, b: int, name: string) {
    && IsFile(s.inodes, t) && 0 <= b < |s.data| && s.data[b].ftype == Directory
    && -1 <= s.inodes[t].addr < |s.data| && (s.inodes[t].addr >= 0 ==> s.data[s.inodes[t].addr].ftype == File)
    && s'.data == Released(s, t)[b := RemoveEntry(Released(s, t)[b], name)]
    && s'.inodes == s.inodes[t := Lowered(s.inodes[t])]
  }

  lemma UnlinkParts(s: Disk, file: Path)
    requires Inv(s) && file in s.files
    ensures file != [] && Parent(file) in s.dirs
    ensures Unlinked(s, Apply(s, Unlink(file)), InumOf(s, file), BlockOf(s, Parent(file)), Last(file))
  {
    hide Bits, Structure, Table, LegalName, HasName, BitmapOk, DirectoryOf, FirstFree, RemoveFirst, RemoveName;
    FileFacts(s, file);
    FileBlockOf(s, InodeOf(s, file));
  }

  predicate FileRemoved(s: Disk, s': Disk, file: Path) {
    s'.files == RemoveFirst(s.files, file) && s'.dirs == s.dirs && s'.nameToInum == s.nameToInum
  }

  lemma UnlinkTable(s: Disk, file: Path)
    requires Inv(s) && file in s.files
    ensures FileRemoved(s, Apply(s, Unlink(file)), file)
  {
    hide Bits, Structure, Table, LegalName, HasName, BitmapOk, DirectoryOf, FirstFree, RemoveFirst, RemoveEntry;
    FileFacts(s, file);
  }

  lemma UnlinkedDropped(s: Disk, s': Disk, t: int, b: int, name: string)
    requires Unlinked(s, s', t, b, name)
    requires forall j ::
               IsFile(s.inodes, j) && j != t && s.inodes[j].addr != -1 ==> s.inodes[j].addr != s.inodes[t].addr
    ensures Dropped(s, s', t) && SameContents(s, s', t)
  {
    hide RemoveName;
  }

  ghost predicate Gone(s: Disk, s': Disk, file: Path) {
    var t := InumOf(s, file);
    !Listed(s', file) && SamePaths(s, s', file) && Dropped(s, s', t) && SameContents(s, s', t)
  }

  /** Exactly the path goes, and a reference to its inode; nothing else changes. */
  lemma UnlinkEffect(s: Disk, file: Path)
    requires Inv(s) && file in s.files
    ensures Gone(s, Apply(s, Unlink(file)), file)
  {
    hide Inv, Apply, RemoveName, RemoveFirst, BlockOf, Dropped, SameContents, DirectoryOf, Released, Lowered;
    UnlinkParts(s, file);
    UnlinkTable(s, file);
    PathGone(s, file);
    var s', t := Apply(s, Unlink(file)), InumOf(s, file);
    forall j | IsFile(s.inodes, j) && j != t && s.inodes[j].addr != -1
      ensures s.inodes[j].addr != s.inodes[t].addr
    {
      OwnBlocks(s, t, j);
    }
    UnlinkedDropped(s, s', t, BlockOf(s, Parent(file)), Last(file));
  }

  lemma PathGone(s: Disk, file: Path)
    requires Inv(s) && file in s.files
    ensures file !in s.dirs
    ensures forall q :: q in RemoveFirst(s.files, file) <==> q in s.files && q != file
  {
    hide Bits, Structure, ListedEntered, EntriesListed, OnePath, ParentsNamed;
    var j :| 0 <= j < |s.files| && s.files[j] == file;
    RemoveFirstAt(s.files, file, j);
    assert IsFile(s.inodes, InumOf(s, file));
  }

  lemma OwnBlocks(s: Disk, i: int, j: int)
    requires Inv(s) && IsLive(s.inodes, i) && IsLive(s.inodes, j) && i != j
    ensures s.inodes[i].addr == s.inodes[j].addr ==> s.inodes[i].addr == -1
  {
    hide Bits, Table, Addresses, NoLostBlocks, Shapes, NothingDangles, Dots, DotDots, Counts;
    assert Owns(s.inodes, i, s.inodes[i].addr) && Owns(s.inodes, j, s.inodes[j].addr);
  }

  // ----- write -----

  ghost predicate Written(s: Disk, s': Disk, t: int, contents: string) {
    && ContentsOf(s', t) == Some(contents) && SameContents(s, s', t)
    && SameInodes(s, s', t) && 0 <= t < |s.inodes| && s'.inodes[t] == s.inodes[t].(addr := s'.inodes[t].addr)
    && s'.files == s.files && s'.dirs == s.dirs && s'.nameToInum == s.nameToInum
  }

  predicate SomeBlockFree(s: Disk) {
    exists b :: 0 <= b < |s.data| && s.data[b].ftype == FileType.Free
  }

  /** A write succeeds if and only if the file holds nothing yet and a block is free. Then the file holds what was
  written, under all of its paths; nothing else changes. */
  lemma WriteEffect(s: Disk, file: Path, contents: string)
    requires Inv(s) && file in s.files
    ensures WriteFile(s, file, contents).1 <==> ContentsOf(s, InumOf(s, file)) == None && SomeBlockFree(s)
    ensures WriteFile(s, file, contents).1 ==>
              Written(s, Apply(s, Write(file, contents)), InumOf(s, file), contents)
  {
    hide Structure, Table, LegalName, HasName, BitmapOk, DirectoryOf;
    var t := InodeOf(s, file);
    FileBlockOf(s, t);
    assert FreeBlock(s) == -1 <==> !SomeBlockFree(s) by {
      FirstFreeFinds(s.dbitmap.bits, 0);
    }
    hide Bits;
    if WriteFile(s, file, contents).1 {
      var s' := Apply(s, Write(file, contents));
      forall j | IsFile(s.inodes, j) && j != t
        ensures ContentsOf(s', j) == ContentsOf(s, j)
      {
        FileBlockOf(s, j);
      }
    }
  }

  // ----- through the paths -----

  /** What is found at the end of a path. */
  function Read(s: Disk, p: Path): Option<string> {
    var i :- Walk(s, p);
    ContentsOf(s, i)
  }

  lemma {:induction false} ListedLegal(s: Disk, p: Path)
    requires ListedEntered(s) && Listed(s, p)
    ensures forall k :: 0 <= k < |p| ==> LegalName(p[k])
    decreases |p|
  {
    hide LegalName, ListedEntered, DirectoryOf, InumOf;
    if p != [] {
      Entered(s, p);
      ListedLegal(s, Parent(p));
    }
  }

  lemma ReadListed(s: Disk, p: Path)
    requires Inv(s) && Listed(s, p)
    ensures Read(s, p) == ContentsOf(s, InumOf(s, p))
  {
    hide Bits, Structure, TableTyped, ListedEntered, EntriesListed, OnePath, ParentsNamed, Listed, LegalName, Walk,
        ContentsOf, InumOf;
    ListedLegal(s, p);
    WalkIffListed(s, p);
  }

  /** The request could be chosen, and this is what it made of the disk. */
  ghost predicate Does(s: Disk, op: Op, s': Disk) {
    Inv(s) && Enabled(s, op) && s' == Apply(s, op)
  }

  lemma DoesKeepsInv(s: Disk, op: Op, s': Disk)
    requires Does(s, op, s')
    ensures Inv(s')
  {
    hide Inv, Apply;
    ApplyKeepsInv(s, op);
  }

  /** What is written under one name of a file is read under the other. */
  lemma WrittenOnce(s: Disk, s': Disk, p: Path, q: Path, contents: string)
    requires Does(s, Write(p, contents), s') && s' != s
    requires q in s.files && InumOf(s, p) == InumOf(s, q)
    ensures Read(s', p) == Read(s', q) == Some(contents)
    ensures p in s'.files && q in s'.files && InumOf(s', p) == InumOf(s', q)
  {
    hide Inv, Apply, Read, ContentsOf, WriteFile;
    WriteEffect(s, p, contents);
    if !WriteFile(s, p, contents).1 {
      FailureChangesNothing(s, Write(p, contents));
    }
    DoesKeepsInv(s, Write(p, contents), s');
    ReadListed(s', p);
    ReadListed(s', q);
  }

  /** A file outlives the removal of another of its names. */
  lemma OutlivesName(s: Disk, s': Disk, p: Path, q: Path)
    requires Does(s, Unlink(q), s') && p in s.files && p != q && InumOf(s, p) == InumOf(s, q)
    ensures p in s'.files && Read(s', p) == Read(s, p)
  {
    hide Inv, Apply, Read, ContentsOf, Walk;
    UnlinkEffect(s, q);
    if s.inodes[InodeOf(s, q)].refCnt == 1 {
      LastReference(s, q, p);
    }
    DoesKeepsInv(s, Unlink(q), s');
    ReadListed(s, p);
    ReadListed(s', p);
  }

  /** A link that changes the disk makes a second name of the file: what is written under it is read under the first
  name as well, and it keeps the file when the first name goes. */
  lemma HardLink(s: Disk, s1: Disk, s2: Disk, s3: Disk, target: Path, name: string, parent: Path, contents: string)
    requires Does(s, Link(target, name, parent), s1) && s1 != s
    requires Does(s1, Write(parent + [name], contents), s2) && s2 != s1
    requires Does(s2, Unlink(target), s3)
    ensures Read(s2, target) == Read(s2, parent + [name]) == Read(s3, parent + [name]) == Some(contents)
  {
    hide Inv, Apply, Read, DirectoryOf;
    var p := parent + [name];
    LinkEffect(s, target, name, parent);
    assert p != target;
    WrittenOnce(s1, s2, p, target, contents);
    OutlivesName(s2, s3, p, target);
  }
}
