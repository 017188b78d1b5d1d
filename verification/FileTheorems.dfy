/** The path table under the requests, and what holds of the file system after any run. */
module FileTheorems {
  import opened Directories
  import opened FileCounting
  import opened FileInvariant
  import opened FileSystem
  import opened Options
  import opened Sequences

  // ----- the path table: adding -----

  /** A path whose name is free in its parent is not in the table. */
  lemma FreshPath(s: Disk, parent: Path, name: string)
    requires ListedEntered(s) && parent in s.dirs && !HasName(DirectoryOf(s, parent), name)
    ensures !Listed(s, parent + [name])
  {
    var p := parent + [name];
    assert p != [] && Parent(p) == parent && Last(p) == name;
    assert Listed(s, p) ==> Entry(name, InumOf(s, p)) in DirectoryOf(s, parent);
  }

  /** A new path, entered in its parent directory. */
  ghost predicate EntryAdded(s: Disk, s': Disk, parent: Path, name: string, inum: int, isDir: bool) {
    var p := parent + [name];
    && parent in s.dirs && LegalName(name) && !HasName(DirectoryOf(s, parent), name)
    && s'.dirs == s.dirs + (if isDir then [p] else [])
    && s'.files == s.files + (if isDir then [] else [p])
    && s'.nameToInum == s.nameToInum[p := inum]
    && (forall i :: IsDir(s'.inodes, i) <==> IsDir(s.inodes, i) || (isDir && i == inum))
    && (forall i :: IsFile(s.inodes, i) ==> IsFile(s'.inodes, i))
    && (isDir ==> !IsDir(s.inodes, inum) && forall e :: e in DirectoryOf(s', p) ==> !LegalName(e.name))
    && (isDir ==> |DirectoryOf(s', p)| >= 2 && DirectoryOf(s', p)[1] == Entry("..", InumOf(s, parent)))
    && (!isDir ==> IsFile(s'.inodes, inum))
    && (forall d :: d in s.dirs && d != parent ==> DirectoryOf(s', d) == DirectoryOf(s, d))
    && DirectoryOf(s', parent) == DirectoryOf(s, parent) + [Entry(name, inum)]
  }

  /** How the table's columns change. */
  lemma AddedColumns(s: Disk, s': Disk, parent: Path, name: string, inum: int, isDir: bool)
    requires ListedEntered(s) && EntryAdded(s, s', parent, name, inum, isDir)
    ensures var p := parent + [name];
            && p != [] && Parent(p) == parent && Last(p) == name
            && !Listed(s, p)
            && (forall q :: Listed(s', q) <==> Listed(s, q) || q == p)
            && (forall d :: d in s'.dirs <==> d in s.dirs || (isDir && d == p))
            && (forall q :: Listed(s, q) ==> InumOf(s', q) == InumOf(s, q))
            && InumOf(s', p) == inum
  {
    hide DirectoryOf, LegalName, HasName, IsDir, IsFile, ListedEntered;
    FreshPath(s, parent, name);
  }

  lemma TypedAfterAdd(s: Disk, s': Disk, parent: Path, name: string, inum: int, isDir: bool)
    requires TableTyped(s) && ListedEntered(s) && EntryAdded(s, s', parent, name, inum, isDir)
    ensures TableTyped(s')
  {
    hide DirectoryOf, LegalName, HasName, IsDir, IsFile, ListedEntered;
    AddedColumns(s, s', parent, name, inum, isDir);
    assert Listed(s, []);
    assert forall d :: d in s.dirs ==> Listed(s, d);
    assert forall f :: f in s.files ==> Listed(s, f);
  }

  lemma EnteredAfterAdd(s: Disk, s': Disk, parent: Path, name: string, inum: int, isDir: bool)
    requires ListedEntered(s) && EntryAdded(s, s', parent, name, inum, isDir)
    ensures ListedEntered(s')
  {
    AddedColumns(s, s', parent, name, inum, isDir);
    hide LegalName, HasName, IsDir, IsFile, DirectoryOf;
    var p := parent + [name];
    forall q | Listed(s', q) && q != []
      ensures Parent(q) in s'.dirs && LegalName(Last(q)) && Entry(Last(q), InumOf(s', q)) in DirectoryOf(s', Parent(q))
    {
      if q == p {
        assert DirectoryOf(s', parent)[|DirectoryOf(s, parent)|] == Entry(name, inum);
      } else {
        assert Listed(s, q);
        assert Entry(Last(q), InumOf(s, q)) in DirectoryOf(s, Parent(q));
      }
    }
  }

  lemma EntriesAfterAdd(s: Disk, s': Disk, parent: Path, name: string, inum: int, isDir: bool)
    requires ListedEntered(s) && EntriesListed(s) && EntryAdded(s, s', parent, name, inum, isDir)
    ensures EntriesListed(s')
  {
    AddedColumns(s, s', parent, name, inum, isDir);
    hide LegalName, HasName, IsDir, IsFile, DirectoryOf, ListedEntered;
    forall d, e | d in s'.dirs && e in DirectoryOf(s', d) && LegalName(e.name)
      ensures Listed(s', d + [e.name])
    {
      if d in s.dirs && !(d == parent && e == Entry(name, inum)) {
        assert e in DirectoryOf(s, d);
      }
    }
  }

  lemma TypeFacts(s: Disk, s': Disk, parent: Path, name: string, inum: int, isDir: bool)
    requires TableTyped(s) && EntryAdded(s, s', parent, name, inum, isDir)
    ensures forall i :: IsDir(s'.inodes, i) <==> IsDir(s.inodes, i) || (isDir && i == inum)
    ensures isDir ==> !IsDir(s.inodes, inum)
    ensures forall d :: d in s.dirs ==> IsDir(s.inodes, InumOf(s, d))
  {
  }

  lemma OnePathAfterAdd(s: Disk, s': Disk, parent: Path, name: string, inum: int, isDir: bool)
    requires TableTyped(s) && ListedEntered(s) && OnePath(s) && EntryAdded(s, s', parent, name, inum, isDir)
    ensures OnePath(s')
  {
    AddedColumns(s, s', parent, name, inum, isDir);
    TypeFacts(s, s', parent, name, inum, isDir);
    hide LegalName, HasName, IsDir, IsFile, DirectoryOf, ListedEntered, TableTyped, EntryAdded, InumOf, OnePath;
    var p := parent + [name];
    forall d | d in s.dirs ensures d in s'.dirs && InumOf(s', d) == InumOf(s, d) {
      DirListed(s, d);
    }
    hide Listed;
    forall d, d' | d in s'.dirs && d' in s'.dirs && InumOf(s', d) == InumOf(s', d') ensures d == d' {
      if d in s.dirs && d' in s.dirs {
        SameDirectory(s, d, d');
      }
    }
    forall i | IsDir(s'.inodes, i) ensures exists d :: d in s'.dirs && InumOf(s', d) == i {
      var d := p;
      if IsDir(s.inodes, i) {
        d := PathOfDirectory(s, i);
      }
      assert d in s'.dirs && InumOf(s', d) == i;
    }
    assert OnePath(s') by { IsOnePath(s'); }
  }

  lemma SameDirectory(s: Disk, d: Path, d': Path)
    requires OnePath(s) && d in s.dirs && d' in s.dirs && InumOf(s, d) == InumOf(s, d')
    ensures d == d'
  {
  }

  lemma IsOnePath(s: Disk)
    requires forall d, d' :: d in s.dirs && d' in s.dirs && InumOf(s, d) == InumOf(s, d') ==> d == d'
    requires forall i :: IsDir(s.inodes, i) ==> exists d :: d in s.dirs && InumOf(s, d) == i
    ensures OnePath(s)
  {
    hide IsDir, InumOf;
  }

  lemma ParentsAfterAdd(s: Disk, s': Disk, parent: Path, name: string, inum: int, isDir: bool)
    requires TableTyped(s) && ListedEntered(s) && ParentsNamed(s) && EntryAdded(s, s', parent, name, inum, isDir)
    ensures ParentsNamed(s')
  {
    AddedColumns(s, s', parent, name, inum, isDir);
    hide LegalName, HasName, IsDir, IsFile, DirectoryOf, InumOf;
    assert Listed(s, []);
    forall d | d in s'.dirs
      ensures |DirectoryOf(s', d)| >= 2 && DirectoryOf(s', d)[1] == Entry("..", InumOf(s', Above(d)))
    {
      assert d in s.dirs ==> Listed(s, d);
      assert d in s.dirs && d != [] ==> Parent(d) in s.dirs;
      assert Listed(s, parent) && Listed(s, Above(d));
    }
  }

  lemma TableAfterAdd(s: Disk, s': Disk, parent: Path, name: string, inum: int, isDir: bool)
    requires Table(s) && EntryAdded(s, s', parent, name, inum, isDir)
    ensures Table(s')
  {
    hide TableTyped, ListedEntered, EntriesListed, OnePath, ParentsNamed, EntryAdded;
    ParentsAfterAdd(s, s', parent, name, inum, isDir);
    TypedAfterAdd(s, s', parent, name, inum, isDir);
    EnteredAfterAdd(s, s', parent, name, inum, isDir);
    EntriesAfterAdd(s, s', parent, name, inum, isDir);
    OnePathAfterAdd(s, s', parent, name, inum, isDir);
  }

  // ----- the path table: removing and keeping -----

  /** A file taken out of its parent directory. */
  ghost predicate EntryRemoved(s: Disk, s': Disk, file: Path, k: nat) {
    && file in s.files && file != []
    && s'.dirs == s.dirs && s'.nameToInum == s.nameToInum
    && s'.files == RemoveFirst(s.files, file)
    && (forall i :: IsDir(s'.inodes, i) <==> IsDir(s.inodes, i))
    && (forall f :: f in s.files && f != file ==> IsFile(s'.inodes, InumOf(s, f)))
    && (forall d :: d in s.dirs && d != Parent(file) ==> DirectoryOf(s', d) == DirectoryOf(s, d))
    && var list := DirectoryOf(s, Parent(file));
       && 2 <= k < |list| && list[k].name == Last(file) && DistinctNames(list)
       && DirectoryOf(s', Parent(file)) == list[..k] + list[k + 1..]
  }

  lemma RemovedColumns(s: Disk, s': Disk, file: Path, k: nat)
    requires Distinct(s.files) && EntryRemoved(s, s', file, k) && file !in s.dirs
    ensures Distinct(s'.files)
    ensures forall q :: Listed(s', q) <==> Listed(s, q) && q != file
    ensures forall q :: q in s'.files <==> q in s.files && q != file
    ensures forall q :: InumOf(s', q) == InumOf(s, q)
    ensures forall d, e :: d in s.dirs ==>
              (e in DirectoryOf(s', d) <==> e in DirectoryOf(s, d) && !(d == Parent(file) && e.name == Last(file)))
  {
    hide DirectoryOf, IsDir, IsFile;
    assert Distinct(s'.files) && forall q :: q in s'.files <==> q in s.files && q != file by {
      var j :| 0 <= j < |s.files| && s.files[j] == file;
      RemoveFirstAt(s.files, file, j);
    }
    hide Distinct, RemoveFirst;
    NameRemoved(DirectoryOf(s, Parent(file)), k);
  }

  lemma SamePath(p: Path, q: Path)
    requires p != [] && q != [] && Parent(p) == Parent(q) && Last(p) == Last(q)
    ensures p == q
  {
    assert p == Parent(p) + [Last(p)] && q == Parent(q) + [Last(q)];
  }

  lemma EnteredAfterRemove(s: Disk, s': Disk, file: Path, k: nat)
    requires TableTyped(s) && ListedEntered(s) && EntryRemoved(s, s', file, k) && file !in s.dirs
    ensures ListedEntered(s')
  {
    RemovedColumns(s, s', file, k);
    hide DirectoryOf, IsDir, IsFile, LegalName, TableTyped, Listed;
    forall q | Listed(s', q) && q != []
      ensures Parent(q) in s'.dirs && LegalName(Last(q)) && Entry(Last(q), InumOf(s', q)) in DirectoryOf(s', Parent(q))
    {
      if Parent(q) == Parent(file) && Last(q) == Last(file) {
        SamePath(q, file);
      }
    }
  }

  lemma EntriesAfterRemove(s: Disk, s': Disk, file: Path, k: nat)
    requires TableTyped(s) && EntriesListed(s) && EntryRemoved(s, s', file, k) && file !in s.dirs
    ensures EntriesListed(s')
  {
    RemovedColumns(s, s', file, k);
    hide DirectoryOf, IsDir, IsFile, LegalName, TableTyped, Listed;
    forall d, e | d in s'.dirs && e in DirectoryOf(s', d) && LegalName(e.name)
      ensures Listed(s', d + [e.name])
    {
      assert Parent(d + [e.name]) == d && Last(d + [e.name]) == e.name;
    }
  }

  lemma TypedAfterRemove(s: Disk, s': Disk, file: Path, k: nat)
    requires TableTyped(s) && EntryRemoved(s, s', file, k) && file !in s.dirs
    ensures TableTyped(s')
  {
    RemovedColumns(s, s', file, k);
    hide DirectoryOf, IsDir, IsFile, LegalName, Listed;
  }

  lemma OnePathAfterRemove(s: Disk, s': Disk, file: Path, k: nat)
    requires OnePath(s) && EntryRemoved(s, s', file, k)
    ensures OnePath(s')
  {
    hide DirectoryOf, IsDir, IsFile, LegalName, Listed;
    assert forall q :: InumOf(s', q) == InumOf(s, q);
  }

  lemma ParentsAfterRemove(s: Disk, s': Disk, file: Path, k: nat)
    requires ParentsNamed(s) && EntryRemoved(s, s', file, k)
    ensures ParentsNamed(s')
  {
    hide DirectoryOf, IsDir, IsFile, LegalName, Listed, DistinctNames;
    assert forall q :: InumOf(s', q) == InumOf(s, q);
  }

  lemma TableAfterRemove(s: Disk, s': Disk, file: Path, k: nat)
    requires Table(s) && EntryRemoved(s, s', file, k)
    ensures Table(s')
  {
    hide ListedEntered, EntriesListed, OnePath, ParentsNamed, EntryRemoved, TableTyped;
    assert file !in s.dirs by { FileIsNoDirectory(s, s', file, k); }
    TypedAfterRemove(s, s', file, k);
    EnteredAfterRemove(s, s', file, k);
    EntriesAfterRemove(s, s', file, k);
    OnePathAfterRemove(s, s', file, k);
    ParentsAfterRemove(s, s', file, k);
  }

  lemma FileIsNoDirectory(s: Disk, s': Disk, file: Path, k: nat)
    requires TableTyped(s) && EntryRemoved(s, s', file, k)
    ensures file !in s.dirs
  {
    assert IsFile(s.inodes, InumOf(s, file));
  }

  /** Types and directories unchanged. */
  lemma TableKept(s: Disk, s': Disk)
    requires Table(s)
    requires s'.dirs == s.dirs && s'.files == s.files && s'.nameToInum == s.nameToInum
    requires forall i :: IsDir(s'.inodes, i) == IsDir(s.inodes, i) && IsFile(s'.inodes, i) == IsFile(s.inodes, i)
    requires forall d :: d in s.dirs ==> DirectoryOf(s', d) == DirectoryOf(s, d)
    ensures Table(s')
  {
    hide DirectoryOf, IsDir, IsFile, LegalName;
    assert forall q :: Listed(s', q) == Listed(s, q);
    assert forall q :: InumOf(s', q) == InumOf(s, q);
    assert TableTyped(s');
    assert ListedEntered(s');
    assert EntriesListed(s');
    assert OnePath(s');
    assert ParentsNamed(s');
  }

  // ----- bitmaps -----

  lemma MarkKeepsBits(b: Bitmap, n: nat)
    requires BitmapOk(b) && n < |b.bits| && !b.bits[n]
    ensures BitmapOk(Mark(b, n))
  {
    CountUpdate(b.bits, n, true);
  }

  lemma ClearKeepsBits(b: Bitmap, n: nat)
    requires BitmapOk(b) && n < |b.bits| && b.bits[n]
    ensures BitmapOk(Clear(b, n))
  {
    CountUpdate(b.bits, n, false);
  }

  // ----- directories are apart -----

  lemma OtherDirectories(s: Disk, d: Path, d': Path)
    requires Inv(s) && d in s.dirs && d' in s.dirs && d != d'
    ensures BlockOf(s, d) != BlockOf(s, d')
  {
    hide Bits, NoLostBlocks, Shapes, NothingDangles, Dots, DotDots, Counts, ListedEntered, EntriesListed;
    assert InodeOf(s, d) != InodeOf(s, d');
    assert Owns(s.inodes, InodeOf(s, d), BlockOf(s, d));
    assert Owns(s.inodes, InodeOf(s, d'), BlockOf(s, d'));
  }

  lemma DirectoryAt(s: Disk, d: Path, i: int, b: int)
    requires InumOf(s, d) == i && 0 <= i < |s.inodes| && s.inodes[i].addr == b && 0 <= b < |s.data|
    ensures DirectoryOf(s, d) == s.data[b].dirList
  {
  }

  /** Directories other than the changed one look the same on a disk that keeps their inodes' addresses. */
  lemma OthersKept(s: Disk, s': Disk, parent: Path)
    requires Inv(s) && parent in s.dirs
    requires forall d :: d in s.dirs ==> InumOf(s', d) == InumOf(s, d)
    requires |s'.inodes| == |s.inodes| && |s'.data| == |s.data|
    requires forall i :: IsDir(s.inodes, i) ==> s'.inodes[i].addr == s.inodes[i].addr
    requires forall b :: 0 <= b < |s.data| && s.data[b].ftype == Directory && b != BlockOf(s, parent) ==>
               s'.data[b].dirList == s.data[b].dirList
    ensures forall d :: d in s.dirs && d != parent ==> DirectoryOf(s', d) == DirectoryOf(s, d)
    ensures DirectoryOf(s', parent) == s'.data[BlockOf(s, parent)].dirList
  {
    hide Bits, Structure, Table, DirectoryOf;
    DirectoryAt(s', parent, InodeOf(s, parent), BlockOf(s, parent));
    forall d | d in s.dirs && d != parent ensures DirectoryOf(s', d) == DirectoryOf(s, d) {
      OtherDirectories(s, d, parent);
      DirectoryAt(s', d, InodeOf(s, d), BlockOf(s, d));
    }
  }

  // ----- each request -----

  ghost predicate CanEnter(s: Disk, parent: Path, name: string)
    requires Inv(s) && parent in s.dirs
  {
    var block := s.data[BlockOf(s, parent)];
    block.dirUsed < MAX_USED && !HasName(block.dirList, name)
  }

  lemma LinkKeepsInv(s: Disk, target: Path, name: string, parent: Path)
    requires Inv(s) && Enabled(s, Link(target, name, parent)) && CanEnter(s, parent, name)
    ensures Inv(Apply(s, Link(target, name, parent)))
  {
    hide Structure, Table, LegalName, HasName, BitmapOk, Bits, DirectoryOf;
    var s' := Apply(s, Link(target, name, parent));
    var pb, t := BlockOf(s, parent), InodeOf(s, target);
    assert s'.data[pb].dirList == s.data[pb].dirList + [Entry(name, t)];
    assert Bits(s') by { BitsSameTypes(s, s'); }
    LinkKeepsStructure(s.inodes, s.data, pb, name, t);
    assert !Listed(s, parent + [name]) by { NotListed(s, parent, name); }
    OthersKept(s, s', parent);
    TableAfterAdd(s, s', parent, name, t, false);
  }

  lemma NotListed(s: Disk, parent: Path, name: string)
    requires Inv(s) && parent in s.dirs && CanEnter(s, parent, name)
    ensures !Listed(s, parent + [name])
  {
    hide Bits, Structure, TableTyped, ListedEntered, EntriesListed, OnePath, ParentsNamed;
    FreshPath(s, parent, name);
  }

  lemma BitsSameTypes(s: Disk, s': Disk)
    requires Bits(s) && s'.ibitmap == s.ibitmap && s'.dbitmap == s.dbitmap
    requires |s'.inodes| == |s.inodes| && |s'.data| == |s.data|
    requires forall i :: 0 <= i < |s.inodes| ==> s'.inodes[i].ftype == s.inodes[i].ftype
    requires forall b :: 0 <= b < |s.data| ==> s'.data[b].ftype == s.data[b].ftype
    ensures Bits(s')
  {
  }

  lemma CreateFileKeepsInv(s: Disk, parent: Path, name: string)
    requires Inv(s) && Enabled(s, Create(parent, name, File)) && CanEnter(s, parent, name)
    requires FreeInode(s) != -1
    ensures Inv(Apply(s, Create(parent, name, File)))
  {
    hide Structure, Table, LegalName, HasName, BitmapOk, Bits, DirectoryOf;
    var s' := Apply(s, Create(parent, name, File));
    var pb, t := BlockOf(s, parent), FreeInode(s);
    assert s'.data[pb].dirList == s.data[pb].dirList + [Entry(name, t)];
    assert Bits(s') by { BitsAfterMark(s, s', t); }
    FileKeepsStructure(s.inodes, s.data, pb, name, t);
    NotListed(s, parent, name);
    OthersKept(s, s', parent);
    TableAfterAdd(s, s', parent, name, t, false);
  }

  lemma BitsAfterMark(s: Disk, s': Disk, t: nat)
    requires Bits(s) && t < |s.inodes| && s.inodes[t].ftype == Free
    requires s'.ibitmap == Mark(s.ibitmap, t) && s'.dbitmap == s.dbitmap
    requires |s'.inodes| == |s.inodes| && |s'.data| == |s.data|
    requires s'.inodes[t].ftype != Free
    requires forall i :: 0 <= i < |s.inodes| && i != t ==> s'.inodes[i].ftype == s.inodes[i].ftype
    requires forall b :: 0 <= b < |s.data| ==> s'.data[b].ftype == s.data[b].ftype
    ensures Bits(s')
  {
    MarkKeepsBits(s.ibitmap, t);
  }

  lemma CreateDirectoryKeepsInv(s: Disk, parent: Path, name: string)
    requires Inv(s) && Enabled(s, Create(parent, name, Directory)) && CanEnter(s, parent, name)
    requires FreeInode(s) != -1 && FreeBlock(s) != -1
    ensures Inv(Apply(s, Create(parent, name, Directory)))
  {
    hide Structure, Table, LegalName, HasName, BitmapOk, Bits, DirectoryOf;
    var s' := Apply(s, Create(parent, name, Directory));
    var p, pb, t, f := InodeOf(s, parent), BlockOf(s, parent), FreeInode(s), FreeBlock(s);
    assert s'.inodes == WithDirectory(s.inodes, p, t, f);
    assert s'.data == s.data[f := DotBlock(s.data[f], t, p)][pb := AddEntry(s.data[pb], name, t)];
    assert s'.data[pb].dirList == s.data[pb].dirList + [Entry(name, t)];
    assert Bits(s') by { BitsAfterMarks(s, s', t, f); }
    DirectoryKeepsStructure(s.inodes, s.data, p, pb, name, t, f);
    NotListed(s, parent, name);
    OthersKept(s, s', parent);
    DirectoryAt(s', parent + [name], t, f);
    assert s.data[f].dirList == [] by { EmptyWhenFree(s, f); }
    assert s'.data[f].dirList == [Entry(".", t), Entry("..", p)];
    assert !LegalName(".") && !LegalName("..") by { DotsIllegal(); }
    TableAfterAdd(s, s', parent, name, t, true);
  }

  lemma EmptyWhenFree(s: Disk, f: nat)
    requires Inv(s) && f < |s.data| && s.data[f].ftype == Free
    ensures s.data[f].dirList == []
  {
    hide Bits, Table, Addresses, NoSharing, NoLostBlocks, NothingDangles, Dots, DotDots, Counts;
  }

  lemma DotsIllegal()
    ensures !LegalName(".") && !LegalName("..")
  {
  }

  lemma BitsAfterMarks(s: Disk, s': Disk, t: nat, f: nat)
    requires Bits(s) && t < |s.inodes| && s.inodes[t].ftype == Free && f < |s.data| && s.data[f].ftype == Free
    requires s'.ibitmap == Mark(s.ibitmap, t) && s'.dbitmap == Mark(s.dbitmap, f)
    requires |s'.inodes| == |s.inodes| && |s'.data| == |s.data|
    requires s'.inodes[t].ftype != Free && s'.data[f].ftype != Free
    requires forall i :: 0 <= i < |s.inodes| && i != t ==> s'.inodes[i].ftype == s.inodes[i].ftype
    requires forall b :: 0 <= b < |s.data| && b != f ==> s'.data[b].ftype == s.data[b].ftype
    ensures Bits(s')
  {
    MarkKeepsBits(s.ibitmap, t);
    MarkKeepsBits(s.dbitmap, f);
  }

  lemma WriteKeepsInv(s: Disk, file: Path, contents: string)
    requires Inv(s) && file in s.files
    requires s.inodes[InodeOf(s, file)].addr == -1 && FreeBlock(s) != -1
    ensures Inv(WriteFile(s, file, contents).0)
  {
    hide Structure, Table, LegalName, HasName, BitmapOk, Bits, DirectoryOf;
    var s' := WriteFile(s, file, contents).0;
    var t, f := InodeOf(s, file), FreeBlock(s);
    assert s'.inodes == WithBlock(s.inodes, t, f) && s'.data == Filled(s.data, f, contents);
    assert Bits(s') by { BitsAfterFill(s, s', f); }
    WriteKeepsStructure(s.inodes, s.data, t, f, contents);
    assert [] in s.dirs by { RootListed(s); }
    assert forall d :: d in s.dirs ==> InumOf(s', d) == InumOf(s, d);
    OthersKept(s, s', []);
    TableKept(s, s');
  }

  lemma RootListed(s: Disk)
    requires Inv(s)
    ensures [] in s.dirs
  {
    hide Bits, Structure;
  }

  lemma BitsAfterFill(s: Disk, s': Disk, f: nat)
    requires Bits(s) && f < |s.data| && s.data[f].ftype == Free
    requires s'.ibitmap == s.ibitmap && s'.dbitmap == Mark(s.dbitmap, f)
    requires |s'.inodes| == |s.inodes| && |s'.data| == |s.data|
    requires s'.data[f].ftype != Free
    requires forall i :: 0 <= i < |s.inodes| ==> s'.inodes[i].ftype == s.inodes[i].ftype
    requires forall b :: 0 <= b < |s.data| && b != f ==> s'.data[b].ftype == s.data[b].ftype
    ensures Bits(s')
  {
    MarkKeepsBits(s.dbitmap, f);
  }

  lemma EntryOfFile(s: Disk, file: Path)
    requires Inv(s) && file in s.files
    ensures file != [] && Parent(file) in s.dirs && LegalName(Last(file))
    ensures Entry(Last(file), InodeOf(s, file)) in s.data[BlockOf(s, Parent(file))].dirList
  {
    FileFacts(s, file);
    hide Bits, Structure, TableTyped, EntriesListed, OnePath, ParentsNamed, DirectoryOf;
    assert Listed(s, file);
  }

  lemma UnlinkKeepsInv(s: Disk, file: Path)
    requires Inv(s) && file in s.files && s.inodes[InodeOf(s, file)].refCnt != 1
    ensures Inv(DeleteFile(s, file))
  {
    hide Structure, Table, LegalName, HasName, BitmapOk, Bits, DirectoryOf;
    EntryOfFile(s, file);
    var s' := DeleteFile(s, file);
    var d, pb, t := InodeOf(s, Parent(file)), BlockOf(s, Parent(file)), InodeOf(s, file);
    assert s'.data == WithoutEntry(s.data, pb, Last(file));
    assert Bits(s') by { BitsSameTypes(s, s'); }
    UnlinkKeepsStructure(s.inodes, s.data, d, Last(file), t);
    var k := PositionOfFile(s, s.data, file);
    OthersKept(s, s', Parent(file));
    OtherFilesKept(s, s', file);
    TableAfterRemove(s, s', file, k);
  }

  lemma PositionOfFile(s: Disk, data: seq<Block>, file: Path) returns (k: nat)
    requires Inv(s) && file in s.files
    requires |data| == |s.data| && data[BlockOf(s, Parent(file))].dirList == s.data[BlockOf(s, Parent(file))].dirList
    ensures var list := DirectoryOf(s, Parent(file));
            && 2 <= k < |list| && list[k].name == Last(file) && DistinctNames(list)
            && WithoutEntry(data, BlockOf(s, Parent(file)), Last(file))[BlockOf(s, Parent(file))].dirList
               == list[..k] + list[k + 1..]
  {
    EntryOfFile(s, file);
    var pb, d := BlockOf(s, Parent(file)), InodeOf(s, Parent(file));
    hide Bits, Table, LegalName, Addresses, NoSharing, NoLostBlocks, NothingDangles, Dots, DotDots, Counts;
    k := EntryPosition(s.inodes, s.data, d, Last(file), InodeOf(s, file));
    assert DistinctNames(s.data[pb].dirList);
  }

  /** Files other than the deleted one still name files. */
  lemma OtherFilesKept(s: Disk, s': Disk, file: Path)
    requires Inv(s) && file in s.files && s' == DeleteFile(s, file)
    requires s.inodes[InodeOf(s, file)].refCnt != 1
    ensures forall f :: f in s.files && f != file ==> IsFile(s'.inodes, InumOf(s, f))
  {
    hide Structure, Table, LegalName, HasName, BitmapOk, Bits, DirectoryOf;
    EntryOfFile(s, file);
    forall f | f in s.files && f != file ensures IsFile(s'.inodes, InumOf(s, f)) {
      assert IsFile(s.inodes, InodeOf(s, f));
    }
  }

  /** A second path of the same inode is a second reference. */
  lemma LastReference(s: Disk, file: Path, f: Path)
    requires Inv(s) && file in s.files && f in s.files && f != file
    requires s.inodes[InodeOf(s, file)].refCnt == 1
    ensures InodeOf(s, f) != InodeOf(s, file)
  {
    hide Bits, Table, LegalName, Addresses, NoSharing, NoLostBlocks, NothingDangles, DirectoryOf;
    EntryOfFile(s, file);
    EntryOfFile(s, f);
    var t := InodeOf(s, file);
    if InodeOf(s, f) == t {
      var d, pb := InodeOf(s, Parent(file)), BlockOf(s, Parent(file));
      var d', pb' := InodeOf(s, Parent(f)), BlockOf(s, Parent(f));
      var k := EntryPosition(s.inodes, s.data, d, Last(file), t);
      CountsAfterRemove(s.data, pb, Last(file), k, t);
      var data' := WithoutEntry(s.data, pb, Last(file));
      assert References(data', t) == 0;
      var j := EntryPosition(s.inodes, s.data, d', Last(f), t);
      if pb == pb' {
        if Parent(f) != Parent(file) { OtherDirectories(s, Parent(f), Parent(file)); }
        if Last(f) == Last(file) { SamePath(f, file); }
        assert j != k;
        ReferenceCounted(data', pb, if j < k then j else j - 1);
      } else {
        ReferenceCounted(data', pb', j);
      }
    }
  }

  lemma DeleteKeepsInv(s: Disk, file: Path)
    requires Inv(s) && file in s.files && s.inodes[InodeOf(s, file)].refCnt == 1
    ensures Inv(DeleteFile(s, file))
  {
    hide Structure, Table, LegalName, HasName, BitmapOk, Bits, DirectoryOf;
    EntryOfFile(s, file);
    var s' := DeleteFile(s, file);
    var d, pb, t := InodeOf(s, Parent(file)), BlockOf(s, Parent(file)), InodeOf(s, file);
    var addr := s.inodes[t].addr;
    assert -1 <= addr < |s.data| && (addr >= 0 ==> s.data[addr].ftype == File) by { FileBlockOf(s, t); }
    assert s'.inodes == WithoutInode(s.inodes, t);
    assert s'.data == WithoutEntry(WithoutBlock(s.data, addr), pb, Last(file));
    assert Bits(s') by { BitsAfterClear(s, s', t, addr); }
    DeleteKeepsStructure(s.inodes, s.data, d, Last(file), t);
    var k := PositionOfFile(s, WithoutBlock(s.data, addr), file);
    OthersKept(s, s', Parent(file));
    forall f | f in s.files && f != file ensures IsFile(s'.inodes, InumOf(s, f)) {
      LastReference(s, file, f);
      assert IsFile(s.inodes, InodeOf(s, f));
    }
    TableAfterRemove(s, s', file, k);
  }

  lemma FileBlockOf(s: Disk, t: nat)
    requires Inv(s) && IsFile(s.inodes, t)
    ensures -1 <= s.inodes[t].addr < |s.data| && (s.inodes[t].addr >= 0 ==> s.data[s.inodes[t].addr].ftype == File)
  {
    hide Bits, Table, Addresses, NoSharing, NoLostBlocks, Shapes, NothingDangles, Dots, DotDots, Counts;
    FileBlock(s.inodes, s.data, t);
  }

  lemma BitsAfterClear(s: Disk, s': Disk, t: nat, addr: int)
    requires Bits(s) && t < |s.inodes| && s.inodes[t].ftype != Free
    requires -1 <= addr < |s.data| && (addr >= 0 ==> s.data[addr].ftype != Free)
    requires s'.ibitmap == Clear(s.ibitmap, t)
    requires s'.dbitmap == if addr == -1 then s.dbitmap else Clear(s.dbitmap, addr)
    requires |s'.inodes| == |s.inodes| && |s'.data| == |s.data|
    requires s'.inodes[t].ftype == Free && (addr >= 0 ==> s'.data[addr].ftype == Free)
    requires forall i :: 0 <= i < |s.inodes| && i != t ==> s'.inodes[i].ftype == s.inodes[i].ftype
    requires forall b :: 0 <= b < |s.data| && b != addr ==> s'.data[b].ftype == s.data[b].ftype
    ensures Bits(s')
  {
    ClearKeepsBits(s.ibitmap, t);
    if addr != -1 {
      ClearKeepsBits(s.dbitmap, addr);
    }
  }

  // ----- failing requests -----

  /** A create or link that fails leaves the disk as it was. */
  lemma FailureChangesNothing(s: Disk, op: Op)
    requires Inv(s) && Enabled(s, op)
    requires op.Create? ==> CreateFile(s, op.parent, op.name, op.ftype).1 < 0
    requires op.Link? ==> CreateLink(s, op.target, op.name, op.parent).1 < 0
    requires op.Write? ==> !WriteFile(s, op.file, op.contents).1
    requires !op.Unlink?
    ensures Apply(s, op) == s
  {
    hide Structure, Table, LegalName, HasName, BitmapOk, DirectoryOf;
    if op.Create? && FreeInode(s) != -1 {
      var t := FreeInode(s);
      assert s.ibitmap.bits[t := true][t := false] == s.ibitmap.bits;
      assert s.inodes[t := Inode(Free, -1, s.inodes[t].refCnt)] == s.inodes;
    }
  }

  /** A create fails exactly when the directory is full, the name is taken, or no inode or, for a
  directory, no block is free. */
  lemma CreateSucceedsIff(s: Disk, parent: Path, name: string, ftype: FileType)
    requires Inv(s) && parent in s.dirs && ftype != Free
    ensures CreateFile(s, parent, name, ftype).1 >= 0 <==>
              && CanEnter(s, parent, name)
              && (exists i :: 0 <= i < |s.inodes| && s.inodes[i].ftype == FileType.Free)
              && (ftype == Directory ==> exists b :: 0 <= b < |s.data| && s.data[b].ftype == FileType.Free)
  {
    hide Structure, Table, LegalName, HasName, BitmapOk, DirectoryOf;
    assert FreeInode(s) == -1 <==> !exists i :: 0 <= i < |s.inodes| && s.inodes[i].ftype == FileType.Free by {
      FirstFreeFinds(s.ibitmap.bits, 0);
    }
    assert FreeBlock(s) == -1 <==> !exists b :: 0 <= b < |s.data| && s.data[b].ftype == FileType.Free by {
      FirstFreeFinds(s.dbitmap.bits, 0);
    }
  }

  lemma {:induction false} FirstFreeFinds(bits: seq<bool>, from: nat)
    requires from <= |bits|
    ensures FirstFree(bits, from) == -1 <==> forall i :: from <= i < |bits| ==> bits[i]
    decreases |bits| - from
  {
    if from < |bits| {
      FirstFreeFinds(bits, from + 1);
    }
  }

  // ----- all requests -----

  /** Every request keeps the disk consistent. */
  lemma ApplyKeepsInv(s: Disk, op: Op)
    requires Inv(s) && Enabled(s, op)
    ensures Inv(Apply(s, op))
  {
    hide Bits, Structure, Table, LegalName, HasName, DirectoryOf;
    match op
    case Create(parent, name, ftype) =>
      if CreateFile(s, parent, name, ftype).1 < 0 {
        FailureChangesNothing(s, op);
      } else if ftype == Directory {
        CreateDirectoryKeepsInv(s, parent, name);
      } else {
        CreateFileKeepsInv(s, parent, name);
      }
    case Link(target, name, parent) =>
      if CreateLink(s, target, name, parent).1 < 0 {
        FailureChangesNothing(s, op);
      } else {
        LinkKeepsInv(s, target, name, parent);
      }
    case Unlink(file) =>
      if s.inodes[InodeOf(s, file)].refCnt == 1 {
        DeleteKeepsInv(s, file);
      } else {
        UnlinkKeepsInv(s, file);
      }
    case Write(file, contents) =>
      if WriteFile(s, file, contents).1 {
        WriteKeepsInv(s, file, contents);
      } else {
        FailureChangesNothing(s, op);
      }
  }

  // ----- a fresh disk -----

  lemma FormatCounts(numInodes: nat, numData: nat, i: int)
    requires numInodes > 0 && numData > 0
    ensures References(Format(numInodes, numData).data, i) == if i == ROOT then 2 else 0
  {
    var empty := seq(numData, _ => EMPTY_BLOCK);
    var dots := Block(Directory, 2, [Entry(".", ROOT), Entry("..", ROOT)], "");
    ReferencesNone(numData, i);
    ReferencesUpdate(empty, 0, dots, i);
    OccurrencesAdd([], Entry(".", ROOT), i);
    OccurrencesAdd([Entry(".", ROOT)], Entry("..", ROOT), i);
    assert [] + [Entry(".", ROOT)] == [Entry(".", ROOT)];
    assert [Entry(".", ROOT)] + [Entry("..", ROOT)] == dots.dirList;
  }

  lemma FormatBits(n: nat)
    requires n > 0
    ensures BitmapOk(Mark(Bitmap(seq(n, _ => false), 0), 0))
  {
    CountNone(n);
    CountUpdate(seq(n, _ => false), 0, true);
  }

  lemma FormatStructure(numInodes: nat, numData: nat)
    requires numInodes > 0 && numData > 0
    ensures var s := Format(numInodes, numData); Structure(s.inodes, s.data)
  {
    hide References;
    var s := Format(numInodes, numData);
    forall i ensures References(s.data, i) == if i == ROOT then 2 else 0 {
      FormatCounts(numInodes, numData, i);
    }
    assert Owns(s.inodes, 0, 0);
    assert Addresses(s.inodes, s.data) && NoSharing(s.inodes) && NoLostBlocks(s.inodes, s.data);
    assert Shapes(s.data) && NothingDangles(s.inodes, s.data) && Dots(s.inodes, s.data);
    assert Counts(s.inodes, s.data);
  }

  lemma FormatInv(numInodes: nat, numData: nat)
    requires numInodes > 0 && numData > 0
    ensures Inv(Format(numInodes, numData))
  {
    hide BitmapOk, References, CountAllocated, Structure, LegalName;
    var s := Format(numInodes, numData);
    FormatBits(numInodes);
    FormatBits(numData);
    FormatStructure(numInodes, numData);
    DotsIllegal();
    assert DirectoryOf(s, []) == [Entry(".", ROOT), Entry("..", ROOT)];
    assert forall p :: Listed(s, p) <==> p == [];
    assert forall i :: IsDir(s.inodes, i) <==> i == 0;
    assert InumOf(s, []) == 0;
  }

  /** A fresh disk. */
  ghost function Fresh(numInodes: nat, numData: nat): (s: Disk)
    requires numInodes > 0 && numData > 0
    ensures Inv(s) && s == Format(numInodes, numData)
  {
    FormatInv(numInodes, numData);
    Format(numInodes, numData)
  }

  // ----- runs -----

  /** The disk after a sequence of requests; None if one of them could not have been chosen. */
  ghost function After(s: Disk, ops: seq<Op>): (r: Option<Disk>)
    requires Inv(s)
    ensures r.Some? ==> Inv(r.value)
    decreases |ops|
  {
    if ops == [] then Some(s)
    else if !Enabled(s, ops[0]) then None
    else
      ApplyKeepsInv(s, ops[0]);
      After(Apply(s, ops[0]), ops[1..])
  }

  // ----- what a consistent disk means -----

  function Lookup(list: seq<Entry>, name: string): Option<int> {
    if list == [] then None
    else if list[0].name == name then Some(list[0].inum)
    else Lookup(list[1..], name)
  }

  /** Resolving a path from the root, component by component. */
  function Walk(s: Disk, p: Path): Option<int>
    decreases |p|
  {
    if p == [] then Some(ROOT)
    else
      var d :- Walk(s, p[..|p| - 1]);
      if IsDir(s.inodes, d) && 0 <= s.inodes[d].addr < |s.data| then
        Lookup(s.data[s.inodes[d].addr].dirList, p[|p| - 1])
      else None
  }

  lemma {:induction false} LookupFinds(list: seq<Entry>, name: string)
    ensures Lookup(list, name).Some? ==> Entry(name, Lookup(list, name).value) in list
    ensures Lookup(list, name).None? ==> !HasName(list, name)
  {
    if list != [] && list[0].name != name {
      LookupFinds(list[1..], name);
      assert forall k :: 0 < k < |list| ==> list[k] == list[1..][k - 1];
    }
  }

  lemma LookupUnique(list: seq<Entry>, name: string, i: int)
    requires DistinctNames(list) && Entry(name, i) in list
    ensures Lookup(list, name) == Some(i)
  {
    LookupFinds(list, name);
    var k :| 0 <= k < |list| && list[k] == Entry(name, i);
    var r := Lookup(list, name);
    assert HasName(list, name);
    var j :| 0 <= j < |list| && list[j] == Entry(name, r.value);
    assert list[j].name == list[k].name;
  }

  lemma Entered(s: Disk, p: Path)
    requires ListedEntered(s) && Listed(s, p) && p != []
    ensures Parent(p) in s.dirs && LegalName(Last(p)) && Entry(Last(p), InumOf(s, p)) in DirectoryOf(s, Parent(p))
  {
    hide DirectoryOf, LegalName;
  }

  lemma ListedBy(s: Disk, d: Path, e: Entry)
    requires EntriesListed(s) && d in s.dirs && e in DirectoryOf(s, d) && LegalName(e.name)
    ensures Listed(s, d + [e.name])
  {
    hide DirectoryOf, LegalName;
  }

  lemma FilesAreFiles(s: Disk, p: Path)
    requires TableTyped(s) && Listed(s, p) && IsDir(s.inodes, InumOf(s, p))
    ensures p in s.dirs
  {
  }

  lemma RootTyped(s: Disk)
    requires TableTyped(s)
    ensures Listed(s, []) && InumOf(s, []) == ROOT
  {
  }

  lemma NamesDistinct(s: Disk, d: Path)
    requires Inv(s) && d in s.dirs
    ensures DistinctNames(DirectoryOf(s, d))
  {
    hide Bits, Table, Addresses, NoSharing, NoLostBlocks, NothingDangles, Dots, DotDots, Counts, DirectoryOf;
    assert DistinctNames(s.data[BlockOf(s, d)].dirList);
  }

  /** One step of the walk, in a listed directory. */
  lemma WalkStep(s: Disk, d: Path, name: string)
    requires Inv(s) && d in s.dirs && Walk(s, d) == Some(InumOf(s, d))
    ensures Walk(s, d + [name]) == Lookup(DirectoryOf(s, d), name)
  {
    hide Bits, Structure, Table, DirectoryOf;
    var p := d + [name];
    assert p[..|p| - 1] == d;
    assert IsDir(s.inodes, InodeOf(s, d)) && DirectoryOf(s, d) == s.data[BlockOf(s, d)].dirList;
  }

  /** The path table is exactly what walking the directories finds. */
  lemma {:induction false} WalkIffListed(s: Disk, p: Path)
    requires Inv(s) && forall k :: 0 <= k < |p| ==> LegalName(p[k])
    ensures Listed(s, p) <==> Walk(s, p).Some?
    ensures Listed(s, p) ==> Walk(s, p) == Some(InumOf(s, p))
    decreases |p|
  {
    hide Bits, Structure, TableTyped, ListedEntered, EntriesListed, OnePath, ParentsNamed, LegalName, DirectoryOf,
        Listed, InumOf, IsDir;
    if p == [] {
      RootTyped(s);
    } else {
      var d, name := Parent(p), Last(p);
      assert p == d + [name];
      WalkIffListed(s, d);
      if d in s.dirs {
        DirListed(s, d);
        WalkStep(s, d, name);
        NamesDistinct(s, d);
        LookupFinds(DirectoryOf(s, d), name);
        if Listed(s, p) {
          Entered(s, p);
          LookupUnique(DirectoryOf(s, d), name, InumOf(s, p));
        } else if Walk(s, p).Some? {
          ListedBy(s, d, Entry(name, Walk(s, p).value));
        }
      } else {
        if Listed(s, p) { Entered(s, p); }
        if Walk(s, p).Some? { FilesAreFiles(s, d); }
      }
    }
  }

  lemma DirListed(s: Disk, d: Path)
    requires d in s.dirs
    ensures Listed(s, d)
  {
  }

  /** No inode is lost: every live one has a listed path. */
  lemma NoLostInodes(s: Disk, i: int) returns (p: Path)
    requires Inv(s) && IsLive(s.inodes, i)
    ensures Listed(s, p) && InumOf(s, p) == i
  {
    hide Bits, Structure, TableTyped, ListedEntered, EntriesListed, OnePath, ParentsNamed, LegalName, DirectoryOf,
        InumOf;
    if IsDir(s.inodes, i) {
      p := PathOfDirectory(s, i);
    } else {
      var j, k, name := EntryOfInode(s, i);
      var d := PathOfDirectory(s, j);
      p := d + [name];
      BlockRange(s, d);
      ListedBy(s, d, Entry(name, i));
      ListedInum(s, d, name, i);
    }
  }

  lemma PathOfDirectory(s: Disk, i: int) returns (d: Path)
    requires OnePath(s) && IsDir(s.inodes, i)
    ensures d in s.dirs && InumOf(s, d) == i
  {
    d :| d in s.dirs && InumOf(s, d) == i;
  }

  lemma ListedInum(s: Disk, d: Path, name: string, i: int)
    requires Inv(s) && d in s.dirs && Listed(s, d + [name]) && Entry(name, i) in DirectoryOf(s, d)
    ensures InumOf(s, d + [name]) == i
  {
    hide Bits, Structure, TableTyped, ListedEntered, EntriesListed, OnePath, ParentsNamed, LegalName, DirectoryOf,
        Listed, InumOf;
    NamesDistinct(s, d);
    var p := d + [name];
    assert p != [] && Parent(p) == d && Last(p) == name;
    Entered(s, p);
    LookupUnique(DirectoryOf(s, d), name, i);
    LookupUnique(DirectoryOf(s, d), name, InumOf(s, p));
  }

  lemma BlockOwner(inodes: seq<Inode>, data: seq<Block>, b: nat, k: nat) returns (j: int)
    requires Addresses(inodes, data) && NoLostBlocks(inodes, data) && Shapes(data)
    requires b < |data| && k < |data[b].dirList|
    ensures IsDir(inodes, j) && inodes[j].addr == b
  {
    j :| Owns(inodes, j, b);
  }

  /** A directory entry, not a dot, that names a live file. */
  lemma EntryOfInode(s: Disk, i: int) returns (j: int, k: nat, name: string)
    requires Inv(s) && IsFile(s.inodes, i)
    ensures IsDir(s.inodes, j) && 0 <= s.inodes[j].addr < |s.data|
    ensures k < |s.data[s.inodes[j].addr].dirList| && s.data[s.inodes[j].addr].dirList[k] == Entry(name, i)
    ensures LegalName(name)
  {
    hide Bits, Table, Addresses, NoSharing, NoLostBlocks, Shapes, NothingDangles, Counts, Dots, DotDots, LegalName,
        References;
    InodeFacts1(s.inodes, s.data, i);
    var b, k0 := ReferenceFound(s.data, i);
    j := BlockOwner(s.inodes, s.data, b, k0);
    k, name := k0, s.data[b].dirList[k0].name;
    DotFacts(s.inodes, s.data, j, k);
  }

  lemma DotFacts(inodes: seq<Inode>, data: seq<Block>, j: int, k: nat)
    requires Dots(inodes, data) && DotDots(inodes, data) && IsDir(inodes, j) && 0 <= inodes[j].addr < |data|
    requires k < |data[inodes[j].addr].dirList|
    ensures var e := data[inodes[j].addr].dirList[k]; IsDir(inodes, e.inum) || LegalName(e.name)
  {
    hide LegalName;
  }

  /** After any run on a fresh disk: the path table and the directory tree agree both ways, reference
  counts count the entries, and every live inode can be reached. */
  lemma FileSystemConsistent(numInodes: nat, numData: nat, ops: seq<Op>)
    requires numInodes > 0 && numData > 0
    requires After(Fresh(numInodes, numData), ops).Some?
    ensures var s := After(Fresh(numInodes, numData), ops).value;
            && Structure(s.inodes, s.data) && Bits(s) && ParentsNamed(s)
            && (forall p :: (forall k :: 0 <= k < |p| ==> LegalName(p[k])) ==>
                  (Listed(s, p) <==> Walk(s, p).Some?) && (Listed(s, p) ==> Walk(s, p) == Some(InumOf(s, p))))
            && (forall i :: IsLive(s.inodes, i) ==> exists p :: Listed(s, p) && InumOf(s, p) == i)
  {
    var s := After(Fresh(numInodes, numData), ops).value;
    hide Bits, Structure, Table, LegalName, Walk, Listed, InumOf, IsLive, After;
    forall p: Path | forall k :: 0 <= k < |p| ==> LegalName(p[k])
      ensures (Listed(s, p) <==> Walk(s, p).Some?) && (Listed(s, p) ==> Walk(s, p) == Some(InumOf(s, p)))
    {
      WalkIffListed(s, p);
    }
    forall i | IsLive(s.inodes, i) ensures exists p :: Listed(s, p) && InumOf(s, p) == i {
      var p := NoLostInodes(s, i);
    }
  }
}
