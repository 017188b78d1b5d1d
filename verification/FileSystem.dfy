/** The simple file system: bitmaps, inodes, directory blocks and the table of path names, with the
operations on them as functions of the whole disk. */
module FileSystem {
  import opened Directories
  import opened Options
  import opened Sequences

  datatype FileType = Free | Directory | File

  datatype Inode = Inode(ftype: FileType, addr: int, refCnt: int)

  datatype Block = Block(ftype: FileType, dirUsed: int, dirList: seq<Entry>, contents: string)

  datatype Bitmap = Bitmap(bits: seq<bool>, numAllocated: int)

  /** A path name by its components; the root is []. */
  type Path = seq<string>

  datatype Disk = Disk(
    ibitmap: Bitmap,
    inodes: seq<Inode>,
    dbitmap: Bitmap,
    data: seq<Block>,
    files: seq<Path>,
    dirs: seq<Path>,
    nameToInum: map<Path, int>)

  const ROOT: int := 0
  const MAX_USED: int := 32
  const EMPTY_BLOCK: Block := Block(Free, 0, [], "")

  // ----- bitmaps -----

  function FirstFree(bits: seq<bool>, from: nat): (r: int)
    requires from <= |bits|
    ensures r == -1 || (from <= r < |bits| && !bits[r])
    decreases |bits| - from
  {
    if from == |bits| then -1
    else if !bits[from] then from
    else FirstFree(bits, from + 1)
  }

  function Mark(b: Bitmap, n: nat): Bitmap
    requires n < |b.bits|
  {
    Bitmap(b.bits[n := true], b.numAllocated + 1)
  }

  function Clear(b: Bitmap, n: nat): Bitmap
    requires n < |b.bits|
  {
    Bitmap(b.bits[n := false], b.numAllocated - 1)
  }

  function CountAllocated(bits: seq<bool>): nat {
    if bits == [] then 0 else CountAllocated(bits[..|bits| - 1]) + (if bits[|bits| - 1] then 1 else 0)
  }

  // ----- directories -----

  function AddEntry(b: Block, name: string, inum: int): Block {
    b.(dirList := b.dirList + [Entry(name, inum)], dirUsed := b.dirUsed + 1)
  }

  function RemoveEntry(b: Block, name: string): Block {
    b.(dirList := RemoveName(b.dirList, name), dirUsed := b.dirUsed - 1)
  }

  predicate LegalName(name: string) {
    name != "" && name != "." && name != ".." && '/' !in name
  }

  /** The occurrences of an inode number in a directory. */
  function Occurrences(list: seq<Entry>, i: int): nat {
    if list == [] then 0
    else Occurrences(list[..|list| - 1], i) + (if list[|list| - 1].inum == i then 1 else 0)
  }

  /** The directory entries anywhere on the disk that name an inode. */
  function References(data: seq<Block>, i: int): nat {
    if data == [] then 0
    else References(data[..|data| - 1], i) + Occurrences(data[|data| - 1].dirList, i)
  }

  // ----- the invariant -----

  ghost predicate BitmapOk(b: Bitmap) {
    b.numAllocated == CountAllocated(b.bits)
  }

  /** Bitmaps and types agree. */
  ghost predicate Bits(s: Disk) {
    && 0 < |s.inodes| == |s.ibitmap.bits| && 0 < |s.data| == |s.dbitmap.bits|
    && BitmapOk(s.ibitmap) && BitmapOk(s.dbitmap)
    && (forall i :: 0 <= i < |s.inodes| ==> (s.ibitmap.bits[i] <==> s.inodes[i].ftype != Free))
    && (forall b :: 0 <= b < |s.data| ==> (s.dbitmap.bits[b] <==> s.data[b].ftype != Free))
  }

  predicate IsLive(inodes: seq<Inode>, i: int) {
    0 <= i < |inodes| && inodes[i].ftype != Free
  }

  predicate IsDir(inodes: seq<Inode>, i: int) {
    0 <= i < |inodes| && inodes[i].ftype == Directory
  }

  predicate IsFile(inodes: seq<Inode>, i: int) {
    0 <= i < |inodes| && inodes[i].ftype == File
  }

  predicate Owns(inodes: seq<Inode>, i: int, b: int) {
    IsLive(inodes, i) && inodes[i].addr == b
  }

  /** Each live inode has a block of its type, or none if it is an empty file. */
  ghost predicate Addresses(inodes: seq<Inode>, data: seq<Block>) {
    forall i :: 0 <= i < |inodes| ==>
      var n := inodes[i];
      && -1 <= n.addr < |data|
      && (n.ftype == Free ==> n.addr == -1)
      && (n.ftype == Directory ==> n.addr != -1)
      && (n.addr != -1 ==> data[n.addr].ftype == n.ftype)
  }

  /** No two inodes have the same block. */
  ghost predicate NoSharing(inodes: seq<Inode>) {
    forall i, j, b :: Owns(inodes, i, b) && Owns(inodes, j, b) && b != -1 ==> i == j
  }

  /** Each block that is not free belongs to an inode. */
  ghost predicate NoLostBlocks(inodes: seq<Inode>, data: seq<Block>) {
    forall b :: 0 <= b < |data| && data[b].ftype != Free ==> exists i :: Owns(inodes, i, b)
  }

  /** Directory blocks have room for 32 entries of different names; other blocks hold none. */
  ghost predicate Shapes(data: seq<Block>) {
    forall b :: 0 <= b < |data| ==>
      && data[b].dirUsed == |data[b].dirList| <= MAX_USED
      && (data[b].ftype != Directory ==> data[b].dirList == [])
      && DistinctNames(data[b].dirList)
  }

  /** Every directory entry names a live inode. */
  ghost predicate NothingDangles(inodes: seq<Inode>, data: seq<Block>) {
    forall b, k :: 0 <= b < |data| && 0 <= k < |data[b].dirList| ==> IsLive(inodes, data[b].dirList[k].inum)
  }

  /** A directory starts with "." for itself; behind ".." come legal names. */
  ghost predicate Dots(inodes: seq<Inode>, data: seq<Block>) {
    forall i :: IsDir(inodes, i) && 0 <= inodes[i].addr < |data| ==>
      var list := data[inodes[i].addr].dirList;
      && |list| >= 2
      && list[0] == Entry(".", i)
      && forall k :: 2 <= k < |list| ==> LegalName(list[k].name)
  }

  /** The second entry of a directory is ".." for a directory. */
  ghost predicate DotDots(inodes: seq<Inode>, data: seq<Block>) {
    forall b {:trigger data[b].dirList[1]} :: 0 <= b < |data| && |data[b].dirList| >= 2 ==>
      data[b].dirList[1].name == ".." && IsDir(inodes, data[b].dirList[1].inum)
  }

  /** The reference count of a live inode is the number of entries that name it. */
  ghost predicate Counts(inodes: seq<Inode>, data: seq<Block>) {
    forall i :: 0 <= i < |inodes| ==>
      if inodes[i].ftype == Free then References(data, i) == 0
      else inodes[i].refCnt == References(data, i) >= 1
  }

  ghost predicate Structure(inodes: seq<Inode>, data: seq<Block>) {
    && Addresses(inodes, data)
    && NoSharing(inodes)
    && NoLostBlocks(inodes, data)
    && Shapes(data)
    && NothingDangles(inodes, data)
    && Dots(inodes, data)
    && DotDots(inodes, data)
    && Counts(inodes, data)
  }

  predicate Listed(s: Disk, p: Path) {
    p in s.files || p in s.dirs
  }

  function InumOf(s: Disk, p: Path): int {
    if p in s.nameToInum then s.nameToInum[p] else -1
  }

  function DirectoryOf(s: Disk, p: Path): seq<Entry> {
    var i := InumOf(s, p);
    if 0 <= i < |s.inodes| && 0 <= s.inodes[i].addr < |s.data| then s.data[s.inodes[i].addr].dirList else []
  }

  function Parent(p: Path): Path
    requires p != []
  {
    p[..|p| - 1]
  }

  function Last(p: Path): string
    requires p != []
  {
    p[|p| - 1]
  }

  ghost predicate TableTyped(s: Disk) {
    && [] in s.dirs && InumOf(s, []) == ROOT
    && Distinct(s.files)
    && (forall d :: d in s.dirs ==> IsDir(s.inodes, InumOf(s, d)))
    && (forall f :: f in s.files ==> IsFile(s.inodes, InumOf(s, f)) && f != [])
  }

  /** Every listed path is an entry of its listed parent. */
  ghost predicate ListedEntered(s: Disk) {
    forall p :: Listed(s, p) && p != [] ==>
      && Parent(p) in s.dirs
      && LegalName(Last(p))
      && Entry(Last(p), InumOf(s, p)) in DirectoryOf(s, Parent(p))
  }

  /** Every entry but the dots is listed. */
  ghost predicate EntriesListed(s: Disk) {
    forall d, e {:trigger Listed(s, d + [e.name]), e in DirectoryOf(s, d)} ::
      d in s.dirs && e in DirectoryOf(s, d) && LegalName(e.name) ==> Listed(s, d + [e.name])
  }

  /** Directories have one path each. */
  ghost predicate OnePath(s: Disk) {
    && (forall d, d' :: d in s.dirs && d' in s.dirs && InumOf(s, d) == InumOf(s, d') ==> d == d')
    && (forall i :: IsDir(s.inodes, i) ==> exists d :: d in s.dirs && InumOf(s, d) == i)
  }

  function Above(d: Path): Path {
    if d == [] then [] else Parent(d)
  }

  /** The ".." of a directory names the directory above it, that of the root the root. */
  ghost predicate ParentsNamed(s: Disk) {
    forall d :: d in s.dirs ==>
      |DirectoryOf(s, d)| >= 2 && DirectoryOf(s, d)[1] == Entry("..", InumOf(s, Above(d)))
  }

  /** The path table lists exactly the directory entries. */
  ghost predicate Table(s: Disk) {
    TableTyped(s) && ListedEntered(s) && EntriesListed(s) && OnePath(s) && ParentsNamed(s)
  }

  ghost predicate Inv(s: Disk) {
    Bits(s) && Structure(s.inodes, s.data) && Table(s)
  }

  // ----- the operations -----

  function InodeOf(s: Disk, p: Path): (i: int)
    requires Inv(s) && Listed(s, p)
    ensures 0 <= i < |s.inodes| && i == InumOf(s, p)
    ensures p in s.dirs ==> IsDir(s.inodes, i)
    ensures p in s.files ==> IsFile(s.inodes, i)
  {
    InumOf(s, p)
  }

  lemma FileFacts(s: Disk, f: Path)
    requires Inv(s) && f in s.files
    ensures f != [] && Parent(f) in s.dirs && LegalName(Last(f))
  {
    hide Bits, Structure, EntriesListed, OnePath, ParentsNamed;
    assert Listed(s, f);
  }

  lemma BlockRange(s: Disk, d: Path)
    requires Inv(s) && d in s.dirs
    ensures var i := InumOf(s, d);
            && 0 <= i < |s.inodes| && 0 <= s.inodes[i].addr < |s.data|
            && s.data[s.inodes[i].addr].ftype == Directory
            && s.data[s.inodes[i].addr].dirList == DirectoryOf(s, d)
  {
    hide Bits, NoSharing, NoLostBlocks, Shapes, NothingDangles, Dots, DotDots, Counts, ListedEntered, EntriesListed,
        OnePath, ParentsNamed;
    assert IsDir(s.inodes, InumOf(s, d));
  }

  /** The block of a directory. */
  function BlockOf(s: Disk, d: Path): (b: int)
    requires Inv(s) && d in s.dirs
    ensures 0 <= b < |s.data| && s.data[b].ftype == Directory
    ensures b == s.inodes[InodeOf(s, d)].addr && s.data[b].dirList == DirectoryOf(s, d)
  {
    hide *;
    BlockRange(s, d);
    s.inodes[InodeOf(s, d)].addr
  }

  /** The disk with only a root directory. */
  function Format(numInodes: nat, numData: nat): Disk
    requires numInodes > 0 && numData > 0
  {
    Disk(Mark(Bitmap(seq(numInodes, _ => false), 0), 0),
         seq(numInodes, _ => Inode(Free, -1, 1))[0 := Inode(Directory, 0, 2)],
         Mark(Bitmap(seq(numData, _ => false), 0), 0),
         seq(numData, _ => EMPTY_BLOCK)[0 := Block(Directory, 2, [Entry(".", ROOT), Entry("..", ROOT)], "")],
         [], [[]], map[[] := ROOT])
  }

  /** The first free inode, or -1. */
  function FreeInode(s: Disk): (i: int)
    requires Inv(s)
    ensures i == FirstFree(s.ibitmap.bits, 0)
    ensures i == -1 || (0 <= i < |s.inodes| && s.inodes[i] == Inode(Free, -1, s.inodes[i].refCnt) && !s.ibitmap.bits[i])
    ensures |s.inodes| == |s.ibitmap.bits|
  {
    FirstFree(s.ibitmap.bits, 0)
  }

  /** The first free data block, or -1. */
  function FreeBlock(s: Disk): (b: int)
    requires Inv(s)
    ensures b == FirstFree(s.dbitmap.bits, 0)
    ensures b == -1 || (0 <= b < |s.data| && s.data[b].ftype == Free && !s.dbitmap.bits[b])
    ensures |s.data| == |s.dbitmap.bits|
  {
    FirstFree(s.dbitmap.bits, 0)
  }

  /** A new directory with its block, entered in its parent. */
  function PlaceDirectory(s: Disk, pinum: nat, pblock: nat, name: string, inum: nat, fblock: nat): Disk
    requires pinum < |s.inodes| && inum < |s.inodes| == |s.ibitmap.bits|
    requires pblock < |s.data| && fblock < |s.data| == |s.dbitmap.bits|
  {
    var dots := AddEntry(AddEntry(s.data[fblock].(ftype := Directory), ".", inum), "..", pinum);
    var inodes := s.inodes[inum := Inode(Directory, fblock, 2)];
    s.(ibitmap := Mark(s.ibitmap, inum),
       dbitmap := Mark(s.dbitmap, fblock),
       inodes := inodes[pinum := inodes[pinum].(refCnt := inodes[pinum].refCnt + 1)],
       data := s.data[fblock := dots][pblock := AddEntry(s.data[pblock], name, inum)])
  }

  /** A new empty file, entered in its parent. */
  function PlaceFile(s: Disk, pblock: nat, name: string, inum: nat): Disk
    requires inum < |s.inodes| == |s.ibitmap.bits| && pblock < |s.data|
  {
    s.(ibitmap := Mark(s.ibitmap, inum),
       inodes := s.inodes[inum := Inode(File, -1, 1)],
       data := s.data[pblock := AddEntry(s.data[pblock], name, inum)])
  }

  /** createFile: the new inode number, or -1 and no effect. */
  function CreateFile(s: Disk, parent: Path, name: string, ftype: FileType): (Disk, int)
    requires Inv(s) && parent in s.dirs && ftype != Free
  {
    hide Bits, Structure, Table;
    var pinum := InodeOf(s, parent);
    var pblock := BlockOf(s, parent);
    var inum := FreeInode(s);
    var fblock := FreeBlock(s);
    if MAX_USED - s.data[pblock].dirUsed <= 0 then (s, -1)
    else if HasName(s.data[pblock].dirList, name) then (s, -1)
    else if inum == -1 then (s, -1)
    else if ftype == Directory then
      if fblock == -1 then
        (s.(ibitmap := Clear(Mark(s.ibitmap, inum), inum),
            inodes := s.inodes[inum := Inode(Free, -1, s.inodes[inum].refCnt)]), -1)
      else (PlaceDirectory(s, pinum, pblock, name, inum, fblock), inum)
    else (PlaceFile(s, pblock, name, inum), inum)
  }

  /** createLink: the inode number of the target, or -1 and no effect. */
  function CreateLink(s: Disk, target: Path, name: string, parent: Path): (Disk, int)
    requires Inv(s) && parent in s.dirs && target in s.files
  {
    hide Bits, Structure, Table;
    var pblock := BlockOf(s, parent);
    var tinum := InodeOf(s, target);
    if MAX_USED - s.data[pblock].dirUsed <= 0 then (s, -1)
    else if HasName(s.data[pblock].dirList, name) then (s, -1)
    else
      (s.(inodes := s.inodes[tinum := s.inodes[tinum].(refCnt := s.inodes[tinum].refCnt + 1)],
          data := s.data[pblock := AddEntry(s.data[pblock], name, tinum)]), tinum)
  }

  /** The disk without one reference to the inode: the inode and its block are freed with the last. */
  function DropReference(s: Disk, inum: int): (r: Disk)
    requires Inv(s) && IsFile(s.inodes, inum)
    ensures |r.data| == |s.data|
  {
    var n := s.inodes[inum];
    if n.refCnt == 1 then
      s.(ibitmap := Clear(s.ibitmap, inum),
         inodes := s.inodes[inum := Inode(Free, -1, n.refCnt)],
         dbitmap := if n.addr == -1 then s.dbitmap else Clear(s.dbitmap, n.addr),
         data := if n.addr == -1 then s.data else s.data[n.addr := s.data[n.addr].(ftype := Free, contents := "")])
    else
      s.(inodes := s.inodes[inum := n.(refCnt := n.refCnt - 1)])
  }

  function RemoveFirst(ps: seq<Path>, p: Path): seq<Path> {
    if ps == [] then []
    else if ps[0] == p then ps[1..]
    else [ps[0]] + RemoveFirst(ps[1..], p)
  }

  /** deleteFile. */
  function DeleteFile(s: Disk, file: Path): Disk
    requires Inv(s) && file in s.files
  {
    FileFacts(s, file);
    hide Bits, Structure, Table;
    var s' := DropReference(s, InodeOf(s, file));
    var pblock := BlockOf(s, Parent(file));
    s'.(data := s'.data[pblock := RemoveEntry(s'.data[pblock], Last(file))],
        files := RemoveFirst(s.files, file))
  }

  /** writeFile: whether the one block of the file could be written. */
  function WriteFile(s: Disk, file: Path, contents: string): (Disk, bool)
    requires Inv(s) && file in s.files
  {
    hide Bits, Structure, Table;
    var inum := InodeOf(s, file);
    var fblock := FreeBlock(s);
    if s.inodes[inum].addr != -1 || fblock == -1 then (s, false)
    else
      (s.(dbitmap := Mark(s.dbitmap, fblock),
          data := s.data[fblock := s.data[fblock].(ftype := File, contents := contents)],
          inodes := s.inodes[inum := s.inodes[inum].(addr := fblock)]), true)
  }

  /** The requests of the workload; which file, directory or name is chosen is left open. */
  datatype Op =
    | Create(parent: Path, name: string, ftype: FileType)
    | Link(target: Path, name: string, parent: Path)
    | Unlink(file: Path)
    | Write(file: Path, contents: string)

  predicate Enabled(s: Disk, op: Op) {
    match op
    case Create(parent, name, ftype) => parent in s.dirs && LegalName(name) && ftype != Free
    case Link(target, name, parent) => target in s.files && LegalName(name) && parent in s.dirs
    case Unlink(file) => file in s.files
    case Write(file, _) => file in s.files
  }

  /** One request with its effect on the path table. */
  function Apply(s: Disk, op: Op): Disk
    requires Inv(s) && Enabled(s, op)
  {
    match op
    case Create(parent, name, ftype) =>
      var (s', inum) := CreateFile(s, parent, name, ftype);
      if inum < 0 then s'
      else if ftype == Directory then
        s'.(dirs := s.dirs + [parent + [name]], nameToInum := s.nameToInum[parent + [name] := inum])
      else
        s'.(files := s.files + [parent + [name]], nameToInum := s.nameToInum[parent + [name] := inum])
    case Link(target, name, parent) =>
      var (s', inum) := CreateLink(s, target, name, parent);
      if inum < 0 then s'
      else s'.(files := s.files + [parent + [name]], nameToInum := s.nameToInum[parent + [name] := inum])
    case Unlink(file) => DeleteFile(s, file)
    case Write(file, contents) => WriteFile(s, file, contents).0
  }
}
