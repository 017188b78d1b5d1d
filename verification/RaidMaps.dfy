/** The block maps of RAID levels 0, 1, 4 and 5: where a logical block lies, and where the parity of its
stripe lies. */
module RaidMaps {
  import opened Arithmetic

  datatype Level = Raid4 | Raid5LeftAsymmetric | Raid5LeftSymmetric

  /** An array with parity: the number of disks and the blocks per chunk. */
  datatype Geometry = Geometry(numDisks: nat, chunkSize: nat, level: Level) {
    predicate Valid() {
      numDisks >= 2 && chunkSize >= 1
    }

    function DataDisks(): nat
      requires Valid()
    {
      numDisks - 1
    }

    function BlocksInStripe(): nat
      requires Valid()
    {
      DataDisks() * chunkSize
    }
  }

  datatype Location = Location(disk: nat, off: nat)

  /** A block by its coordinates: stripe, place of the chunk in the stripe, place in the chunk. */
  function BlockAt(g: Geometry, s: nat, k: nat, c: nat): nat
    requires g.Valid()
  {
    (s * g.DataDisks() + k) * g.chunkSize + c
  }

  function StripeOf(g: Geometry, b: nat): nat
    requires g.Valid()
  {
    (b / g.chunkSize) / g.DataDisks()
  }

  function PlaceOf(g: Geometry, b: nat): (k: nat)
    requires g.Valid()
    ensures k < g.DataDisks()
  {
    (b / g.chunkSize) % g.DataDisks()
  }

  function OffsetInChunk(g: Geometry, b: nat): (c: nat)
    requires g.Valid()
    ensures c < g.chunkSize
  {
    b % g.chunkSize
  }

  lemma CoordinatesOf(g: Geometry, s: nat, k: nat, c: nat)
    requires g.Valid() && k < g.DataDisks() && c < g.chunkSize
    ensures var b := BlockAt(g, s, k, c);
            StripeOf(g, b) == s && PlaceOf(g, b) == k && OffsetInChunk(g, b) == c
  {
    var n := s * g.DataDisks() + k;
    DivModUnique(n * g.chunkSize + c, n, c, g.chunkSize);
    DivModUnique(n, s, k, g.DataDisks());
  }

  lemma BlockFromCoordinates(g: Geometry, b: nat)
    requires g.Valid()
    ensures b == BlockAt(g, StripeOf(g, b), PlaceOf(g, b), OffsetInChunk(g, b))
  {
    var n := b / g.chunkSize;
    assert b == n * g.chunkSize + b % g.chunkSize;
    assert n == (n / g.DataDisks()) * g.DataDisks() + n % g.DataDisks();
  }

  /** A block is in the stripe that its number lies in. */
  lemma StripeBounds(g: Geometry, b: nat, s: nat)
    requires g.Valid()
    ensures StripeOf(g, b) == s <==> s * g.BlocksInStripe() <= b < (s + 1) * g.BlocksInStripe()
  {
    var m := g.BlocksInStripe();
    var t, k, c := StripeOf(g, b), PlaceOf(g, b), OffsetInChunk(g, b);
    BlockFromCoordinates(g, b);
    InStripe(g, t, k, c);
    StripeSize(g);
    if t < s { MulMonotone(t + 1, s, m); }
    if t > s { MulMonotone(s + 1, t, m); }
  }

  lemma StripeSize(g: Geometry)
    requires g.Valid()
    ensures g.BlocksInStripe() >= 1
  {
    MulAtLeast(g.DataDisks(), g.chunkSize);
  }

  lemma InStripe(g: Geometry, s: nat, k: nat, c: nat)
    requires g.Valid() && k < g.DataDisks() && c < g.chunkSize
    ensures s * g.BlocksInStripe() <= BlockAt(g, s, k, c) < (s + 1) * g.BlocksInStripe()
  {
    var d, h := g.DataDisks(), g.chunkSize;
    assert BlockAt(g, s, k, c) == s * (d * h) + (k * h + c) by {
      assert (s * d + k) * h == s * d * h + k * h;
      assert s * d * h == s * (d * h);
    }
    assert k * h + h <= d * h by {
      MulMonotone(k + 1, d, h);
      assert (k + 1) * h == k * h + h;
    }
    assert (s + 1) * (d * h) == s * (d * h) + d * h;
  }

  // ----- the maps -----

  function ParityDisk(g: Geometry, s: nat): (p: nat)
    requires g.Valid()
    ensures p < g.numDisks
  {
    if g.level == Raid4 then g.numDisks - 1 else (g.numDisks - 1) - (s % g.numDisks)
  }

  function DataDisk(g: Geometry, s: nat, k: nat): (d: nat)
    requires g.Valid() && k < g.DataDisks()
    ensures d < g.numDisks
  {
    match g.level
    case Raid4 => k
    case Raid5LeftAsymmetric => if k >= ParityDisk(g, s) then k + 1 else k
    case Raid5LeftSymmetric => (k - (s % g.numDisks)) % g.numDisks
  }

  /** bmap4 and bmap5. */
  function BlockMap(g: Geometry, b: nat): Location
    requires g.Valid()
  {
    var s := StripeOf(g, b);
    Location(DataDisk(g, s, PlaceOf(g, b)), s * g.chunkSize + OffsetInChunk(g, b))
  }

  /** pmap4 and pmap5, as computed from the first block of the stripe. */
  function ParityMap(g: Geometry, s: nat): nat
    requires g.Valid()
  {
    if g.level == Raid4 then g.numDisks - 1 else ParityDisk(g, StripeOf(g, s * g.BlocksInStripe()))
  }

  lemma ParityMapIs(g: Geometry, s: nat)
    requires g.Valid()
    ensures ParityMap(g, s) == ParityDisk(g, s)
  {
    StripeSize(g);
    assert (s + 1) * g.BlocksInStripe() == s * g.BlocksInStripe() + g.BlocksInStripe();
    StripeBounds(g, s * g.BlocksInStripe(), s);
  }

  /** The program's assertion disk != pdisk. */
  lemma DataNotOnParity(g: Geometry, s: nat, k: nat)
    requires g.Valid() && k < g.DataDisks()
    ensures DataDisk(g, s, k) != ParityDisk(g, s)
  {
    if g.level == Raid5LeftSymmetric {
      SymmetricDisk(g, s, k);
    }
  }

  lemma SymmetricDisk(g: Geometry, s: nat, k: nat)
    requires g.Valid() && k < g.DataDisks() && g.level == Raid5LeftSymmetric
    ensures var col := s % g.numDisks;
            DataDisk(g, s, k) == if k >= col then k - col else k - col + g.numDisks
  {
    var n, col := g.numDisks, s % g.numDisks;
    if k >= col {
      DivModUnique(k - col, 0, k - col, n);
    } else {
      DivModUnique(k - col, -1, k - col + n, n);
    }
  }

  /** The place in the stripe that a disk holds, the inverse of DataDisk. */
  function PlaceOnDisk(g: Geometry, s: nat, disk: nat): (k: nat)
    requires g.Valid() && disk < g.numDisks && disk != ParityDisk(g, s)
    ensures k < g.DataDisks()
  {
    var col := s % g.numDisks;
    match g.level
    case Raid4 => disk
    case Raid5LeftAsymmetric => if disk > ParityDisk(g, s) then disk - 1 else disk
    case Raid5LeftSymmetric => if disk + col < g.numDisks then disk + col else disk + col - g.numDisks
  }

  /** At one stripe, data and parity use each disk exactly once. */
  lemma EachDiskOnce(g: Geometry, s: nat, disk: nat, k: nat)
    requires g.Valid() && disk < g.numDisks && k < g.DataDisks()
    ensures DataDisk(g, s, k) == disk <==> disk != ParityDisk(g, s) && k == PlaceOnDisk(g, s, disk)
  {
    DataNotOnParity(g, s, k);
    if g.level == Raid5LeftSymmetric {
      SymmetricDisk(g, s, k);
    }
  }

  /** Within numDisks consecutive stripes, each disk holds the parity of exactly one. */
  lemma ParityRotates(g: Geometry, s: nat, disk: nat, i: nat)
    requires g.Valid() && g.level != Raid4 && disk < g.numDisks && i < g.numDisks
    ensures ParityDisk(g, s + i) == disk <==> i == (g.numDisks - 1 - disk - s % g.numDisks) % g.numDisks
  {
    var n, r := g.numDisks, s % g.numDisks;
    var want := n - 1 - disk;
    assert s == (s / n) * n + r;
    if r + i < n {
      assert s + i == (s / n) * n + (r + i);
      DivModUnique(s + i, s / n, r + i, n);
    } else {
      assert s + i == (s / n + 1) * n + (r + i - n);
      DivModUnique(s + i, s / n + 1, r + i - n, n);
    }
    if want >= r {
      DivModUnique(want - r, 0, want - r, n);
    } else {
      DivModUnique(want - r, -1, want - r + n, n);
    }
  }

  /** Where a location's block comes from. */
  lemma LocationCoordinates(g: Geometry, b: nat)
    requires g.Valid()
    ensures var l := BlockMap(g, b);
            l.off / g.chunkSize == StripeOf(g, b) && l.off % g.chunkSize == OffsetInChunk(g, b)
  {
    DivModUnique(BlockMap(g, b).off, StripeOf(g, b), OffsetInChunk(g, b), g.chunkSize);
  }

  /** On level 5 the parity of the first stripe is on the last disk, and from one stripe to the next it goes one disk to
  the left and from the first to the last; on level 4 it stays on the last disk. */
  lemma ParityStepsLeft(g: Geometry, s: nat)
    requires g.Valid()
    ensures ParityDisk(g, 0) == g.numDisks - 1
    ensures ParityDisk(g, s + 1) == if g.level == Raid4 then g.numDisks - 1
                                    else if ParityDisk(g, s) > 0 then ParityDisk(g, s) - 1 else g.numDisks - 1
  {
    var n, q, r := g.numDisks, s / g.numDisks, s % g.numDisks;
    assert s == q * n + r;
    if r + 1 < n {
      DivModUnique(s + 1, q, r + 1, n);
    } else {
      assert (q + 1) * n == q * n + n;
      DivModUnique(s + 1, q + 1, 0, n);
    }
  }

  /** On level 4 and in the left-asymmetric layout a stripe's chunks lie in the order of the disks. */
  lemma ChunksInOrder(g: Geometry, s: nat, j: nat, k: nat)
    requires g.Valid() && g.level != Raid5LeftSymmetric && j < k < g.DataDisks()
    ensures DataDisk(g, s, j) < DataDisk(g, s, k)
  {
  }

  lemma Regrouped(n: int, s: int, q: int, col: int, k: int)
    requires s == q * n + col
    ensures s * (n - 1) + k == (s - q) * n + (k - col)
  {
    assert s * (n - 1) == s * n - s;
    assert (s - q) * n == s * n - q * n;
  }

  lemma ChunkNumberMod(n: nat, s: nat, k: nat)
    requires n >= 2 && k < n - 1
    ensures (s * (n - 1) + k) % n == if k >= s % n then k - s % n else k - s % n + n
  {
    var q, col := s / n, s % n;
    assert s == q * n + col;
    Regrouped(n, s, q, col, k);
    var x := s - q;
    if k >= col {
      DivModUnique(x * n + (k - col), x, k - col, n);
    } else {
      assert (x - 1) * n == x * n - n;
      DivModUnique(x * n + (k - col), x - 1, k - col + n, n);
    }
  }

  lemma ChunkNumber(g: Geometry, b: nat)
    requires g.Valid()
    ensures b / g.chunkSize == StripeOf(g, b) * g.DataDisks() + PlaceOf(g, b)
  {
  }

  /** In the left-symmetric layout consecutive chunks lie on consecutive disks, across the stripes. */
  lemma ChunksRotate(g: Geometry, b: nat)
    requires g.Valid() && g.level == Raid5LeftSymmetric
    ensures BlockMap(g, b).disk == (b / g.chunkSize) % g.numDisks
  {
    var s, k := StripeOf(g, b), PlaceOf(g, b);
    assert BlockMap(g, b).disk == DataDisk(g, s, k);
    ChunkNumber(g, b);
    hide StripeOf, PlaceOf, DataDisk, BlockMap;
    SymmetricDisk(g, s, k);
    ChunkNumberMod(g.numDisks, s, k);
  }

  /** No two blocks share a location, and no block lies where its stripe's parity does. */
  lemma BlockMapInjective(g: Geometry, a: nat, b: nat)
    requires g.Valid()
    ensures a != b ==> BlockMap(g, a) != BlockMap(g, b)
    ensures BlockMap(g, a).disk != ParityDisk(g, StripeOf(g, a))
  {
    DataNotOnParity(g, StripeOf(g, a), PlaceOf(g, a));
    if BlockMap(g, a) == BlockMap(g, b) {
      LocationCoordinates(g, a);
      LocationCoordinates(g, b);
      var s := StripeOf(g, a);
      EachDiskOnce(g, s, BlockMap(g, a).disk, PlaceOf(g, a));
      EachDiskOnce(g, s, BlockMap(g, b).disk, PlaceOf(g, b));
      BlockFromCoordinates(g, a);
      BlockFromCoordinates(g, b);
    }
  }

  // ----- levels 0 and 1 -----

  function BlockMap0(numDisks: nat, chunkSize: nat, b: nat): Location
    requires numDisks >= 1 && chunkSize >= 1
  {
    var cnum := b / chunkSize;
    MulNat(cnum / numDisks, chunkSize);
    Location(cnum % numDisks, (cnum / numDisks) * chunkSize + b % chunkSize)
  }

  lemma BlockMap0Injective(numDisks: nat, chunkSize: nat, a: nat, b: nat)
    requires numDisks >= 1 && chunkSize >= 1
    requires BlockMap0(numDisks, chunkSize, a) == BlockMap0(numDisks, chunkSize, b)
    ensures a == b
  {
    var l := BlockMap0(numDisks, chunkSize, a);
    var x, y := a / chunkSize, b / chunkSize;
    DivModUnique(l.off, x / numDisks, a % chunkSize, chunkSize);
    DivModUnique(l.off, y / numDisks, b % chunkSize, chunkSize);
    assert x == (x / numDisks) * numDisks + x % numDisks;
    assert y == (y / numDisks) * numDisks + y % numDisks;
    assert a == x * chunkSize + a % chunkSize;
    assert b == y * chunkSize + b % chunkSize;
  }

  /** Striping starts at the first disk and puts the next chunk on the next disk, and behind the last disk one chunk
  further on the first. */
  lemma StripingNext(numDisks: nat, chunkSize: nat, b: nat)
    requires numDisks >= 1 && chunkSize >= 1
    ensures b < chunkSize ==> BlockMap0(numDisks, chunkSize, b) == Location(0, b)
    ensures var l, l' := BlockMap0(numDisks, chunkSize, b), BlockMap0(numDisks, chunkSize, b + chunkSize);
            l' == if l.disk + 1 < numDisks then Location(l.disk + 1, l.off) else Location(0, l.off + chunkSize)
  {
    var c, r := b / chunkSize, b % chunkSize;
    assert b == c * chunkSize + r;
    assert (c + 1) * chunkSize == c * chunkSize + chunkSize;
    DivModUnique(b + chunkSize, c + 1, r, chunkSize);
    if b < chunkSize {
      DivModUnique(b, 0, b, chunkSize);
      DivModUnique(0, 0, 0, numDisks);
    }
    var q, d := c / numDisks, c % numDisks;
    assert c == q * numDisks + d;
    if d + 1 < numDisks {
      DivModUnique(c + 1, q, d + 1, numDisks);
    } else {
      assert (q + 1) * numDisks == q * numDisks + numDisks;
      DivModUnique(c + 1, q + 1, 0, numDisks);
      assert (q + 1) * chunkSize == q * chunkSize + chunkSize;
    }
  }

  /** bmap1: two disks next to each other hold the block. */
  function BlockMap1(numDisks: nat, chunkSize: nat, b: nat): (Location, Location)
    requires numDisks >= 2 && numDisks % 2 == 0 && chunkSize >= 1
  {
    var l := BlockMap0(numDisks / 2, chunkSize, b);
    (Location(2 * l.disk, l.off), Location(2 * l.disk + 1, l.off))
  }

  /** Mirrored blocks lie on two disks of the array that no other block shares at that offset. */
  lemma BlockMap1Injective(numDisks: nat, chunkSize: nat, a: nat, b: nat)
    requires numDisks >= 2 && numDisks % 2 == 0 && chunkSize >= 1
    ensures var (l, m) := BlockMap1(numDisks, chunkSize, a);
            l != m && l.disk < numDisks && m.disk < numDisks
            && (a != b ==> var (l', m') := BlockMap1(numDisks, chunkSize, b); l != l' && l != m' && m != l' && m != m')
  {
    if a != b && BlockMap0(numDisks / 2, chunkSize, a) == BlockMap0(numDisks / 2, chunkSize, b) {
      BlockMap0Injective(numDisks / 2, chunkSize, a, b);
    }
  }

  /** The two disks of a mirrored block are a pair, and its offset on them is that of striping over the pairs. */
  lemma MirrorsTogether(numDisks: nat, chunkSize: nat, b: nat)
    requires numDisks >= 2 && numDisks % 2 == 0 && chunkSize >= 1
    ensures var (l, m) := BlockMap1(numDisks, chunkSize, b);
            && l.disk % 2 == 0 && m == Location(l.disk + 1, l.off)
            && BlockMap0(numDisks / 2, chunkSize, b) == Location(l.disk / 2, l.off)
  {
    hide BlockMap0;
  }
}
