/** How many reads a partial write issues, and when its choice between the two parity plans is the cheaper one. */
module RaidPlans {
  import opened Arithmetic
  import opened RaidMaps
  import opened RaidWrites

  /** The reads with the old parity: the blocks to be overwritten and one parity block for each of their offsets. */
  function SubtractiveReads(g: Geometry, begin: nat, end: nat): nat
    requires g.Valid() && begin <= end
  {
    end - begin + |Offsets(g, begin, end)|
  }

  /** The reads without it: the other blocks of the stripe. */
  function AdditiveReads(g: Geometry, begin: nat, end: nat): int
    requires g.Valid() && begin <= end
  {
    g.BlocksInStripe() - (end - begin)
  }

  lemma {:induction false} SomeOffset(g: Geometry, begin: nat, end: nat)
    requires g.Valid() && begin < end
    ensures |Offsets(g, begin, end)| >= 1
  {
    OffsetsAre(g, begin, end);
    assert BlockMap(g, begin).off in Offsets(g, begin, end);
  }

  lemma ReadsOfPlan(g: Geometry, s: nat, begin: nat, end: nat)
    requires g.Valid() && InOneStripe(g, s, begin, end)
    ensures |ReadPlan(g, s, begin, end)| == SubtractiveReads(g, begin, end)
            || |ReadPlan(g, s, begin, end)| == AdditiveReads(g, begin, end)
    ensures |ReadPlan(g, s, begin, end)| == SubtractiveReads(g, begin, end)
            <== end - begin + 1 <= AdditiveReads(g, begin, end)
    ensures |ReadPlan(g, s, begin, end)| == AdditiveReads(g, begin, end)
            <== end - begin + 1 > AdditiveReads(g, begin, end)
  {
    hide Offsets, BlockMap, ParityMap;
  }

  /** A partial write issues the fewer reads of the two plans, exactly unless the parity blocks, which it counts as one,
  make the plan with the old parity the dearer one. */
  lemma FewestReadsIff(g: Geometry, s: nat, begin: nat, end: nat)
    requires g.Valid() && InOneStripe(g, s, begin, end) && begin < end
    ensures var sub, add := SubtractiveReads(g, begin, end), AdditiveReads(g, begin, end);
            |ReadPlan(g, s, begin, end)| == (if sub <= add then sub else add)
            <==> !(end - begin + 1 <= add < sub)
  {
    SomeOffset(g, begin, end);
    ReadsOfPlan(g, s, begin, end);
    hide ReadPlan, Offsets;
  }

  /** With chunks of one block a stripe has one offset, and the choice is always the cheaper plan. */
  lemma FewestReads(g: Geometry, s: nat, begin: nat, end: nat)
    requires g.Valid() && InOneStripe(g, s, begin, end) && begin < end && g.chunkSize == 1
    ensures SubtractiveReads(g, begin, end) == end - begin + 1
    ensures |ReadPlan(g, s, begin, end)| <= SubtractiveReads(g, begin, end)
    ensures |ReadPlan(g, s, begin, end)| <= AdditiveReads(g, begin, end)
  {
    OneOffset(g, s, begin, end);
    ReadsOfPlan(g, s, begin, end);
    hide ReadPlan, Offsets;
  }

  lemma OneOffset(g: Geometry, s: nat, begin: nat, end: nat)
    requires g.Valid() && InOneStripe(g, s, begin, end) && begin < end && g.chunkSize == 1
    ensures |Offsets(g, begin, end)| == 1
  {
    SomeOffset(g, begin, end);
    OffsetsAre(g, begin, end);
    var offs := Offsets(g, begin, end);
    hide Offsets, BlockMap;
    forall i | 0 <= i < |offs|
      ensures offs[i] == s
    {
      assert offs[i] in offs;
      var v :| begin <= v < end && BlockMap(g, v).off == offs[i];
      StripeBoundsIn(g, s, v);
      LocationCoordinates(g, v);
    }
    var last := |offs| - 1;
    assert offs[0] == offs[last];
  }

  /** With larger chunks it can be the dearer one: the first n blocks of the array lie at n offsets, or as many as a
  chunk has. With four disks and four blocks to a chunk, writing the first five blocks issues nine reads where seven
  would do. */
  lemma LargeChunksReadMore(g: Geometry, n: nat)
    requires g.Valid() && n <= g.BlocksInStripe()
    requires n + 1 <= g.BlocksInStripe() - n < n + if n < g.chunkSize then n else g.chunkSize
    ensures |ReadPlan(g, 0, 0, n)| == n + (if n < g.chunkSize then n else g.chunkSize) > AdditiveReads(g, 0, n)
  {
    FirstOffsets(g, n);
    ReadsOfPlan(g, 0, 0, n);
    hide ReadPlan, Offsets;
  }

  lemma {:induction false} FirstOffsets(g: Geometry, n: nat)
    requires g.Valid() && n <= g.BlocksInStripe()
    ensures |Offsets(g, 0, n)| == if n < g.chunkSize then n else g.chunkSize
    ensures forall o :: o in Offsets(g, 0, n) <==> 0 <= o < |Offsets(g, 0, n)|
  {
    if n > 0 {
      FirstOffsets(g, n - 1);
      InFirstStripe(g, n - 1);
      hide BlockMap;
      if n - 1 < g.chunkSize {
        DivModUnique(n - 1, 0, n - 1, g.chunkSize);
      }
    }
  }

  lemma InFirstStripe(g: Geometry, v: nat)
    requires g.Valid() && v < g.BlocksInStripe()
    ensures BlockMap(g, v).off == v % g.chunkSize
  {
    StripeBoundsIn(g, 0, v);
  }
}
