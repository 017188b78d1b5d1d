/** Writes on RAID levels 4 and 5: how a request is cut into stripes, which blocks are read and written
for each piece, and that the parity can be recomputed from what was read. */
module RaidWrites {
  import opened RaidMaps

  datatype IO = ReadIO(at: Location) | WriteIO(at: Location)

  // ----- the plan for one stripe -----

  /** Use the old parity and the blocks to be overwritten, or all other blocks of the stripe. */
  predicate Subtractive(g: Geometry, numWrites: nat)
    requires g.Valid()
  {
    numWrites + 1 <= g.BlocksInStripe() - numWrites
  }

  function Reads(g: Geometry, lo: nat, hi: nat): seq<IO>
    requires g.Valid() && lo <= hi
  {
    seq(hi - lo, i requires 0 <= i < hi - lo => ReadIO(BlockMap(g, lo + i)))
  }

  function Writes(g: Geometry, lo: nat, hi: nat): seq<IO>
    requires g.Valid() && lo <= hi
  {
    seq(hi - lo, i requires 0 <= i < hi - lo => WriteIO(BlockMap(g, lo + i)))
  }

  /** The disk offsets of the blocks from lo to hi, each once, in the order of first appearance. */
  function Offsets(g: Geometry, lo: nat, hi: nat): seq<nat>
    requires g.Valid() && lo <= hi
    decreases hi - lo
  {
    if lo == hi then []
    else
      var rest, off := Offsets(g, lo, hi - 1), BlockMap(g, hi - 1).off;
      if off in rest then rest else rest + [off]
  }

  function ParityReads(p: nat, offs: seq<nat>): seq<IO> {
    seq(|offs|, i requires 0 <= i < |offs| => ReadIO(Location(p, offs[i])))
  }

  function ParityWrites(p: nat, offs: seq<nat>): seq<IO> {
    seq(|offs|, i requires 0 <= i < |offs| => WriteIO(Location(p, offs[i])))
  }

  /** The blocks from begin to end lie in the stripe. */
  predicate InOneStripe(g: Geometry, s: nat, begin: nat, end: nat)
    requires g.Valid()
  {
    s * g.BlocksInStripe() <= begin <= end <= s * g.BlocksInStripe() + g.BlocksInStripe()
  }

  function ReadPlan(g: Geometry, s: nat, begin: nat, end: nat): seq<IO>
    requires g.Valid() && InOneStripe(g, s, begin, end)
  {
    var first, last := s * g.BlocksInStripe(), s * g.BlocksInStripe() + g.BlocksInStripe();
    if Subtractive(g, end - begin) then Reads(g, begin, end) + ParityReads(ParityMap(g, s), Offsets(g, begin, end))
    else Reads(g, first, begin) + Reads(g, end, last)
  }

  function WritePlan(g: Geometry, s: nat, begin: nat, end: nat): seq<IO>
    requires g.Valid() && InOneStripe(g, s, begin, end)
  {
    Writes(g, begin, end) + ParityWrites(ParityMap(g, s), Offsets(g, begin, end))
  }

  /** The blocks to be overwritten, then the old parity of their offsets. */
  method IssueSubtractive(g: Geometry, pdisk: nat, begin: nat, end: nat) returns (ios: seq<IO>)
    requires g.Valid() && begin <= end
    ensures ios == Reads(g, begin, end) + ParityReads(pdisk, Offsets(g, begin, end))
  {
    hide BlockMap;
    ios := [];
    var offList: seq<nat> := [];
    for voff := begin to end
      invariant ios == Reads(g, begin, voff) && offList == Offsets(g, begin, voff)
    {
      var l := BlockMap(g, voff);
      ios := ios + [ReadIO(l)];
      if l.off !in offList {
        offList := offList + [l.off];
      }
    }
    for i := 0 to |offList|
      invariant ios == Reads(g, begin, end) + ParityReads(pdisk, offList[..i])
    {
      ios := ios + [ReadIO(Location(pdisk, offList[i]))];
    }
    assert offList[..|offList|] == offList;
  }

  /** The blocks of the stripe that are not overwritten. */
  method IssueAdditive(g: Geometry, first: nat, begin: nat, end: nat, last: nat) returns (ios: seq<IO>)
    requires g.Valid() && first <= begin <= end <= last
    ensures ios == Reads(g, first, begin) + Reads(g, end, last)
  {
    hide BlockMap;
    ios := [];
    for voff := first to begin
      invariant ios == Reads(g, first, voff)
    {
      ios := ios + [ReadIO(BlockMap(g, voff))];
    }
    for voff := end to last
      invariant ios == Reads(g, first, begin) + Reads(g, end, voff)
    {
      ios := ios + [ReadIO(BlockMap(g, voff))];
    }
  }

  /** The new blocks, then the new parity of their offsets. */
  method IssueWrites(g: Geometry, pdisk: nat, begin: nat, end: nat) returns (ios: seq<IO>)
    requires g.Valid() && begin <= end
    ensures ios == Writes(g, begin, end) + ParityWrites(pdisk, Offsets(g, begin, end))
  {
    hide BlockMap;
    ios := [];
    var offList: seq<nat> := [];
    for voff := begin to end
      invariant ios == Writes(g, begin, voff) && offList == Offsets(g, begin, voff)
    {
      var l := BlockMap(g, voff);
      ios := ios + [WriteIO(l)];
      if l.off !in offList {
        offList := offList + [l.off];
      }
    }
    for i := 0 to |offList|
      invariant ios == Writes(g, begin, end) + ParityWrites(pdisk, offList[..i])
    {
      ios := ios + [WriteIO(Location(pdisk, offList[i]))];
    }
    assert offList[..|offList|] == offList;
  }

  /** doPartialWrite: the operations it issues, in order. */
  method PartialWrite(g: Geometry, s: nat, begin: nat, end: nat) returns (ios: seq<IO>)
    requires g.Valid() && InOneStripe(g, s, begin, end)
    ensures ios == ReadPlan(g, s, begin, end) + WritePlan(g, s, begin, end)
  {
    var numWrites := end - begin;
    var pdisk := ParityMap(g, s);
    if numWrites + 1 <= g.BlocksInStripe() - numWrites {
      ios := IssueSubtractive(g, pdisk, begin, end);
    } else {
      var stripeBegin := s * g.BlocksInStripe();
      var stripeEnd := stripeBegin + g.BlocksInStripe();
      ios := IssueAdditive(g, stripeBegin, begin, end, stripeEnd);
    }
    var writes := IssueWrites(g, pdisk, begin, end);
    ios := ios + writes;
  }

  // ----- what the plan writes -----

  lemma {:induction false} OffsetsAre(g: Geometry, lo: nat, hi: nat)
    requires g.Valid() && lo <= hi
    ensures forall o :: o in Offsets(g, lo, hi) <==> exists v :: lo <= v < hi && BlockMap(g, v).off == o
    ensures forall i, j :: 0 <= i < j < |Offsets(g, lo, hi)| ==> Offsets(g, lo, hi)[i] != Offsets(g, lo, hi)[j]
    decreases hi - lo
  {
    hide BlockMap;
    if lo < hi {
      OffsetsAre(g, lo, hi - 1);
      var rest := Offsets(g, lo, hi - 1);
      forall o ensures o in Offsets(g, lo, hi) <==> exists v :: lo <= v < hi && BlockMap(g, v).off == o {
        if o in Offsets(g, lo, hi) {
          if o in rest {
            var v :| lo <= v < hi - 1 && BlockMap(g, v).off == o;
            assert lo <= v < hi && BlockMap(g, v).off == o;
          } else {
            assert lo <= hi - 1 < hi && BlockMap(g, hi - 1).off == o;
          }
        }
        if exists v :: lo <= v < hi && BlockMap(g, v).off == o {
          var v :| lo <= v < hi && BlockMap(g, v).off == o;
          if v < hi - 1 {
            assert o in rest;
          }
        }
      }
    }
  }

  /** Every location is written at most once: data blocks and parity blocks never coincide. */
  lemma WritesDistinct(g: Geometry, s: nat, begin: nat, end: nat)
    requires g.Valid() && InOneStripe(g, s, begin, end)
    ensures var plan := WritePlan(g, s, begin, end);
            forall i, j :: 0 <= i < j < |plan| ==> plan[i].at != plan[j].at
  {
    var plan, n, offs := WritePlan(g, s, begin, end), end - begin, Offsets(g, begin, end);
    OffsetsAre(g, begin, end);
    ParityMapIs(g, s);
    forall i, j | 0 <= i < j < |plan| ensures plan[i].at != plan[j].at {
      if i < n {
        StripeBoundsIn(g, s, begin + i);
        DataNotOnParity(g, s, PlaceOf(g, begin + i));
        if j < n && plan[i].at == plan[j].at {
          BlockMapInjective(g, begin + i, begin + j);
        }
      } else {
        assert plan[i].at.off == offs[i - n] && plan[j].at.off == offs[j - n];
      }
    }
  }

  lemma StripeBoundsIn(g: Geometry, s: nat, b: nat)
    requires g.Valid()
    requires s * g.BlocksInStripe() <= b < s * g.BlocksInStripe() + g.BlocksInStripe()
    ensures StripeOf(g, b) == s
  {
    assert (s + 1) * g.BlocksInStripe() == s * g.BlocksInStripe() + g.BlocksInStripe();
    StripeBounds(g, b, s);
  }

  // ----- parity -----

  /** What the disks hold. */
  type Contents = Location -> bv8

  /** New values for logical blocks. */
  type NewData = nat -> bv8

  function Xor(x: bv8, y: bv8): bv8 {
    x ^ y
  }

  /** The exclusive or of the first n data blocks of a stripe at one chunk offset. */
  function XorData(g: Geometry, m: Contents, s: nat, c: nat, n: nat): bv8
    requires g.Valid() && n <= g.DataDisks()
  {
    if n == 0 then 0 else Xor(XorData(g, m, s, c, n - 1), m(BlockMap(g, BlockAt(g, s, n - 1, c))))
  }

  function ParityAt(g: Geometry, s: nat, c: nat): Location
    requires g.Valid()
  {
    Location(ParityMap(g, s), s * g.chunkSize + c)
  }

  /** The parity invariant of a stripe. */
  ghost predicate ParityOk(g: Geometry, m: Contents, s: nat)
    requires g.Valid()
  {
    forall c :: 0 <= c < g.chunkSize ==> m(ParityAt(g, s, c)) == XorData(g, m, s, c, g.DataDisks())
  }

  /** The change of the overwritten blocks at one chunk offset, and the new data there. */
  function XorChange(g: Geometry, m: Contents, newData: NewData, s: nat, c: nat, begin: nat, end: nat, n: nat): bv8
    requires g.Valid() && n <= g.DataDisks()
  {
    if n == 0 then 0
    else
      var b := BlockAt(g, s, n - 1, c);
      Xor(XorChange(g, m, newData, s, c, begin, end, n - 1),
          if begin <= b < end then Xor(m(BlockMap(g, b)), newData(b)) else 0)
  }

  function XorNew(g: Geometry, m: Contents, newData: NewData, s: nat, c: nat, begin: nat, end: nat, n: nat): bv8
    requires g.Valid() && n <= g.DataDisks()
  {
    if n == 0 then 0
    else
      var b := BlockAt(g, s, n - 1, c);
      Xor(XorNew(g, m, newData, s, c, begin, end, n - 1), if begin <= b < end then newData(b) else m(BlockMap(g, b)))
  }

  /** The parity that the controller computes from what the plan reads. */
  function NewParity(g: Geometry, m: Contents, newData: NewData, s: nat, c: nat, begin: nat, end: nat): bv8
    requires g.Valid() && begin <= end
  {
    if Subtractive(g, end - begin) then
      Xor(m(ParityAt(g, s, c)), XorChange(g, m, newData, s, c, begin, end, g.DataDisks()))
    else XorNew(g, m, newData, s, c, begin, end, g.DataDisks())
  }

  ghost predicate AgreeOnReads(ios: seq<IO>, m: Contents, m': Contents) {
    forall i :: 0 <= i < |ios| && ios[i].ReadIO? ==> m(ios[i].at) == m'(ios[i].at)
  }

  lemma {:induction false} XorChangeFromReads(g: Geometry, m: Contents, m': Contents, newData: NewData, s: nat,
        c: nat, begin: nat, end: nat, n: nat)
    requires g.Valid() && n <= g.DataDisks()
    requires forall b :: begin <= b < end ==> m(BlockMap(g, b)) == m'(BlockMap(g, b))
    ensures XorChange(g, m, newData, s, c, begin, end, n) == XorChange(g, m', newData, s, c, begin, end, n)
  {
    if n > 0 {
      XorChangeFromReads(g, m, m', newData, s, c, begin, end, n - 1);
    }
  }

  lemma {:induction false} XorNewFromReads(g: Geometry, m: Contents, m': Contents, newData: NewData, s: nat, c: nat,
        begin: nat, end: nat, n: nat)
    requires g.Valid() && n <= g.DataDisks() && c < g.chunkSize
    requires forall b: nat :: StripeOf(g, b) == s && !(begin <= b < end) ==> m(BlockMap(g, b)) == m'(BlockMap(g, b))
    ensures XorNew(g, m, newData, s, c, begin, end, n) == XorNew(g, m', newData, s, c, begin, end, n)
  {
    hide BlockMap, BlockAt;
    if n > 0 {
      XorNewFromReads(g, m, m', newData, s, c, begin, end, n - 1);
      CoordinatesOf(g, s, n - 1, c);
    }
  }

  lemma ReadsCover(g: Geometry, lo: nat, hi: nat, m: Contents, m': Contents)
    requires g.Valid() && lo <= hi && AgreeOnReads(Reads(g, lo, hi), m, m')
    ensures forall b :: lo <= b < hi ==> m(BlockMap(g, b)) == m'(BlockMap(g, b))
  {
    forall b | lo <= b < hi ensures m(BlockMap(g, b)) == m'(BlockMap(g, b)) {
      assert Reads(g, lo, hi)[b - lo] == ReadIO(BlockMap(g, b));
    }
  }

  lemma AgreeParts(a: seq<IO>, b: seq<IO>, m: Contents, m': Contents)
    requires AgreeOnReads(a + b, m, m')
    ensures AgreeOnReads(a, m, m') && AgreeOnReads(b, m, m')
  {
    assert forall i :: 0 <= i < |a| ==> (a + b)[i] == a[i];
    assert forall i :: 0 <= i < |b| ==> (a + b)[|a| + i] == b[i];
  }

  lemma BlockRange(g: Geometry, s: nat, b: nat)
    requires g.Valid() && StripeOf(g, b) == s
    ensures s * g.BlocksInStripe() <= b < s * g.BlocksInStripe() + g.BlocksInStripe()
  {
    StripeBounds(g, b, s);
    assert (s + 1) * g.BlocksInStripe() == s * g.BlocksInStripe() + g.BlocksInStripe();
  }

  lemma SubtractiveFromReads(g: Geometry, m: Contents, m': Contents, newData: NewData, s: nat, c: nat, begin: nat,
        end: nat)
    requires g.Valid() && begin <= end && c < g.chunkSize && s * g.chunkSize + c in Offsets(g, begin, end)
    requires AgreeOnReads(Reads(g, begin, end) + ParityReads(ParityMap(g, s), Offsets(g, begin, end)), m, m')
    ensures m(ParityAt(g, s, c)) == m'(ParityAt(g, s, c))
    ensures XorChange(g, m, newData, s, c, begin, end, g.DataDisks())
            == XorChange(g, m', newData, s, c, begin, end, g.DataDisks())
  {
    hide BlockMap, BlockAt, StripeOf, XorChange, AgreeOnReads;
    var offs, p := Offsets(g, begin, end), ParityMap(g, s);
    AgreeParts(Reads(g, begin, end), ParityReads(p, offs), m, m');
    ReadsCover(g, begin, end, m, m');
    XorChangeFromReads(g, m, m', newData, s, c, begin, end, g.DataDisks());
    ParityRead(p, offs, s * g.chunkSize + c, m, m');
  }

  lemma AdditiveFromReads(g: Geometry, m: Contents, m': Contents, newData: NewData, s: nat, c: nat, begin: nat,
        end: nat)
    requires g.Valid() && InOneStripe(g, s, begin, end) && c < g.chunkSize
    requires var first := s * g.BlocksInStripe();
             AgreeOnReads(Reads(g, first, begin) + Reads(g, end, first + g.BlocksInStripe()), m, m')
    ensures XorNew(g, m, newData, s, c, begin, end, g.DataDisks())
            == XorNew(g, m', newData, s, c, begin, end, g.DataDisks())
  {
    hide BlockMap, BlockAt, StripeOf, XorNew, AgreeOnReads;
    var first, last := s * g.BlocksInStripe(), s * g.BlocksInStripe() + g.BlocksInStripe();
    AgreeParts(Reads(g, first, begin), Reads(g, end, last), m, m');
    ReadsCover(g, first, begin, m, m');
    ReadsCover(g, end, last, m, m');
    forall b: nat | StripeOf(g, b) == s && !(begin <= b < end)
      ensures m(BlockMap(g, b)) == m'(BlockMap(g, b))
    {
      BlockRange(g, s, b);
    }
    XorNewFromReads(g, m, m', newData, s, c, begin, end, g.DataDisks());
  }

  /** The plan reads all that the new parity depends on, wherever a block is overwritten. */
  lemma ParityFromReads(g: Geometry, m: Contents, m': Contents, newData: NewData, s: nat, c: nat, begin: nat, end: nat)
    requires g.Valid() && InOneStripe(g, s, begin, end) && c < g.chunkSize
    requires s * g.chunkSize + c in Offsets(g, begin, end)
    requires AgreeOnReads(ReadPlan(g, s, begin, end), m, m')
    ensures NewParity(g, m, newData, s, c, begin, end) == NewParity(g, m', newData, s, c, begin, end)
  {
    hide BlockMap, BlockAt, XorChange, XorNew, AgreeOnReads, Offsets, Reads, ParityReads, ParityAt;
    if Subtractive(g, end - begin) {
      SubtractiveFromReads(g, m, m', newData, s, c, begin, end);
    } else {
      AdditiveFromReads(g, m, m', newData, s, c, begin, end);
    }
  }

  lemma ParityRead(p: nat, offs: seq<nat>, o: nat, m: Contents, m': Contents)
    requires o in offs && AgreeOnReads(ParityReads(p, offs), m, m')
    ensures m(Location(p, o)) == m'(Location(p, o))
  {
    var i :| 0 <= i < |offs| && offs[i] == o;
    assert ParityReads(p, offs)[i] == ReadIO(Location(p, o));
  }

  // ----- after the write -----

  /** The disks after the piece was written: new data, and new parity at the offsets written. */
  ghost predicate Written(g: Geometry, m: Contents, newData: NewData, s: nat, begin: nat, end: nat, m': Contents)
    requires g.Valid() && InOneStripe(g, s, begin, end)
  {
    && (forall b :: begin <= b < end ==> m'(BlockMap(g, b)) == newData(b))
    && (forall c :: 0 <= c < g.chunkSize && s * g.chunkSize + c in Offsets(g, begin, end) ==>
          m'(ParityAt(g, s, c)) == NewParity(g, m, newData, s, c, begin, end))
    && (forall l ::
          (forall i :: 0 <= i < |WritePlan(g, s, begin, end)| ==> WritePlan(g, s, begin, end)[i].at != l) ==>
            m'(l) == m(l))
  }

  lemma NotWritten(g: Geometry, s: nat, begin: nat, end: nat, l: Location)
    requires g.Valid() && InOneStripe(g, s, begin, end)
    requires forall b :: begin <= b < end ==> BlockMap(g, b) != l
    requires l.disk == ParityMap(g, s) ==> l.off !in Offsets(g, begin, end)
    ensures forall i :: 0 <= i < |WritePlan(g, s, begin, end)| ==> WritePlan(g, s, begin, end)[i].at != l
  {
    hide BlockMap;
  }

  /** A data block outside the piece keeps its contents. */
  lemma OtherDataKept(g: Geometry, m: Contents, newData: NewData, s: nat, begin: nat, end: nat, m': Contents, b: nat)
    requires g.Valid() && InOneStripe(g, s, begin, end) && Written(g, m, newData, s, begin, end, m')
    requires !(begin <= b < end)
    ensures m'(BlockMap(g, b)) == m(BlockMap(g, b))
  {
    hide Offsets, NewParity, ParityDisk;
    var l := BlockMap(g, b);
    forall a | begin <= a < end ensures BlockMap(g, a) != l {
      if BlockMap(g, a) == l { BlockMapInjective(g, a, b); }
    }
    if l.disk == ParityMap(g, s) && l.off in Offsets(g, begin, end) {
      OffsetsAre(g, begin, end);
      var v :| begin <= v < end && BlockMap(g, v).off == l.off;
      LocationCoordinates(g, v);
      LocationCoordinates(g, b);
      StripeBoundsIn(g, s, v);
      ParityMapIs(g, s);
      DataNotOnParity(g, s, PlaceOf(g, b));
    }
    NotWritten(g, s, begin, end, l);
  }

  /** The stripe's data blocks hold the new data where it was written, else what they held. */
  ghost predicate DataWritten(g: Geometry, m: Contents, newData: NewData, s: nat, begin: nat, end: nat, m': Contents)
    requires g.Valid()
  {
    forall b: nat :: StripeOf(g, b) == s ==>
      m'(BlockMap(g, b)) == if begin <= b < end then newData(b) else m(BlockMap(g, b))
  }

  lemma WrittenData(g: Geometry, m: Contents, newData: NewData, s: nat, begin: nat, end: nat, m': Contents)
    requires g.Valid() && InOneStripe(g, s, begin, end) && Written(g, m, newData, s, begin, end, m')
    ensures DataWritten(g, m, newData, s, begin, end, m')
  {
    hide BlockMap, StripeOf, Offsets, NewParity, WritePlan;
    forall b: nat | StripeOf(g, b) == s
      ensures m'(BlockMap(g, b)) == if begin <= b < end then newData(b) else m(BlockMap(g, b))
    {
      if !(begin <= b < end) {
        OtherDataKept(g, m, newData, s, begin, end, m', b);
      }
    }
  }

  /** The data of a stripe after the write is the new data where it was written. */
  lemma {:induction false} XorAfter(g: Geometry, m: Contents, newData: NewData, s: nat, begin: nat, end: nat,
        m': Contents, c: nat, n: nat)
    requires g.Valid() && DataWritten(g, m, newData, s, begin, end, m')
    requires n <= g.DataDisks() && c < g.chunkSize
    ensures XorData(g, m', s, c, n) == XorNew(g, m, newData, s, c, begin, end, n)
    ensures XorData(g, m', s, c, n) == Xor(XorData(g, m, s, c, n), XorChange(g, m, newData, s, c, begin, end, n))
  {
    hide BlockMap, BlockAt, StripeOf, PlaceOf, OffsetInChunk, Xor;
    if n == 0 {
      XorZero(0);
    } else {
      XorAfter(g, m, newData, s, begin, end, m', c, n - 1);
      var b := BlockAt(g, s, n - 1, c);
      CoordinatesOf(g, s, n - 1, c);
      XorStep(XorData(g, m, s, c, n - 1), XorChange(g, m, newData, s, c, begin, end, n - 1),
              m(BlockMap(g, b)), newData(b));
    }
  }

  lemma XorStep(x: bv8, y: bv8, was: bv8, now: bv8)
    ensures Xor(Xor(x, y), now) == Xor(Xor(x, was), Xor(y, Xor(was, now)))
    ensures Xor(Xor(x, y), was) == Xor(Xor(x, was), Xor(y, 0))
  {
  }

  /** At an offset where nothing is written, no data of the stripe changes. */
  lemma {:induction false} XorUntouched(g: Geometry, m: Contents, newData: NewData, s: nat, begin: nat, end: nat,
        c: nat, n: nat)
    requires g.Valid() && InOneStripe(g, s, begin, end)
    requires n <= g.DataDisks() && c < g.chunkSize
    requires s * g.chunkSize + c !in Offsets(g, begin, end)
    ensures XorChange(g, m, newData, s, c, begin, end, n) == 0
  {
    hide BlockAt, Offsets;
    if n > 0 {
      XorUntouched(g, m, newData, s, begin, end, c, n - 1);
      CoordinatesOf(g, s, n - 1, c);
      OffsetsAre(g, begin, end);
      assert BlockMap(g, BlockAt(g, s, n - 1, c)).off == s * g.chunkSize + c;
    }
  }

  lemma ParityKeptAt(g: Geometry, m: Contents, newData: NewData, s: nat, begin: nat, end: nat, m': Contents, c: nat)
    requires g.Valid() && InOneStripe(g, s, begin, end) && Written(g, m, newData, s, begin, end, m')
    requires c < g.chunkSize && m(ParityAt(g, s, c)) == XorData(g, m, s, c, g.DataDisks())
    ensures m'(ParityAt(g, s, c)) == XorData(g, m', s, c, g.DataDisks())
  {
    hide XorData, XorNew, XorChange, Offsets, BlockMap, WritePlan, ParityMap, Xor;
    WrittenData(g, m, newData, s, begin, end, m');
    XorAfter(g, m, newData, s, begin, end, m', c, g.DataDisks());
    if s * g.chunkSize + c !in Offsets(g, begin, end) {
      XorUntouched(g, m, newData, s, begin, end, c, g.DataDisks());
      ParityNotData(g, s, c, begin, end);
      NotWritten(g, s, begin, end, ParityAt(g, s, c));
      XorZero(XorData(g, m, s, c, g.DataDisks()));
    }
  }

  /** The parity invariant of the stripe survives the write, whichever plan was chosen. */
  lemma ParityKept(g: Geometry, m: Contents, newData: NewData, s: nat, begin: nat, end: nat, m': Contents)
    requires g.Valid() && InOneStripe(g, s, begin, end) && Written(g, m, newData, s, begin, end, m')
    requires ParityOk(g, m, s)
    ensures ParityOk(g, m', s)
  {
    hide XorData, Written, ParityAt, InOneStripe;
    forall c | 0 <= c < g.chunkSize ensures m'(ParityAt(g, s, c)) == XorData(g, m', s, c, g.DataDisks()) {
      ParityKeptAt(g, m, newData, s, begin, end, m', c);
    }
  }

  lemma XorZero(x: bv8)
    ensures Xor(x, 0) == x
  {
  }

  lemma ParityNotData(g: Geometry, s: nat, c: nat, begin: nat, end: nat)
    requires g.Valid() && InOneStripe(g, s, begin, end) && c < g.chunkSize
    ensures forall b :: begin <= b < end ==> BlockMap(g, b) != ParityAt(g, s, c)
  {
    ParityMapIs(g, s);
    forall b | begin <= b < end ensures BlockMap(g, b) != ParityAt(g, s, c) {
      StripeBoundsIn(g, s, b);
      DataNotOnParity(g, s, PlaceOf(g, b));
    }
  }

  /** The block of the piece that lies there. */
  ghost function BlockOver(g: Geometry, begin: nat, end: nat, l: Location): (b: nat)
    requires g.Valid() && exists a: nat :: begin <= a < end && BlockMap(g, a) == l
    ensures begin <= b < end && BlockMap(g, b) == l
  {
    var a: nat :| begin <= a < end && BlockMap(g, a) == l;
    a
  }

  /** A piece can always be written: the disks that hold the new data and the new parity. */
  ghost function AfterPiece(g: Geometry, m: Contents, newData: NewData, s: nat, begin: nat, end: nat): Contents
    requires g.Valid() && InOneStripe(g, s, begin, end)
  {
    (l: Location) =>
      if exists b: nat :: begin <= b < end && BlockMap(g, b) == l then newData(BlockOver(g, begin, end, l))
      else if l.disk == ParityMap(g, s) && l.off in Offsets(g, begin, end)
              && s * g.chunkSize <= l.off < s * g.chunkSize + g.chunkSize then
        NewParity(g, m, newData, s, l.off - s * g.chunkSize, begin, end)
      else m(l)
  }

  lemma AfterPieceData(g: Geometry, m: Contents, newData: NewData, s: nat, begin: nat, end: nat, b: nat)
    requires g.Valid() && InOneStripe(g, s, begin, end) && begin <= b < end
    ensures AfterPiece(g, m, newData, s, begin, end)(BlockMap(g, b)) == newData(b)
  {
    hide BlockMap, NewParity, ParityMap, Offsets;
    BlockMapInjective(g, BlockOver(g, begin, end, BlockMap(g, b)), b);
  }

  lemma AfterPieceParity(g: Geometry, m: Contents, newData: NewData, s: nat, begin: nat, end: nat, c: nat)
    requires g.Valid() && InOneStripe(g, s, begin, end)
    requires c < g.chunkSize && s * g.chunkSize + c in Offsets(g, begin, end)
    ensures AfterPiece(g, m, newData, s, begin, end)(ParityAt(g, s, c)) == NewParity(g, m, newData, s, c, begin, end)
  {
    hide BlockMap, NewParity, ParityMap, Offsets;
    ParityNotData(g, s, c, begin, end);
  }

  lemma AfterPieceElsewhere(g: Geometry, m: Contents, newData: NewData, s: nat, begin: nat, end: nat, l: Location)
    requires g.Valid() && InOneStripe(g, s, begin, end)
    requires forall i :: 0 <= i < |WritePlan(g, s, begin, end)| ==> WritePlan(g, s, begin, end)[i].at != l
    ensures AfterPiece(g, m, newData, s, begin, end)(l) == m(l)
  {
    NotPlanned(g, s, begin, end, l);
    hide BlockMap, NewParity, ParityMap, Offsets, WritePlan;
  }

  lemma PieceCanBeWritten(g: Geometry, m: Contents, newData: NewData, s: nat, begin: nat, end: nat)
    requires g.Valid() && InOneStripe(g, s, begin, end)
    ensures Written(g, m, newData, s, begin, end, AfterPiece(g, m, newData, s, begin, end))
  {
    hide BlockMap, NewParity, ParityAt, Offsets, WritePlan, AfterPiece;
    var m' := AfterPiece(g, m, newData, s, begin, end);
    forall b: nat | begin <= b < end
      ensures m'(BlockMap(g, b)) == newData(b)
    {
      AfterPieceData(g, m, newData, s, begin, end, b);
    }
    forall c | 0 <= c < g.chunkSize && s * g.chunkSize + c in Offsets(g, begin, end)
      ensures m'(ParityAt(g, s, c)) == NewParity(g, m, newData, s, c, begin, end)
    {
      AfterPieceParity(g, m, newData, s, begin, end, c);
    }
    forall l | (forall i :: 0 <= i < |WritePlan(g, s, begin, end)| ==> WritePlan(g, s, begin, end)[i].at != l)
      ensures m'(l) == m(l)
    {
      AfterPieceElsewhere(g, m, newData, s, begin, end, l);
    }
  }

  lemma NotPlanned(g: Geometry, s: nat, begin: nat, end: nat, l: Location)
    requires g.Valid() && InOneStripe(g, s, begin, end)
    requires forall i :: 0 <= i < |WritePlan(g, s, begin, end)| ==> WritePlan(g, s, begin, end)[i].at != l
    ensures forall b: nat :: begin <= b < end ==> BlockMap(g, b) != l
    ensures l.disk == ParityMap(g, s) ==> l.off !in Offsets(g, begin, end)
  {
    hide BlockMap, ParityMap, Offsets;
    var ws, offs := WritePlan(g, s, begin, end), Offsets(g, begin, end);
    forall b: nat | begin <= b < end
      ensures BlockMap(g, b) != l
    {
      assert ws[b - begin] == Writes(g, begin, end)[b - begin];
    }
    forall k | 0 <= k < |offs|
      ensures Location(ParityMap(g, s), offs[k]) != l
    {
      assert ws[end - begin + k].at == Location(ParityMap(g, s), offs[k]);
    }
  }
}
