/** A whole write request on RAID levels 4 and 5, cut into one piece per stripe. */
module RaidRequests {
  import opened Arithmetic
  import opened RaidMaps
  import opened RaidWrites

  function Min(a: nat, b: nat): nat {
    if a <= b then a else b
  }

  function Max(a: nat, b: nat): nat {
    if a >= b then a else b
  }

  /** Division as the program's int() performs it, rounding towards zero. */
  function Truncated(x: int, m: nat): int
    requires m > 0
  {
    if x >= 0 then x / m else -((-x) / m)
  }

  // ----- the pieces -----

  function PieceBegin(g: Geometry, addr: nat, s: nat): nat
    requires g.Valid()
  {
    Max(addr, s * g.BlocksInStripe())
  }

  function PieceEnd(g: Geometry, addr: nat, size: nat, s: nat): nat
    requires g.Valid()
  {
    Min(addr + size, s * g.BlocksInStripe() + g.BlocksInStripe())
  }

  /** The request reaches into stripe s. */
  predicate Touches(g: Geometry, addr: nat, size: nat, s: nat)
    requires g.Valid()
  {
    s * g.BlocksInStripe() < addr + size && addr < s * g.BlocksInStripe() + g.BlocksInStripe()
  }

  function PiecePlan(g: Geometry, addr: nat, size: nat, s: nat): seq<IO>
    requires g.Valid() && size > 0 && Touches(g, addr, size, s)
  {
    var b, e := PieceBegin(g, addr, s), PieceEnd(g, addr, size, s);
    ReadPlan(g, s, b, e) + WritePlan(g, s, b, e)
  }

  /** The plans for the stripes from s on, n of them. */
  function RequestPlan(g: Geometry, addr: nat, size: nat, s: nat, n: nat): seq<IO>
    requires g.Valid() && size > 0 && forall t :: s <= t < s + n ==> Touches(g, addr, size, t)
  {
    if n == 0 then [] else RequestPlan(g, addr, size, s, n - 1) + PiecePlan(g, addr, size, s + n - 1)
  }

  function FirstStripe(g: Geometry, addr: nat): nat
    requires g.Valid()
  {
    StripeSize(g);
    addr / g.BlocksInStripe()
  }

  function StripeCount(g: Geometry, addr: nat, size: nat): (n: nat)
    requires g.Valid() && size > 0
    ensures n >= 1
  {
    StripeSize(g);
    DivMonotone(addr, addr + size - 1, g.BlocksInStripe());
    (addr + size - 1) / g.BlocksInStripe() - addr / g.BlocksInStripe() + 1
  }

  lemma DivMonotone(a: nat, b: nat, m: nat)
    requires a <= b && m > 0
    ensures a / m <= b / m
  {
    var q, r := a / m, b / m;
    assert a == q * m + a % m && b == r * m + b % m;
    if q > r { MulMonotone(r + 1, q, m); }
  }

  lemma StripeLimits(x: nat, m: nat, s: nat)
    requires m > 0
    ensures s <= x / m <==> s * m <= x
  {
    var q := x / m;
    assert x == q * m + x % m;
    if s <= q { MulMonotone(s, q, m); }
    if q < s {
      MulMonotone(q + 1, s, m);
      assert (q + 1) * m == q * m + m;
    }
  }

  /** The stripes that the program visits are those the request reaches into. */
  lemma StripesTouched(g: Geometry, addr: nat, size: nat, s: nat)
    requires g.Valid() && size > 0
    ensures FirstStripe(g, addr) <= s < FirstStripe(g, addr) + StripeCount(g, addr, size) <==> Touches(g, addr, size, s)
  {
    var m := g.BlocksInStripe();
    StripeSize(g);
    StripeLimits(addr, m, s + 1);
    StripeLimits(addr + size - 1, m, s);
    assert (s + 1) * m == s * m + m;
  }

  /** What is left of the request, stripe by stripe. */
  lemma NextPiece(g: Geometry, addr: nat, size: nat, stripe: nat)
    requires g.Valid() && size > 0 && Touches(g, addr, size, stripe)
    ensures PieceBegin(g, addr, stripe) < PieceEnd(g, addr, size, stripe) <= addr + size
    ensures Touches(g, addr, size, stripe + 1) ==> PieceEnd(g, addr, size, stripe) == PieceBegin(g, addr, stripe + 1)
  {
    var m := g.BlocksInStripe();
    StripeSize(g);
    assert (stripe + 1) * m == stripe * m + m;
  }

  lemma FirstPiece(g: Geometry, addr: nat)
    requires g.Valid()
    ensures PieceBegin(g, addr, FirstStripe(g, addr)) == addr
  {
    StripeSize(g);
    StripeLimits(addr, g.BlocksInStripe(), FirstStripe(g, addr));
  }

  /** One turn of the loop over the stripes. */
  method EnqueuePiece(g: Geometry, addr: nat, size: nat, stripe: nat, begin: nat, left: nat) returns (ios: seq<IO>,
        end: nat)
    requires g.Valid() && size > 0 && Touches(g, addr, size, stripe)
    requires begin == PieceBegin(g, addr, stripe) && begin + left == addr + size
    ensures ios == PiecePlan(g, addr, size, stripe) && end == PieceEnd(g, addr, size, stripe)
  {
    hide ReadPlan, WritePlan;
    var m := g.BlocksInStripe();
    var endOfStripe := stripe * m + m;
    end := if left >= m then begin + m else begin + left;
    if end >= endOfStripe {
      end := endOfStripe;
    }
    ios := PartialWrite(g, stripe, begin, end);
  }

  lemma StripeRange(g: Geometry, addr: nat, size: nat)
    requires g.Valid() && size > 0
    ensures g.BlocksInStripe() > 0
    ensures addr / g.BlocksInStripe() == FirstStripe(g, addr)
    ensures Truncated(addr + size - 1, g.BlocksInStripe()) == FirstStripe(g, addr) + StripeCount(g, addr, size) - 1
    ensures forall t :: FirstStripe(g, addr) <= t < FirstStripe(g, addr) + StripeCount(g, addr, size) ==>
              Touches(g, addr, size, t)
  {
    StripeSize(g);
    forall t | FirstStripe(g, addr) <= t < FirstStripe(g, addr) + StripeCount(g, addr, size)
      ensures Touches(g, addr, size, t)
    {
      StripesTouched(g, addr, size, t);
    }
  }

  /** enqueue45 for a write: the operations of all pieces, in order. */
  method EnqueueWrite(g: Geometry, addr: nat, size: nat) returns (ios: seq<IO>)
    requires g.Valid()
    ensures size == 0 ==> ios == []
    ensures size > 0 ==>
              && (forall t :: FirstStripe(g, addr) <= t < FirstStripe(g, addr) + StripeCount(g, addr, size) ==>
                    Touches(g, addr, size, t))
              && ios == RequestPlan(g, addr, size, FirstStripe(g, addr), StripeCount(g, addr, size))
  {
    hide Geometry.BlocksInStripe, PieceBegin, PieceEnd, Touches, PiecePlan, FirstStripe, StripeCount, Truncated;
    StripeSize(g);
    var m := g.BlocksInStripe();
    var initStripe := addr / m;
    var finalStripe := Truncated(addr + size - 1, m);
    ios := [];
    if size == 0 {
      ios := EnqueueNothing(g, addr, initStripe, finalStripe);
      return;
    }
    StripeRange(g, addr, size);
    FirstPiece(g, addr);
    ghost var n := StripeCount(g, addr, size);
    var left, begin := size, addr;
    for stripe := initStripe to finalStripe + 1
      invariant begin + left == addr + size
      invariant ios == RequestPlan(g, addr, size, initStripe, stripe - initStripe)
      invariant stripe < initStripe + n ==> begin == PieceBegin(g, addr, stripe)
    {
      NextPiece(g, addr, size, stripe);
      var piece, end := EnqueuePiece(g, addr, size, stripe, begin, left);
      ios := ios + piece;
      left := left - (end - begin);
      begin := end;
    }
  }

  /** A write of no blocks visits at most one stripe, and issues nothing there. */
  method EnqueueNothing(g: Geometry, addr: nat, initStripe: nat, finalStripe: int) returns (ios: seq<IO>)
    requires g.Valid() && initStripe == addr / g.BlocksInStripe() && g.BlocksInStripe() >= 1
    requires finalStripe == Truncated(addr - 1, g.BlocksInStripe())
    ensures ios == []
  {
    ios := [];
    var m := g.BlocksInStripe();
    StripeLimits(addr, m, initStripe);
    StripeLimits(addr, m, initStripe + 1);
    if addr > 0 {
      StripeLimits(addr - 1, m, initStripe + 1);
    }
    assert (initStripe + 1) * m == initStripe * m + m;
    if initStripe <= finalStripe {
      assert finalStripe == initStripe;
      ios := PartialWrite(g, initStripe, addr, addr);
      EmptyPlan(g, initStripe, addr);
    }
  }

  lemma EmptyPlan(g: Geometry, s: nat, b: nat)
    requires g.Valid() && InOneStripe(g, s, b, b)
    ensures ReadPlan(g, s, b, b) + WritePlan(g, s, b, b) == []
  {
    StripeSize(g);
  }

  /** The pieces cover the request: each block lies in the piece of its stripe and in no other. */
  lemma PiecesPartition(g: Geometry, addr: nat, size: nat, b: nat, s: nat)
    requires g.Valid() && size > 0
    ensures addr <= b < addr + size && StripeOf(g, b) == s
       <==> Touches(g, addr, size, s) && PieceBegin(g, addr, s) <= b < PieceEnd(g, addr, size, s)
  {
    StripeBounds(g, b, s);
    assert (s + 1) * g.BlocksInStripe() == s * g.BlocksInStripe() + g.BlocksInStripe();
  }

  // ----- each location written once -----

  lemma PlanOffset(g: Geometry, s: nat, begin: nat, end: nat, i: nat)
    requires g.Valid() && InOneStripe(g, s, begin, end) && i < |WritePlan(g, s, begin, end)|
    ensures WritePlan(g, s, begin, end)[i].at.off / g.chunkSize == s
  {
    var n, offs := end - begin, Offsets(g, begin, end);
    if i < n {
      StripeBoundsIn(g, s, begin + i);
      LocationCoordinates(g, begin + i);
    } else {
      OffsetsAre(g, begin, end);
      assert offs[i - n] in offs;
      var v :| begin <= v < end && BlockMap(g, v).off == offs[i - n];
      StripeBoundsIn(g, s, v);
      LocationCoordinates(g, v);
    }
  }

  lemma ReadPlanReads(g: Geometry, s: nat, begin: nat, end: nat)
    requires g.Valid() && InOneStripe(g, s, begin, end)
    ensures forall i :: 0 <= i < |ReadPlan(g, s, begin, end)| ==> ReadPlan(g, s, begin, end)[i].ReadIO?
    ensures forall i :: 0 <= i < |WritePlan(g, s, begin, end)| ==> WritePlan(g, s, begin, end)[i].WriteIO?
  {
  }

  ghost predicate WrittenOnce(ios: seq<IO>) {
    forall i, j :: 0 <= i < j < |ios| && ios[i].WriteIO? && ios[j].WriteIO? ==> ios[i].at != ios[j].at
  }

  ghost predicate WritesBelow(g: Geometry, ios: seq<IO>, s: nat)
    requires g.Valid()
  {
    forall i :: 0 <= i < |ios| && ios[i].WriteIO? ==> ios[i].at.off / g.chunkSize < s
  }

  /** No location is written twice by a request. */
  lemma {:induction false} RequestWritesOnce(g: Geometry, addr: nat, size: nat, s: nat, n: nat)
    requires g.Valid() && size > 0 && forall t :: s <= t < s + n ==> Touches(g, addr, size, t)
    ensures WrittenOnce(RequestPlan(g, addr, size, s, n)) && WritesBelow(g, RequestPlan(g, addr, size, s, n), s + n)
  {
    hide ReadPlan, WritePlan;
    if n > 0 {
      RequestWritesOnce(g, addr, size, s, n - 1);
      var t := s + n - 1;
      var b, e := PieceBegin(g, addr, t), PieceEnd(g, addr, size, t);
      assert Touches(g, addr, size, t);
      var rs, writes := ReadPlan(g, t, b, e), WritePlan(g, t, b, e);
      ReadPlanReads(g, t, b, e);
      WritesDistinct(g, t, b, e);
      forall i | 0 <= i < |writes| ensures writes[i].at.off / g.chunkSize == t {
        PlanOffset(g, t, b, e, i);
      }
      JoinWrites(g, RequestPlan(g, addr, size, s, n - 1), rs, writes, t);
    }
  }

  lemma JoinWrites(g: Geometry, before: seq<IO>, rs: seq<IO>, ws: seq<IO>, t: nat)
    requires g.Valid() && WrittenOnce(before) && WritesBelow(g, before, t)
    requires forall i :: 0 <= i < |rs| ==> rs[i].ReadIO?
    requires forall i :: 0 <= i < |ws| ==> ws[i].at.off / g.chunkSize == t
    requires forall i, j :: 0 <= i < j < |ws| ==> ws[i].at != ws[j].at
    ensures WrittenOnce(before + (rs + ws)) && WritesBelow(g, before + (rs + ws), t + 1)
  {
    var all, k := before + (rs + ws), |before| + |rs|;
    forall i | 0 <= i < |all| && all[i].WriteIO? ensures i < |before| || (k <= i && all[i] == ws[i - k]) {
    }
    forall i, j | 0 <= i < j < |all| && all[i].WriteIO? && all[j].WriteIO? ensures all[i].at != all[j].at {
      if j >= k && i < |before| {
        assert all[i] == before[i] && all[j] == ws[j - k];
      }
    }
  }

  // ----- the disks after a request -----

  ghost predicate PieceWritten(g: Geometry, m: Contents, newData: NewData, addr: nat, size: nat, s: nat, m': Contents)
    requires g.Valid()
  {
    var b, e := PieceBegin(g, addr, s), PieceEnd(g, addr, size, s);
    InOneStripe(g, s, b, e) && Written(g, m, newData, s, b, e, m')
  }

  /** States of the disks between the pieces. */
  ghost predicate Carried(g: Geometry, newData: NewData, addr: nat, size: nat, s: nat, states: seq<Contents>)
    requires g.Valid() && size > 0
  {
    && |states| > 0
    && forall i :: 0 <= i < |states| - 1 ==>
         PieceWritten(g, states[i], newData, addr, size, s + i, states[i + 1])
  }

  /** Parity of another stripe is not touched. */
  lemma OtherParityKept(g: Geometry, m: Contents, newData: NewData, s: nat, begin: nat, end: nat, m': Contents, t: nat)
    requires g.Valid() && InOneStripe(g, s, begin, end) && Written(g, m, newData, s, begin, end, m')
    requires t != s && ParityOk(g, m, t)
    ensures ParityOk(g, m', t)
  {
    forall c | 0 <= c < g.chunkSize ensures m'(ParityAt(g, t, c)) == XorData(g, m', t, c, g.DataDisks()) {
      hide XorData, WritePlan, Offsets, ParityMap;
      var l := ParityAt(g, t, c);
      DivModUnique(l.off, t, c, g.chunkSize);
      forall i | 0 <= i < |WritePlan(g, s, begin, end)| ensures WritePlan(g, s, begin, end)[i].at != l {
        PlanOffset(g, s, begin, end, i);
      }
      XorElsewhere(g, m, newData, s, begin, end, m', t, c, g.DataDisks());
    }
  }

  lemma {:induction false} XorElsewhere(g: Geometry, m: Contents, newData: NewData, s: nat, begin: nat, end: nat,
        m': Contents, t: nat, c: nat, n: nat)
    requires g.Valid() && InOneStripe(g, s, begin, end) && Written(g, m, newData, s, begin, end, m')
    requires t != s && c < g.chunkSize && n <= g.DataDisks()
    ensures XorData(g, m', t, c, n) == XorData(g, m, t, c, n)
  {
    hide BlockMap, BlockAt, Written, Xor;
    if n > 0 {
      XorElsewhere(g, m, newData, s, begin, end, m', t, c, n - 1);
      var b := BlockAt(g, t, n - 1, c);
      CoordinatesOf(g, t, n - 1, c);
      if begin <= b < end {
        StripeBoundsIn(g, s, b);
      }
      OtherDataKept(g, m, newData, s, begin, end, m', b);
    }
  }

  /** After the first pieces of a request: the blocks of their stripes are written, all others are as
  they were, and every stripe that had correct parity has correct parity. */
  lemma {:induction false} PiecesCarried(g: Geometry, newData: NewData, addr: nat, size: nat, s: nat,
        states: seq<Contents>)
    requires g.Valid() && size > 0 && Carried(g, newData, addr, size, s, states)
    ensures var m, m', n := states[0], states[|states| - 1], |states| - 1;
            && (forall b: nat :: m'(BlockMap(g, b)) ==
                  if addr <= b < addr + size && s <= StripeOf(g, b) < s + n then newData(b) else m(BlockMap(g, b)))
            && (forall t: nat :: ParityOk(g, m, t) ==> ParityOk(g, m', t))
    decreases |states|
  {
    var n := |states| - 1;
    if n > 0 {
      hide BlockMap, ParityOk, StripeOf, PieceWritten;
      PiecesCarried(g, newData, addr, size, s, states[..n]);
      assert states[..n][n - 1] == states[n - 1];
      var t := s + n - 1;
      assert PieceWritten(g, states[n - 1], newData, addr, size, t, states[n]);
      PieceCarried(g, states[n - 1], newData, addr, size, t, states[n]);
    }
  }

  lemma PieceCarried(g: Geometry, m: Contents, newData: NewData, addr: nat, size: nat, s: nat, m': Contents)
    requires g.Valid() && size > 0 && PieceWritten(g, m, newData, addr, size, s, m')
    ensures forall b: nat :: m'(BlockMap(g, b)) ==
              if addr <= b < addr + size && StripeOf(g, b) == s then newData(b) else m(BlockMap(g, b))
    ensures forall t: nat :: ParityOk(g, m, t) ==> ParityOk(g, m', t)
  {
    hide BlockMap, ParityOk, StripeOf, Written;
    var begin, end := PieceBegin(g, addr, s), PieceEnd(g, addr, size, s);
    forall b: nat ensures m'(BlockMap(g, b)) ==
              if addr <= b < addr + size && StripeOf(g, b) == s then newData(b) else m(BlockMap(g, b)) {
      PiecesPartition(g, addr, size, b, s);
      if begin <= b < end {
        PieceHolds(g, m, newData, s, begin, end, m', b);
      } else {
        OtherDataKept(g, m, newData, s, begin, end, m', b);
      }
    }
    forall t: nat | ParityOk(g, m, t) ensures ParityOk(g, m', t) {
      if t == s {
        ParityKept(g, m, newData, s, begin, end, m');
      } else {
        OtherParityKept(g, m, newData, s, begin, end, m', t);
      }
    }
  }

  lemma PieceHolds(g: Geometry, m: Contents, newData: NewData, s: nat, begin: nat, end: nat, m': Contents, b: nat)
    requires g.Valid() && InOneStripe(g, s, begin, end) && Written(g, m, newData, s, begin, end, m') && begin <= b < end
    ensures m'(BlockMap(g, b)) == newData(b)
  {
  }

  /** A whole request: exactly its blocks change, to the new data, and all parity stays correct. */
  lemma RequestCarried(g: Geometry, newData: NewData, addr: nat, size: nat, states: seq<Contents>)
    requires g.Valid() && size > 0
    requires |states| == StripeCount(g, addr, size) + 1 && Carried(g, newData, addr, size, FirstStripe(g, addr), states)
    ensures var m, m' := states[0], states[|states| - 1];
            && (forall b: nat ::
                  m'(BlockMap(g, b)) == if addr <= b < addr + size then newData(b) else m(BlockMap(g, b)))
            && (forall t: nat :: ParityOk(g, m, t) ==> ParityOk(g, m', t))
  {
    hide BlockMap, ParityOk, Written, StripeOf, FirstStripe, StripeCount;
    var s := FirstStripe(g, addr);
    PiecesCarried(g, newData, addr, size, s, states);
    forall b: nat | addr <= b < addr + size ensures s <= StripeOf(g, b) < s + StripeCount(g, addr, size) {
      PiecesPartition(g, addr, size, b, StripeOf(g, b));
      StripesTouched(g, addr, size, StripeOf(g, b));
    }
  }

  /** Every request can be carried out, piece by piece. */
  lemma {:induction false} RequestCanBeCarried(g: Geometry, m: Contents, newData: NewData, addr: nat, size: nat,
        s: nat, n: nat)
      returns (states: seq<Contents>)
    requires g.Valid() && size > 0 && forall t :: s <= t < s + n ==> Touches(g, addr, size, t)
    ensures |states| == n + 1 && states[0] == m && Carried(g, newData, addr, size, s, states)
  {
    if n == 0 {
      states := [m];
    } else {
      hide Written, Touches;
      var before := RequestCanBeCarried(g, m, newData, addr, size, s, n - 1);
      var t := s + n - 1;
      assert Touches(g, addr, size, t);
      var b, e := PieceBegin(g, addr, t), PieceEnd(g, addr, size, t);
      PieceInStripe(g, addr, size, t);
      PieceCanBeWritten(g, before[n - 1], newData, t, b, e);
      states := before + [AfterPiece(g, before[n - 1], newData, t, b, e)];
    }
  }

  lemma PieceInStripe(g: Geometry, addr: nat, size: nat, s: nat)
    requires g.Valid() && size > 0 && Touches(g, addr, size, s)
    ensures InOneStripe(g, s, PieceBegin(g, addr, s), PieceEnd(g, addr, size, s))
  {
  }
}
