/** The block and inode allocator of the fast file system: groups, bitmaps and where a file's blocks go. */
module Ffs {
  import opened Arithmetic
  import opened Options
  import opened Sequences

  /** For each group and index the inode that the slot belongs to, if any. */
  type Bitmap = seq<seq<Option<nat>>>

  type Slot = (nat, nat)

  predicate Shaped(bitmap: Bitmap, groups: nat, width: nat) {
    |bitmap| == groups && forall g :: 0 <= g < groups ==> |bitmap[g]| == width
  }

  // ----- counting free slots -----

  function FreeIn(row: seq<Option<nat>>): nat {
    if row == [] then 0 else FreeIn(row[..|row| - 1]) + if row[|row| - 1].None? then 1 else 0
  }

  function FreeCount(bitmap: Bitmap): nat {
    if bitmap == [] then 0 else FreeCount(bitmap[..|bitmap| - 1]) + FreeIn(bitmap[|bitmap| - 1])
  }

  function Marked(bitmap: Bitmap, g: nat, i: nat, inum: nat): Bitmap
    requires g < |bitmap| && i < |bitmap[g]|
  {
    bitmap[g := bitmap[g][i := Some(inum)]]
  }

  lemma {:induction false} FreeInMarked(row: seq<Option<nat>>, i: nat, inum: nat)
    requires i < |row|
    ensures FreeIn(row[i := Some(inum)]) == FreeIn(row) - if row[i].None? then 1 else 0
    decreases |row|
  {
    var last := |row| - 1;
    if i == last {
      assert row[i := Some(inum)][..last] == row[..last];
    } else {
      FreeInMarked(row[..last], i, inum);
      assert row[i := Some(inum)][..last] == row[..last][i := Some(inum)];
    }
  }

  lemma {:induction false} FreeCountMarked(bitmap: Bitmap, g: nat, i: nat, inum: nat)
    requires g < |bitmap| && i < |bitmap[g]|
    ensures FreeCount(Marked(bitmap, g, i, inum)) == FreeCount(bitmap) - if bitmap[g][i].None? then 1 else 0
    decreases |bitmap|
  {
    var last := |bitmap| - 1;
    if g == last {
      assert Marked(bitmap, g, i, inum)[..last] == bitmap[..last];
      FreeInMarked(bitmap[g], i, inum);
    } else {
      FreeCountMarked(bitmap[..last], g, i, inum);
      assert Marked(bitmap, g, i, inum)[..last] == Marked(bitmap[..last], g, i, inum);
    }
  }

  lemma {:induction false} NoneFreeIn(row: seq<Option<nat>>)
    ensures FreeIn(row) == 0 <==> forall i :: 0 <= i < |row| ==> row[i].Some?
  {
    if row != [] {
      var front := row[..|row| - 1];
      NoneFreeIn(front);
      assert forall i :: 0 <= i < |front| ==> front[i] == row[i];
    }
  }

  lemma {:induction false} NoneFree(bitmap: Bitmap)
    ensures FreeCount(bitmap) == 0 <==> forall g :: 0 <= g < |bitmap| ==> FreeIn(bitmap[g]) == 0
  {
    if bitmap != [] {
      var front := bitmap[..|bitmap| - 1];
      NoneFree(front);
      assert forall g :: 0 <= g < |front| ==> front[g] == bitmap[g];
    }
  }

  // ----- going round the groups -----

  /** The k-th group on a round that begins at target. */
  function GroupAt(target: nat, k: nat, groups: nat): nat
    requires target < groups && k <= groups
  {
    if target + k < groups then target + k else target + k - groups
  }

  lemma GroupAtMod(target: nat, k: nat, groups: nat)
    requires target < groups && k <= groups
    ensures GroupAt(target, k, groups) == (target + k) % groups
    ensures k < groups ==> GroupAt(target, k, groups) < groups && (GroupAt(target, k, groups) == target <==> k == 0)
  {
    var x := target + k;
    DivModUnique(x, if x < groups then 0 else 1, if x < groups then x else x - groups, groups);
  }

  lemma NextGroup(target: nat, k: nat, groups: nat)
    requires target < groups && k < groups
    ensures (GroupAt(target, k, groups) + 1) % groups
            == if k + 1 == groups then target else GroupAt(target, k + 1, groups)
  {
    var x := GroupAt(target, k, groups) + 1;
    DivModUnique(x, if x < groups then 0 else 1, if x < groups then x else x - groups, groups);
  }

  /** Where a group comes on the round. */
  function TurnOf(target: nat, g: nat, groups: nat): nat
    requires target < groups && g < groups
  {
    if g >= target then g - target else g + groups - target
  }

  /** On the round from target the one slot comes before the other. */
  predicate Before(target: nat, groups: nat, a: Slot, b: Slot)
    requires target < groups && a.0 < groups && b.0 < groups
  {
    var ka, kb := TurnOf(target, a.0, groups), TurnOf(target, b.0, groups);
    ka < kb || (ka == kb && a.1 < b.1)
  }

  /** Every slot that the round has passed is taken. */
  ghost predicate Swept(bitmap: Bitmap, target: nat, at: Slot)
    requires target < |bitmap| && at.0 < |bitmap|
  {
    forall g, i :: 0 <= g < |bitmap| && 0 <= i < |bitmap[g]| && Before(target, |bitmap|, (g, i), at) ==>
      bitmap[g][i].Some?
  }

  // ----- what an allocation does -----

  /** From m to m' exactly these slots, all of them free in m, went to the inode. */
  ghost predicate Taken(m: Bitmap, m': Bitmap, inum: nat, slots: seq<Slot>) {
    && |m'| == |m| && (forall g :: 0 <= g < |m| ==> |m'[g]| == |m[g]|)
    && Distinct(slots)
    && (forall b :: b in slots ==> b.0 < |m| && b.1 < |m[b.0]| && m[b.0][b.1].None?)
    && forall g, i :: 0 <= g < |m| && 0 <= i < |m[g]| ==> m'[g][i] == if (g, i) in slots then Some(inum) else m[g][i]
  }

  lemma TakenOneMore(m: Bitmap, m': Bitmap, inum: nat, slots: seq<Slot>, g: nat, i: nat)
    requires Taken(m, m', inum, slots) && g < |m'| && i < |m'[g]| && m'[g][i].None?
    ensures Taken(m, Marked(m', g, i, inum), inum, slots + [(g, i)])
  {
    assert (g, i) !in slots;
    var more := slots + [(g, i)];
    assert forall b :: b in more <==> b in slots || b == (g, i);
  }

  /** A round that has passed every group leaves nothing free. */
  lemma SweptAll(bitmap: Bitmap, width: nat, target: nat, at: Slot)
    requires Shaped(bitmap, |bitmap|, width) && target < |bitmap| && at.0 < |bitmap| && Swept(bitmap, target, at)
    requires TurnOf(target, at.0, |bitmap|) == |bitmap| - 1 && at.1 >= width
    ensures FreeCount(bitmap) == 0
  {
    forall g | 0 <= g < |bitmap|
      ensures FreeIn(bitmap[g]) == 0
    {
      assert forall i :: 0 <= i < width ==> Before(target, |bitmap|, (g, i), at);
      NoneFreeIn(bitmap[g]);
    }
    NoneFree(bitmap);
  }

  /** The chunk of blocks from index on lies in the group and is free; if nothing is needed there is no chunk. */
  method RangeFree(row: seq<Option<nat>>, index: nat, needed: int, chunk: nat) returns (free: bool)
    ensures free <==> index + Least(needed, chunk) <= |row|
                      && forall i :: index <= i < index + Least(needed, chunk) ==> row[i].None?
  {
    var last := index + Least(needed, chunk) - 1;
    if last >= |row| {
      return false;
    }
    var i := index;
    while i < last + 1
      invariant index <= i
      invariant forall j :: index <= j < i && j <= last ==> row[j].None?
    {
      if row[i].Some? {
        return false;
      }
      i := i + 1;
    }
    return true;
  }

  function Least(a: int, b: int): int {
    if a < b then a else b
  }

  /** The slot just passed was taken, or has been taken now. */
  lemma SweptNext(bitmap: Bitmap, target: nat, g: nat, i: nat)
    requires target < |bitmap| && g < |bitmap| && i < |bitmap[g]| && bitmap[g][i].Some?
    requires Swept(bitmap, target, (g, i))
    ensures Swept(bitmap, target, (g, i + 1))
  {
    forall h, j | 0 <= h < |bitmap| && 0 <= j < |bitmap[h]| && Before(target, |bitmap|, (h, j), (g, i + 1))
      ensures bitmap[h][j].Some?
    {
      assert Before(target, |bitmap|, (h, j), (g, i)) || (h, j) == (g, i);
    }
  }

  lemma SweptMarked(bitmap: Bitmap, target: nat, g: nat, i: nat, inum: nat)
    requires target < |bitmap| && g < |bitmap| && i < |bitmap[g]| && Swept(bitmap, target, (g, i))
    ensures Swept(Marked(bitmap, g, i, inum), target, (g, i))
  {
  }

  lemma SweptGroup(bitmap: Bitmap, width: nat, target: nat, k: nat)
    requires Shaped(bitmap, |bitmap|, width) && target < |bitmap| && k + 1 < |bitmap|
    requires GroupAt(target, k, |bitmap|) < |bitmap| && Swept(bitmap, target, (GroupAt(target, k, |bitmap|), width))
    ensures GroupAt(target, k + 1, |bitmap|) < |bitmap| && Swept(bitmap, target, (GroupAt(target, k + 1, |bitmap|), 0))
  {
    var g, h := GroupAt(target, k, |bitmap|), GroupAt(target, k + 1, |bitmap|);
    forall p, i | 0 <= p < |bitmap| && 0 <= i < |bitmap[p]| && Before(target, |bitmap|, (p, i), (h, 0))
      ensures bitmap[p][i].Some?
    {
      assert Before(target, |bitmap|, (p, i), (g, width));
    }
  }

  lemma TakenNone(m: Bitmap, inum: nat)
    ensures Taken(m, m, inum, [])
  {
  }

  lemma SweptNone(m: Bitmap, target: nat)
    requires target < |m|
    ensures Swept(m, target, (target, 0))
  {
  }

  /** The round passed all these slots before it came to this one. */
  ghost predicate AllBefore(slots: seq<Slot>, target: nat, groups: nat, at: Slot)
    requires target < groups && at.0 < groups
  {
    forall b :: b in slots ==> b.0 < groups && Before(target, groups, b, at)
  }

  lemma AllBeforeNext(slots: seq<Slot>, target: nat, groups: nat, g: nat, i: nat)
    requires target < groups && g < groups && AllBefore(slots, target, groups, (g, i))
    ensures AllBefore(slots, target, groups, (g, i + 1))
    ensures AllBefore(slots + [(g, i)], target, groups, (g, i + 1))
  {
  }

  lemma AllBeforeGroup(slots: seq<Slot>, target: nat, groups: nat, k: nat, i: nat)
    requires target < groups && k + 1 < groups
    requires GroupAt(target, k, groups) < groups && GroupAt(target, k + 1, groups) < groups
    requires AllBefore(slots, target, groups, (GroupAt(target, k, groups), i))
    ensures AllBefore(slots, target, groups, (GroupAt(target, k + 1, groups), 0))
  {
  }

  /** The blocks come first among all that were free: nothing left free comes before one of them. */
  ghost predicate FirstFree(m: Bitmap, target: nat, slots: seq<Slot>)
    requires target < |m|
  {
    forall b, g, i :: b in slots && 0 <= g < |m| && 0 <= i < |m[g]| && m[g][i].None? ==>
      b.0 < |m| && Before(target, |m|, b, (g, i))
  }

  lemma AfterSwept(m: Bitmap, target: nat, at: Slot, slots: seq<Slot>)
    requires target < |m| && at.0 < |m| && Swept(m, target, at) && AllBefore(slots, target, |m|, at)
    ensures FirstFree(m, target, slots)
  {
  }

  // ----- choosing a group -----

  /** The groups that find_free_inodes_near tries, in turn: the next, the one before, the second next, ... */
  function NearAt(target: nat, i: nat, groups: nat): (g: int)
    requires target < groups && i < groups - 1
    ensures 0 <= g < groups
  {
    if i % 2 == 0 then (target + 1 + i / 2) % groups else (target - 1 - i / 2) % groups
  }

  /** The first i groups tried have no free slot. */
  ghost predicate TriedBefore(m: Bitmap, target: nat, i: nat)
    requires target < |m| && i < |m| - 1
  {
    forall j :: 0 <= j < i ==> FreeIn(m[NearAt(target, j, |m|)]) == 0
  }

  /** The group is the first in that order that has a free slot. */
  ghost predicate FirstNear(m: Bitmap, target: nat, g: int)
    requires target < |m|
  {
    exists i: nat :: i < |m| - 1 && g == NearAt(target, i, |m|) && FreeIn(m[g]) > 0 && TriedBefore(m, target, i)
  }

  /** The groups tried are all the others. */
  lemma NearIsEveryOther(target: nat, g: nat, groups: nat) returns (i: nat)
    requires target < groups && g < groups && g != target
    ensures i < groups - 1 && NearAt(target, i, groups) == g
  {
    var up := if g > target then g - target else g + groups - target;
    var down := groups - up;
    if 2 * (up - 1) < groups - 1 {
      i := 2 * (up - 1);
      var x := target + up;
      assert i % 2 == 0 && i / 2 == up - 1;
      DivModUnique(x, if x < groups then 0 else 1, g, groups);
    } else {
      i := 2 * (down - 1) + 1;
      var x := target - down;
      assert i % 2 == 1 && i / 2 == down - 1;
      DivModUnique(x, if x >= 0 then 0 else -1, g, groups);
    }
  }
}
