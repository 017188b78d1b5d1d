/** Where the blocks of a file go: the visits that the allocator pays to the groups, and what each one gives. */
module FfsPlaces {
  import opened Arithmetic
  import opened Ffs
  import opened Options
  import opened Sequences

  // ----- one visit -----

  /** A run of free slots begins at index i. */
  predicate RunFree(row: seq<Option<nat>>, i: nat, length: int) {
    i + length <= |row| && forall j :: i <= j < i + length ==> row[j].None?
  }

  /** None of the slots in between begins such a run. */
  predicate NoRun(row: seq<Option<nat>>, from: nat, to: nat, length: int) {
    forall i :: from <= i < to ==> !RunFree(row, i, length)
  }

  /** The index behind the last one taken. */
  function From(visit: seq<nat>): nat {
    if visit == [] then 0 else visit[|visit| - 1] + 1
  }

  /** In the group with this row, with so many blocks needed, index i is taken after those of the visit: it begins a
  run of free slots for a chunk, or for all that is still needed, and no slot that was passed does. */
  predicate NextTaken(row: seq<Option<nat>>, needed: int, chunk: nat, visit: seq<nat>, i: nat) {
    var length := Least(needed - |visit|, chunk);
    From(visit) <= i < |row| && RunFree(row, i, length) && NoRun(row, From(visit), i, length)
  }

  predicate Greedy(row: seq<Option<nat>>, needed: int, chunk: nat, visit: seq<nat>) {
    forall k :: 0 <= k < |visit| ==> NextTaken(row, needed, chunk, visit[..k], visit[k])
  }

  /** The visit ends before the file has its blocks: it has given what the large-file limit allows, or nothing behind
  its last block begins a run. */
  predicate Over(row: seq<Option<nat>>, needed: int, chunk: nat, limit: int, visit: seq<nat>) {
    |visit| < needed
    && ((limit > 0 && |visit| == limit) || NoRun(row, From(visit), |row|, Least(needed - |visit|, chunk)))
  }

  predicate Limited(limit: int, visit: seq<nat>) {
    limit > 0 ==> |visit| <= limit
  }

  function RowTaken(row: seq<Option<nat>>, visit: seq<nat>, inum: nat): seq<Option<nat>> {
    seq(|row|, i requires 0 <= i < |row| => if i in visit then Some(inum) else row[i])
  }

  // ----- all visits -----

  /** The group of the u-th visit. */
  function GroupOf(target: nat, u: nat, groups: nat): (g: nat)
    requires groups > 0
    ensures g < groups
  {
    (target + u) % groups
  }

  /** After the first round any free block will do. */
  function ChunkOf(policy: nat, u: nat, groups: nat): nat {
    if u < groups then policy else 1
  }

  function InGroup(g: nat, visit: seq<nat>): seq<Slot> {
    seq(|visit|, k requires 0 <= k < |visit| => (g, visit[k]))
  }

  /** The blocks that the visits give, in order. */
  function SlotsOf(target: nat, groups: nat, visits: seq<seq<nat>>): seq<Slot>
    requires groups > 0
  {
    if visits == [] then []
    else
      var u := |visits| - 1;
      SlotsOf(target, groups, visits[..u]) + InGroup(GroupOf(target, u, groups), visits[u])
  }

  /** The bitmap after the visits. */
  function Given(m: Bitmap, target: nat, inum: nat, visits: seq<seq<nat>>): (m': Bitmap)
    requires |m| > 0
    ensures |m'| == |m|
  {
    if visits == [] then m
    else
      var u := |visits| - 1;
      var before, g := Given(m, target, inum, visits[..u]), GroupOf(target, u, |m|);
      before[g := RowTaken(before[g], visits[u], inum)]
  }

  /** What the u-th visit finds: the row of its group, and how many blocks are still needed. */
  function RowAt(m: Bitmap, target: nat, inum: nat, visits: seq<seq<nat>>, u: nat): seq<Option<nat>>
    requires |m| > 0 && u <= |visits|
  {
    Given(m, target, inum, visits[..u])[GroupOf(target, u, |m|)]
  }

  function NeededAt(target: nat, groups: nat, size: nat, visits: seq<seq<nat>>, u: nat): int
    requires groups > 0 && u <= |visits|
  {
    size - |SlotsOf(target, groups, visits[..u])|
  }

  predicate VisitOk(m: Bitmap, target: nat, size: nat, inum: nat, policy: nat, limit: int, visits: seq<seq<nat>>,
                    u: nat, over: bool)
    requires |m| > 0 && u < |visits|
  {
    var row, needed := RowAt(m, target, inum, visits, u), NeededAt(target, |m|, size, visits, u);
    var chunk := ChunkOf(policy, u, |m|);
    && Greedy(row, needed, chunk, visits[u]) && Limited(limit, visits[u])
    && (over ==> Over(row, needed, chunk, limit, visits[u]))
  }

  /** The first n visits are right, and over. */
  ghost predicate Visited(m: Bitmap, target: nat, size: nat, inum: nat, policy: nat, limit: int, visits: seq<seq<nat>>,
                          n: nat)
    requires |m| > 0 && n <= |visits|
  {
    forall u :: 0 <= u < n ==> VisitOk(m, target, size, inum, policy, limit, visits, u, true)
  }

  /** The file's blocks come from visits to the groups in turn, from target on, until it has its size. */
  ghost predicate Placed(m: Bitmap, m': Bitmap, target: nat, size: nat, inum: nat, policy: nat, limit: int,
                         visits: seq<seq<nat>>, blocks: seq<Slot>)
    requires |m| > 0
  {
    && |visits| > 0 && blocks == SlotsOf(target, |m|, visits) && |blocks| == size
    && m' == Given(m, target, inum, visits)
    && Visited(m, target, size, inum, policy, limit, visits, |visits| - 1)
    && VisitOk(m, target, size, inum, policy, limit, visits, |visits| - 1, false)
  }

  // ----- the loop's steps -----

  /** In the middle of a visit: the visits before it, what it has taken, and the index that it has come to. */
  ghost predicate Visiting(m: Bitmap, target: nat, size: nat, inum: nat, policy: nat, limit: int, past: seq<seq<nat>>,
                           visit: seq<nat>, data: Bitmap, blocks: seq<Slot>, index: nat)
    requires |m| > 0
  {
    var u := |past|;
    var g, before := GroupOf(target, u, |m|), Given(m, target, inum, past);
    var row, needed := before[g], size - |SlotsOf(target, |m|, past)|;
    && Visited(m, target, size, inum, policy, limit, past, |past|)
    && data == before[g := RowTaken(row, visit, inum)]
    && blocks == SlotsOf(target, |m|, past) + InGroup(g, visit)
    && Limited(limit, visit) && InVisit(row, needed, ChunkOf(policy, u, |m|), visit, index)
  }

  predicate InVisit(row: seq<Option<nat>>, needed: int, chunk: nat, visit: seq<nat>, index: nat) {
    && Greedy(row, needed, chunk, visit) && From(visit) <= index <= |row|
    && NoRun(row, From(visit), index, Least(needed - |visit|, chunk))
  }

  lemma GreedyFront(row: seq<Option<nat>>, needed: int, chunk: nat, visit: seq<nat>)
    requires Greedy(row, needed, chunk, visit) && visit != []
    ensures var k := |visit| - 1;
            Greedy(row, needed, chunk, visit[..k]) && NextTaken(row, needed, chunk, visit[..k], visit[k])
  {
    hide NextTaken;
    var k := |visit| - 1;
    forall j | 0 <= j < k
      ensures NextTaken(row, needed, chunk, visit[..k][..j], visit[..k][j])
    {
      assert visit[..k][..j] == visit[..j];
    }
  }

  lemma {:induction false} GreedyBelow(row: seq<Option<nat>>, needed: int, chunk: nat, visit: seq<nat>)
    requires Greedy(row, needed, chunk, visit)
    ensures forall i :: i in visit ==> i < From(visit) <= |row|
  {
    if visit != [] {
      var k := |visit| - 1;
      assert visit == visit[..k] + [visit[k]];
      GreedyFront(row, needed, chunk, visit);
      hide Greedy;
      GreedyBelow(row, needed, chunk, visit[..k]);
    }
  }

  lemma GreedyMore(row: seq<Option<nat>>, needed: int, chunk: nat, visit: seq<nat>, i: nat)
    requires Greedy(row, needed, chunk, visit) && NextTaken(row, needed, chunk, visit, i)
    ensures Greedy(row, needed, chunk, visit + [i])
  {
    hide NextTaken;
    var more := visit + [i];
    forall k | 0 <= k < |more|
      ensures NextTaken(row, needed, chunk, more[..k], more[k])
    {
      assert more[..k] == if k < |visit| then visit[..k] else visit;
    }
  }

  /** What is free behind the slots taken was free when the visit began. */
  lemma SameRuns(row: seq<Option<nat>>, visit: seq<nat>, inum: nat, index: nat, length: int)
    requires forall i :: i in visit ==> i < index
    ensures RunFree(RowTaken(row, visit, inum), index, length) <==> RunFree(row, index, length)
  {
    assert forall j :: index <= j < |row| ==> RowTaken(row, visit, inum)[j] == row[j];
  }

  lemma VisitPasses(row: seq<Option<nat>>, needed: int, chunk: nat, visit: seq<nat>, index: nat)
    requires InVisit(row, needed, chunk, visit, index) && index < |row|
    requires !RunFree(row, index, Least(needed - |visit|, chunk))
    ensures InVisit(row, needed, chunk, visit, index + 1)
  {
    hide RunFree, Greedy;
  }

  lemma VisitTakes(row: seq<Option<nat>>, needed: int, chunk: nat, visit: seq<nat>, index: nat)
    requires InVisit(row, needed, chunk, visit, index) && index < |row|
    requires RunFree(row, index, Least(needed - |visit|, chunk))
    ensures InVisit(row, needed, chunk, visit + [index], index + 1)
  {
    hide RunFree, Greedy;
    GreedyMore(row, needed, chunk, visit, index);
  }

  lemma RowTakenMore(row: seq<Option<nat>>, visit: seq<nat>, inum: nat, index: nat)
    requires index < |row|
    ensures RowTaken(row, visit + [index], inum) == RowTaken(row, visit, inum)[index := Some(inum)]
  {
  }

  lemma InGroupMore(g: nat, visit: seq<nat>, index: nat)
    ensures InGroup(g, visit + [index]) == InGroup(g, visit) + [(g, index)]
  {
  }

  /** The loop looks at a slot. */
  lemma Looks(m: Bitmap, target: nat, size: nat, inum: nat, policy: nat, limit: int, past: seq<seq<nat>>,
              visit: seq<nat>, data: Bitmap, blocks: seq<Slot>, index: nat)
    requires |m| > 0 && Visiting(m, target, size, inum, policy, limit, past, visit, data, blocks, index)
    requires var g := GroupOf(target, |past|, |m|); |data| == |m| && index < |data[g]|
    requires Limited(limit, visit + [index])
    ensures var g := GroupOf(target, |past|, |m|);
            if RunFree(data[g], index, Least(size - |blocks|, ChunkOf(policy, |past|, |m|))) then
              Visiting(m, target, size, inum, policy, limit, past, visit + [index], Marked(data, g, index, inum),
                       blocks + [(g, index)], index + 1)
            else Visiting(m, target, size, inum, policy, limit, past, visit, data, blocks, index + 1)
  {
    hide Visited, SlotsOf, Given, RunFree, Greedy, InVisit;
    var g, before := GroupOf(target, |past|, |m|), Given(m, target, inum, past);
    var row, needed, chunk := before[g], size - |SlotsOf(target, |m|, past)|, ChunkOf(policy, |past|, |m|);
    VisitFacts(row, needed, chunk, visit, index);
    SameRuns(row, visit, inum, index, Least(needed - |visit|, chunk));
    RowTakenMore(row, visit, inum, index);
    InGroupMore(g, visit, index);
    if RunFree(row, index, Least(needed - |visit|, chunk)) {
      VisitTakes(row, needed, chunk, visit, index);
    } else {
      VisitPasses(row, needed, chunk, visit, index);
    }
  }

  lemma VisitFacts(row: seq<Option<nat>>, needed: int, chunk: nat, visit: seq<nat>, index: nat)
    requires InVisit(row, needed, chunk, visit, index)
    ensures forall i :: i in visit ==> i < index
  {
    GreedyBelow(row, needed, chunk, visit);
  }

  lemma OneMoreVisit(m: Bitmap, target: nat, inum: nat, past: seq<seq<nat>>, visit: seq<nat>)
    requires |m| > 0
    ensures var visits, g := past + [visit], GroupOf(target, |past|, |m|);
            var before := Given(m, target, inum, past);
            && Given(m, target, inum, visits) == before[g := RowTaken(before[g], visit, inum)]
            && SlotsOf(target, |m|, visits) == SlotsOf(target, |m|, past) + InGroup(g, visit)
  {
    assert (past + [visit])[..|past|] == past;
  }

  lemma VisitOkKept(m: Bitmap, target: nat, size: nat, inum: nat, policy: nat, limit: int, past: seq<seq<nat>>,
                    visit: seq<nat>)
    requires |m| > 0 && Visited(m, target, size, inum, policy, limit, past, |past|)
    ensures Visited(m, target, size, inum, policy, limit, past + [visit], |past|)
  {
    hide Greedy, Over, Given, SlotsOf;
    forall u | 0 <= u < |past|
      ensures VisitOk(m, target, size, inum, policy, limit, past + [visit], u, true)
    {
      assert (past + [visit])[..u] == past[..u];
      assert VisitOk(m, target, size, inum, policy, limit, past, u, true);
    }
  }

  /** The group has no more slots, or the large-file limit is reached. */
  predicate Leaves(m: Bitmap, target: nat, limit: int, past: seq<seq<nat>>, visit: seq<nat>, index: nat)
    requires |m| > 0
  {
    index == |m[GroupOf(target, |past|, |m|)]| || (limit > 0 && |visit| == limit)
  }

  lemma {:induction false} SameWidths(m: Bitmap, target: nat, inum: nat, visits: seq<seq<nat>>)
    requires |m| > 0
    ensures forall g :: 0 <= g < |m| ==> |Given(m, target, inum, visits)[g]| == |m[g]|
  {
    if visits != [] {
      SameWidths(m, target, inum, visits[..|visits| - 1]);
    }
  }

  /** The visit ends, and the file has its blocks or the next visit begins. */
  lemma VisitEnds(m: Bitmap, target: nat, size: nat, inum: nat, policy: nat, limit: int, past: seq<seq<nat>>,
                  visit: seq<nat>, data: Bitmap, blocks: seq<Slot>, index: nat)
    requires |m| > 0 && Visiting(m, target, size, inum, policy, limit, past, visit, data, blocks, index)
    ensures |blocks| == size ==> Placed(m, data, target, size, inum, policy, limit, past + [visit], blocks)
    ensures |blocks| < size && Leaves(m, target, limit, past, visit, index) ==>
              Visiting(m, target, size, inum, policy, limit, past + [visit], [], data, blocks, 0)
  {
    hide Greedy, NoRun, SlotsOf, Given;
    var visits := past + [visit];
    SameWidths(m, target, inum, past);
    OneMoreVisit(m, target, inum, past, visit);
    VisitOkKept(m, target, size, inum, policy, limit, past, visit);
    assert visits[..|past|] == past;
    assert VisitOk(m, target, size, inum, policy, limit, visits, |past|, false);
    var g := GroupOf(target, |visits|, |m|);
    Begins(data[g], inum, size - |blocks|, ChunkOf(policy, |visits|, |m|));
    assert data[g := RowTaken(data[g], [], inum)] == data;
    assert blocks + InGroup(g, []) == blocks;
  }

  lemma Begins(row: seq<Option<nat>>, inum: nat, needed: int, chunk: nat)
    ensures RowTaken(row, [], inum) == row && InVisit(row, needed, chunk, [], 0)
  {
  }

  lemma GroupOfNext(target: nat, u: nat, groups: nat)
    requires target < groups
    ensures GroupOf(target, 0, groups) == target
    ensures (GroupOf(target, u, groups) + 1) % groups == GroupOf(target, u + 1, groups)
    ensures 0 < u < groups ==> GroupOf(target, u, groups) != target
    ensures u == groups ==> GroupOf(target, u, groups) == target
  {
    DivModUnique(target, 0, target, groups);
    var x := target + u;
    var k, r := x / groups, x % groups;
    assert x == k * groups + r;
    if r + 1 < groups {
      DivModUnique(x + 1, k, r + 1, groups);
      DivModUnique(r + 1, 0, r + 1, groups);
    } else {
      assert (k + 1) * groups == k * groups + groups;
      DivModUnique(x + 1, k + 1, 0, groups);
      DivModUnique(r + 1, 1, 0, groups);
    }
    if x < groups {
      DivModUnique(x, 0, x, groups);
    } else if u <= groups {
      DivModUnique(x, 1, x - groups, groups);
    }
  }

  lemma VisitStarts(m: Bitmap, target: nat, size: nat, inum: nat, policy: nat, limit: int)
    requires |m| > 0
    ensures Visiting(m, target, size, inum, policy, limit, [], [], m, [], 0)
  {
    var g := GroupOf(target, 0, |m|);
    assert RowTaken(m[g], [], inum) == m[g];
    assert m[g := RowTaken(m[g], [], inum)] == m;
  }

  // ----- chunks of one block -----

  lemma OneFree(row: seq<Option<nat>>, i: nat)
    requires i < |row|
    ensures RunFree(row, i, 1) <==> row[i].None?
  {
  }

  /** The free slots below an index. */
  function FreeBelow(row: seq<Option<nat>>, i: nat): nat
    requires i <= |row|
  {
    FreeIn(row[..i])
  }

  lemma FreeBelowNext(row: seq<Option<nat>>, i: nat)
    requires i < |row|
    ensures FreeBelow(row, i + 1) == FreeBelow(row, i) + if row[i].None? then 1 else 0
  {
    assert row[..i + 1][..i] == row[..i];
  }

  lemma {:induction false} NoneFreeBetween(row: seq<Option<nat>>, from: nat, end: nat)
    requires from <= end <= |row| && NoRun(row, from, end, 1)
    ensures FreeBelow(row, end) == FreeBelow(row, from)
    ensures forall i :: from <= i < end ==> row[i].Some?
    decreases end - from
  {
    if from < end {
      OneFree(row, end - 1);
      FreeBelowNext(row, end - 1);
      assert !RunFree(row, end - 1, 1);
      NoneFreeBetween(row, from, end - 1);
    }
  }

  /** The visit took the first free slots of the row, as many as it took. */
  predicate TookFirst(row: seq<Option<nat>>, visit: seq<nat>) {
    && From(visit) <= |row| && FreeBelow(row, From(visit)) == |visit|
    && (forall i :: i in visit ==> i < From(visit))
    && forall i :: 0 <= i < From(visit) ==> (row[i].None? <==> i in visit)
  }

  lemma TookOneMore(row: seq<Option<nat>>, visit: seq<nat>, i: nat)
    requires TookFirst(row, visit) && From(visit) <= i < |row| && RunFree(row, i, 1) && NoRun(row, From(visit), i, 1)
    ensures TookFirst(row, visit + [i])
  {
    NoneFreeBetween(row, From(visit), i);
    OneFree(row, i);
    FreeBelowNext(row, i);
    hide FreeBelow, RunFree, NoRun;
    assert forall j :: j in visit + [i] <==> j in visit || j == i;
  }

  lemma NextOne(row: seq<Option<nat>>, needed: int, visit: seq<nat>, i: nat)
    requires NextTaken(row, needed, 1, visit, i) && |visit| < needed
    ensures From(visit) <= i < |row| && RunFree(row, i, 1) && NoRun(row, From(visit), i, 1)
  {
    hide RunFree, NoRun;
  }

  /** With chunks of one block a visit takes the first free slots. */
  lemma {:induction false} GreedyFirst(row: seq<Option<nat>>, needed: int, visit: seq<nat>)
    requires Greedy(row, needed, 1, visit) && |visit| <= needed
    ensures TookFirst(row, visit)
  {
    if visit == [] {
      assert row[..0] == [];
    } else {
      hide *;
      var k := |visit| - 1;
      GreedyFront(row, needed, 1, visit);
      GreedyFirst(row, needed, visit[..k]);
      NextOne(row, needed, visit[..k], visit[k]);
      TookOneMore(row, visit[..k], visit[k]);
      assert visit == visit[..k] + [visit[k]];
    }
  }

  function AtMost(limit: int, n: int): int {
    if limit > 0 && limit < n then limit else n
  }

  /** With chunks of one block each visit gives the first min(limit, needed, free) free slots of its group. */
  lemma VisitGives(row: seq<Option<nat>>, needed: int, limit: int, visit: seq<nat>)
    requires Greedy(row, needed, 1, visit) && Limited(limit, visit)
    requires Over(row, needed, 1, limit, visit) || |visit| == needed
    ensures |visit| == AtMost(limit, Least(needed, FreeIn(row)))
    ensures TookFirst(row, visit)
  {
    GreedyFirst(row, needed, visit);
    hide Greedy;
    assert row[..|row|] == row;
    FreeBelowGrows(row, From(visit), |row|);
    if |visit| < needed && !(limit > 0 && |visit| == limit) {
      NoneFreeBetween(row, From(visit), |row|);
    }
  }

  lemma {:induction false} FreeBelowGrows(row: seq<Option<nat>>, from: nat, end: nat)
    requires from <= end <= |row|
    ensures FreeBelow(row, from) <= FreeBelow(row, end)
    decreases end - from
  {
    if from < end {
      FreeBelowNext(row, end - 1);
      FreeBelowGrows(row, from, end - 1);
    }
  }

  /** The same for the visits of a whole allocation: those with chunks of one block give the first free slots of their
  group, as many as the limit, the need and the group allow. */
  lemma PlacedFirst(m: Bitmap, m': Bitmap, target: nat, size: nat, inum: nat, policy: nat, limit: int,
                    visits: seq<seq<nat>>, blocks: seq<Slot>, u: nat)
    requires |m| > 0 && Placed(m, m', target, size, inum, policy, limit, visits, blocks)
    requires u < |visits| && ChunkOf(policy, u, |m|) == 1
    ensures var row, needed := RowAt(m, target, inum, visits, u), NeededAt(target, |m|, size, visits, u);
            |visits[u]| == AtMost(limit, Least(needed, FreeIn(row))) && TookFirst(row, visits[u])
  {
    hide Given, FreeIn, Greedy;
    assert VisitOk(m, target, size, inum, policy, limit, visits, u, u < |visits| - 1);
    if u == |visits| - 1 {
      assert |InGroup(GroupOf(target, u, |m|), visits[u])| == |visits[u]|;
    }
    VisitGives(RowAt(m, target, inum, visits, u), NeededAt(target, |m|, size, visits, u), limit, visits[u]);
  }

  /** In the first round each block begins a run of free slots for a chunk, or for all that is still needed. */
  lemma PlacedInRuns(m: Bitmap, m': Bitmap, target: nat, size: nat, inum: nat, policy: nat, limit: int,
                     visits: seq<seq<nat>>, blocks: seq<Slot>, u: nat, k: nat)
    requires |m| > 0 && Placed(m, m', target, size, inum, policy, limit, visits, blocks)
    requires u < |visits| && u < |m| && k < |visits[u]|
    ensures var needed := NeededAt(target, |m|, size, visits, u) - k;
            RunFree(RowAt(m, target, inum, visits, u), visits[u][k], Least(needed, policy))
  {
    hide Given;
    assert VisitOk(m, target, size, inum, policy, limit, visits, u, u < |visits| - 1);
    var row, needed := RowAt(m, target, inum, visits, u), NeededAt(target, |m|, size, visits, u);
    assert NextTaken(row, needed, policy, visits[u][..k], visits[u][k]);
  }

  /** With chunks of one block a file stays in its group, if the group has room for it and the limit allows it. */
  lemma StaysHome(m: Bitmap, m': Bitmap, target: nat, size: nat, inum: nat, policy: nat, limit: int,
                  visits: seq<seq<nat>>, blocks: seq<Slot>)
    requires target < |m| && Placed(m, m', target, size, inum, policy, limit, visits, blocks)
    requires policy == 1 && size <= FreeIn(m[target]) && (limit <= 0 || size <= limit)
    ensures forall b :: b in blocks ==> b.0 == target
  {
    hide Given, FreeIn, Greedy;
    PlacedFirst(m, m', target, size, inum, policy, limit, visits, blocks, 0);
    GroupOfNext(target, 0, |m|);
    assert visits[..0] == [];
    assert RowAt(m, target, inum, visits, 0) == m[target] by { NoneGiven(m, target, inum); }
    assert NeededAt(target, |m|, size, visits, 0) == size;
    assert |visits| > 1 ==> VisitOk(m, target, size, inum, policy, limit, visits, 0, true);
    assert visits[..|visits| - 1] == [];
  }

  lemma NoneGiven(m: Bitmap, target: nat, inum: nat)
    requires |m| > 0
    ensures Given(m, target, inum, []) == m
  {
  }
}
