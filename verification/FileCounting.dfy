/** Counting: allocated bits, occurrences in a directory, references on the disk. */
module FileCounting {
  import opened Directories
  import opened FileSystem
  import opened Sequences

  lemma {:induction false} CountUpdate(bits: seq<bool>, k: nat, v: bool)
    requires k < |bits|
    ensures CountAllocated(bits[k := v])
         == CountAllocated(bits) - (if bits[k] then 1 else 0) + (if v then 1 else 0)
  {
    var n := |bits| - 1;
    if k < n {
      CountUpdate(bits[..n], k, v);
      assert bits[k := v][..n] == bits[..n][k := v];
    } else {
      assert bits[k := v][..n] == bits[..n];
    }
  }

  lemma {:induction false} CountNone(n: nat)
    ensures CountAllocated(seq(n, _ => false)) == 0
  {
    if n > 0 {
      CountNone(n - 1);
      assert seq(n, _ => false)[..n - 1] == seq(n - 1, _ => false);
    }
  }

  lemma {:induction false} OccurrencesConcat(a: seq<Entry>, b: seq<Entry>, i: int)
    ensures Occurrences(a + b, i) == Occurrences(a, i) + Occurrences(b, i)
  {
    if b == [] {
      assert a + b == a;
    } else {
      OccurrencesConcat(a, b[..|b| - 1], i);
      assert (a + b)[..|a + b| - 1] == a + b[..|b| - 1];
    }
  }

  lemma OccurrencesSplit(list: seq<Entry>, k: nat, i: int)
    requires k < |list|
    ensures Occurrences(list, i)
         == Occurrences(list[..k] + list[k + 1..], i) + (if list[k].inum == i then 1 else 0)
  {
    assert list == list[..k] + [list[k]] + list[k + 1..];
    OccurrencesConcat(list[..k], [list[k]], i);
    OccurrencesConcat(list[..k] + [list[k]], list[k + 1..], i);
    OccurrencesConcat(list[..k], list[k + 1..], i);
    assert Occurrences([list[k]], i) == if list[k].inum == i then 1 else 0;
  }

  lemma OccurrencesAdd(list: seq<Entry>, e: Entry, i: int)
    ensures Occurrences(list + [e], i) == Occurrences(list, i) + (if e.inum == i then 1 else 0)
  {
    assert (list + [e])[..|list|] == list;
  }

  lemma {:induction false} ReferencesUpdate(data: seq<Block>, b: nat, block: Block, i: int)
    requires b < |data|
    ensures References(data[b := block], i)
         == References(data, i) - Occurrences(data[b].dirList, i) + Occurrences(block.dirList, i)
  {
    var n := |data| - 1;
    if b < n {
      ReferencesUpdate(data[..n], b, block, i);
      assert data[b := block][..n] == data[..n][b := block];
    } else {
      assert data[b := block][..n] == data[..n];
    }
  }

  lemma {:induction false} ReferencesSame(data: seq<Block>, data': seq<Block>, i: int)
    requires |data| == |data'| && forall b :: 0 <= b < |data| ==> data[b].dirList == data'[b].dirList
    ensures References(data, i) == References(data', i)
  {
    if data != [] {
      var n := |data| - 1;
      ReferencesSame(data[..n], data'[..n], i);
    }
  }

  lemma {:induction false} ReferencesNone(n: nat, i: int)
    ensures References(seq(n, _ => EMPTY_BLOCK), i) == 0
  {
    if n > 0 {
      ReferencesNone(n - 1, i);
      assert seq(n, _ => EMPTY_BLOCK)[..n - 1] == seq(n - 1, _ => EMPTY_BLOCK);
    }
  }

  /** An entry is counted. */
  lemma {:induction false} ReferenceCounted(data: seq<Block>, b: nat, k: nat)
    requires b < |data| && k < |data[b].dirList|
    ensures References(data, data[b].dirList[k].inum) >= 1
  {
    if b == |data| - 1 {
      OccurrencesSplit(data[b].dirList, k, data[b].dirList[k].inum);
    } else {
      ReferenceCounted(data[..|data| - 1], b, k);
    }
  }

  /** A count that is not zero has an entry. */
  lemma {:induction false} OccurrenceFound(list: seq<Entry>, i: int) returns (k: nat)
    requires Occurrences(list, i) >= 1
    ensures k < |list| && list[k].inum == i
  {
    k := |list| - 1;
    if list[k].inum != i {
      k := OccurrenceFound(list[..k], i);
    }
  }

  lemma {:induction false} ReferenceFound(data: seq<Block>, i: int) returns (b: nat, k: nat)
    requires References(data, i) >= 1
    ensures b < |data| && k < |data[b].dirList| && data[b].dirList[k].inum == i
  {
    b := |data| - 1;
    if Occurrences(data[b].dirList, i) >= 1 {
      k := OccurrenceFound(data[b].dirList, i);
    } else {
      b, k := ReferenceFound(data[..b], i);
    }
  }

  lemma {:induction false} RemoveFirstAt(ps: seq<Path>, p: Path, k: nat)
    requires k < |ps| && ps[k] == p && Distinct(ps)
    ensures RemoveFirst(ps, p) == ps[..k] + ps[k + 1..]
  {
    if k > 0 {
      assert ps[0] != p;
      assert Distinct(ps[1..]);
      RemoveFirstAt(ps[1..], p, k - 1);
      assert ps[1..][..k - 1] == ps[1..k];
      assert ps[1..][k..] == ps[k + 1..];
    }
  }
}
