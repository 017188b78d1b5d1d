/** What a round robin run did: a trace of slices, and what can be read from it about each job. */
module Slices {

  /** A job held the processor for a length of time, in the turn-th turn of its own. */
  datatype Slice = Slice(job: nat, turn: nat, start: real, length: real)

  // ----- what a trace says about job i -----

  function TurnsOf(trace: seq<Slice>, i: nat): nat {
    if trace == [] then 0
    else TurnsOf(trace[..|trace| - 1], i) + if trace[|trace| - 1].job == i then 1 else 0
  }

  /** The time that job i has run. */
  function RanFor(trace: seq<Slice>, i: nat): real {
    if trace == [] then 0.0
    else RanFor(trace[..|trace| - 1], i) + if trace[|trace| - 1].job == i then trace[|trace| - 1].length else 0.0
  }

  /** The time that other jobs have run. */
  function OthersRan(trace: seq<Slice>, i: nat): real {
    if trace == [] then 0.0
    else OthersRan(trace[..|trace| - 1], i) + if trace[|trace| - 1].job == i then 0.0 else trace[|trace| - 1].length
  }

  /** The end of the last slice of job i. */
  function LastEnd(trace: seq<Slice>, i: nat): real {
    if trace == [] then 0.0
    else
      var last := trace[|trace| - 1];
      if last.job == i then last.start + last.length else LastEnd(trace[..|trace| - 1], i)
  }

  /** The time before the last slice of job i in which other jobs ran. */
  function Waited(trace: seq<Slice>, i: nat): real {
    if trace == [] then 0.0
    else if trace[|trace| - 1].job == i then OthersRan(trace, i) else Waited(trace[..|trace| - 1], i)
  }

  /** The start of the first slice of job i, or -1. */
  function FirstStart(trace: seq<Slice>, i: nat): real {
    if trace == [] then -1.0
    else
      var before, last := trace[..|trace| - 1], trace[|trace| - 1];
      if TurnsOf(before, i) == 0 && last.job == i then last.start else FirstStart(before, i)
  }

  // ----- what makes a trace a round robin -----

  /** The slices follow each other from time 0 to the given time. */
  ghost predicate Tiled(trace: seq<Slice>, now: real) {
    if trace == [] then now == 0.0
    else
      var last := trace[|trace| - 1];
      now == last.start + last.length && Tiled(trace[..|trace| - 1], last.start)
  }

  ghost predicate Earlier(turn: nat, i: nat, turn': nat, j: nat) {
    turn < turn' || (turn == turn' && i < j)
  }

  /** All jobs have their n-th turns before any has the next one, in the order of their numbers. */
  ghost predicate InTurn(trace: seq<Slice>) {
    && (forall k :: 0 <= k < |trace| ==> trace[k].turn == TurnsOf(trace[..k], trace[k].job))
    && (forall a, b :: 0 <= a < b < |trace| ==> Earlier(trace[a].turn, trace[a].job, trace[b].turn, trace[b].job))
  }

  // ----- reading a trace -----

  lemma Extended(trace: seq<Slice>, s: Slice)
    ensures (trace + [s])[..|trace + [s]| - 1] == trace
    ensures forall i :: TurnsOf(trace + [s], i) == TurnsOf(trace, i) + if s.job == i then 1 else 0
    ensures forall i :: RanFor(trace + [s], i) == RanFor(trace, i) + if s.job == i then s.length else 0.0
    ensures forall i :: LastEnd(trace + [s], i) == if s.job == i then s.start + s.length else LastEnd(trace, i)
    ensures forall i ::
              Waited(trace + [s], i) == if s.job == i then OthersRan(trace, i) else Waited(trace, i)
    ensures forall i :: FirstStart(trace + [s], i) ==
                        if TurnsOf(trace, i) == 0 && s.job == i then s.start else FirstStart(trace, i)
    ensures forall now :: Tiled(trace + [s], now) <==> now == s.start + s.length && Tiled(trace, s.start)
  {
    assert (trace + [s])[..|trace + [s]| - 1] == trace;
  }

  /** At any time a job has run, or another has. */
  lemma {:induction false} RanOrWaited(trace: seq<Slice>, now: real, i: nat)
    requires Tiled(trace, now)
    ensures RanFor(trace, i) + OthersRan(trace, i) == now
    ensures LastEnd(trace, i) == RanFor(trace, i) + Waited(trace, i)
  {
    if trace != [] {
      RanOrWaited(trace[..|trace| - 1], trace[|trace| - 1].start, i);
    }
  }

  /** The functions read what their names say: the first slice of a job, the last one, and the time that others had
  before that. */
  lemma {:induction false} SlicesOf(trace: seq<Slice>, i: nat) returns (first: nat, last: nat)
    requires TurnsOf(trace, i) > 0
    ensures first <= last < |trace| && trace[first].job == i == trace[last].job
    ensures forall k :: 0 <= k < |trace| && trace[k].job == i ==> first <= k <= last
    ensures FirstStart(trace, i) == trace[first].start
    ensures LastEnd(trace, i) == trace[last].start + trace[last].length
    ensures Waited(trace, i) == OthersRan(trace[..last], i)
  {
    var n := |trace| - 1;
    if TurnsOf(trace[..n], i) > 0 {
      first, last := SlicesOf(trace[..n], i);
      assert forall k :: 0 <= k < n ==> trace[..n][k] == trace[k];
      assert trace[..n][..last] == trace[..last];
      if trace[n].job == i {
        last := n;
      }
    } else {
      first, last := n, n;
      forall k | 0 <= k < |trace| && trace[k].job == i
        ensures k == n
      {
        if k < n {
          TurnsGrow(trace[..n], k, i);
        }
      }
    }
  }

  /** The turn-th slice of a job is there exactly if it has had more turns. */
  lemma {:induction false} SliceOfTurn(trace: seq<Slice>, i: nat, turn: nat) returns (p: nat)
    requires InTurn(trace) && turn < TurnsOf(trace, i)
    ensures p < |trace| && trace[p].job == i && trace[p].turn == turn == TurnsOf(trace[..p], i)
  {
    var n := |trace| - 1;
    if trace[n].job == i && TurnsOf(trace[..n], i) == turn {
      p := n;
    } else {
      PrefixInTurn(trace, n);
      p := SliceOfTurn(trace[..n], i, turn);
      assert trace[..n][..p] == trace[..p];
    }
  }

  lemma PrefixInTurn(trace: seq<Slice>, n: nat)
    requires InTurn(trace) && n <= |trace|
    ensures InTurn(trace[..n])
  {
    hide TurnsOf, Earlier;
    forall k | 0 <= k < n
      ensures trace[..n][k].turn == TurnsOf(trace[..n][..k], trace[..n][k].job)
    {
      assert trace[..n][..k] == trace[..k];
    }
  }

  lemma {:induction false} TurnsGrow(trace: seq<Slice>, n: nat, i: nat)
    requires n <= |trace|
    ensures TurnsOf(trace[..n], i) <= TurnsOf(trace, i)
    ensures forall k :: n <= k < |trace| && trace[k].job == i ==> TurnsOf(trace[..n], i) < TurnsOf(trace, i)
  {
    if n == |trace| {
      assert trace[..n] == trace;
    } else {
      var m := |trace| - 1;
      TurnsGrow(trace[..m], n, i);
      assert trace[..m][..n] == trace[..n];
      forall k | n <= k < |trace| && trace[k].job == i
        ensures TurnsOf(trace[..n], i) < TurnsOf(trace, i)
      {
        if k < m {
          assert trace[..m][k].job == i;
        }
      }
    }
  }

  /** Round robin is fair: between a slice of a job and the job's next slice, every other job that is not finished at
  the first one runs exactly once. */
  lemma BetweenTurns(trace: seq<Slice>, a: nat, b: nat, j: nat)
    requires InTurn(trace) && a < b < |trace| && trace[a].job == trace[b].job != j
    requires trace[b].turn == trace[a].turn + 1
    requires TurnsOf(trace[..a], j) < TurnsOf(trace, j)
    ensures TurnsOf(trace[..b], j) == TurnsOf(trace[..a], j) + 1
  {
    hide TurnsOf;
    var q := TurnsOf(trace[..a], j);
    var p := SliceOfTurn(trace, j, q);
    if p < a {
      PrefixCounts(trace, p, a);
      assert false;
    }
    if q > 0 {
      PrefixInTurn(trace, a);
      var before := SliceOfTurn(trace[..a], j, q - 1);
      assert trace[..a][before] == trace[before];
      assert Earlier(trace[before].turn, j, trace[a].turn, trace[a].job);
    }
    assert Earlier(trace[p].turn, j, trace[b].turn, trace[b].job);
    assert p < b;
    PrefixCounts(trace, p, b);
    assert Earlier(trace[a].turn, trace[a].job, trace[p].turn, j);
    if TurnsOf(trace[..b], j) > q + 1 {
      PrefixInTurn(trace, b);
      var next := SliceOfTurn(trace[..b], j, q + 1);
      assert false;
    }
  }

  lemma PrefixCounts(trace: seq<Slice>, p: nat, n: nat)
    requires p < n <= |trace|
    ensures TurnsOf(trace[..p], trace[p].job) < TurnsOf(trace[..n], trace[p].job)
  {
    hide TurnsOf;
    TurnsGrow(trace[..n], p, trace[p].job);
    assert trace[..n][p] == trace[p] && trace[..n][..p] == trace[..p];
  }
}
