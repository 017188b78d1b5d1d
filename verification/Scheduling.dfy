/** First in first out, shortest job first and round robin: what the accounting loops of the scheduler compute. */
module Scheduling {
  import opened Slices

  datatype Job = Job(id: nat, runtime: real)

  // ----- one after the other -----

  function Total(jobs: seq<Job>): real {
    if jobs == [] then 0.0 else jobs[0].runtime + Total(jobs[1..])
  }

  function Weighted(n: nat, x: real): real {
    n as real * x
  }

  lemma WeightedNext(n: nat, x: real)
    ensures Weighted(n + 1, x) == Weighted(n, x) + x
  {
  }

  lemma WeightedSum(n: nat, x: real, y: real)
    ensures Weighted(n, x + y) == Weighted(n, x) + Weighted(n, y)
  {
  }

  /** The sum of the waiting times when the jobs run in this order: each job makes all later ones wait. */
  function WaitSum(jobs: seq<Job>): real {
    if jobs == [] then 0.0 else Weighted(|jobs| - 1, jobs[0].runtime) + WaitSum(jobs[1..])
  }

  predicate Shortest(jobs: seq<Job>) {
    forall i, j :: 0 <= i < j < |jobs| ==> jobs[i].runtime <= jobs[j].runtime
  }

  lemma WaitFirst(job: Job, rest: seq<Job>)
    ensures WaitSum([job] + rest) == Weighted(|rest|, job.runtime) + WaitSum(rest)
  {
    hide Weighted;
    assert ([job] + rest)[1..] == rest;
  }

  /** Running a job before others that take at least as long never adds to the waiting times. */
  lemma {:induction false} MoveToFront(before: seq<Job>, job: Job, after: seq<Job>)
    requires forall i :: 0 <= i < |before| ==> job.runtime <= before[i].runtime
    ensures WaitSum([job] + before + after) <= WaitSum(before + [job] + after)
    decreases |before|
  {
    if before == [] {
      assert [job] + before + after == before + [job] + after;
    } else {
      hide WaitSum, Weighted;
      var first, rest := before[0], before[1..];
      MoveToFront(rest, job, after);
      var both := rest + after;
      assert before + [job] + after == [first] + (rest + [job] + after);
      assert [job] + before + after == [job] + ([first] + both);
      assert [job] + rest + after == [job] + both;
      WaitFirst(first, rest + [job] + after);
      WaitFirst(job, both);
      WaitFirst(job, [first] + both);
      WaitFirst(first, both);
      WeightedNext(|both|, first.runtime);
      WeightedNext(|both|, job.runtime);
    }
  }

  lemma FoundIn(a: seq<Job>, b: seq<Job>) returns (k: nat)
    requires multiset(a) == multiset(b) && |a| > 0
    ensures k < |b| && b[k] == a[0]
  {
    assert a[0] in multiset(b);
    k :| 0 <= k < |b| && b[k] == a[0];
  }

  lemma ShortestRest(sorted: seq<Job>)
    requires Shortest(sorted) && |sorted| > 0
    ensures Shortest(sorted[1..])
  {
  }

  /** Shortest job first is optimal: no order of the same jobs has a smaller sum of waiting times. */
  lemma {:induction false} ShortestFirstOptimal(sorted: seq<Job>, jobs: seq<Job>)
    requires multiset(sorted) == multiset(jobs) && Shortest(sorted)
    ensures WaitSum(sorted) <= WaitSum(jobs)
    decreases |sorted|
  {
    SameLength(sorted, jobs);
    if sorted != [] {
      hide WaitSum, Shortest, Weighted;
      var job := sorted[0];
      var k := FoundIn(sorted, jobs);
      var before, after := jobs[..k], jobs[k + 1..];
      forall i | 0 <= i < |before|
        ensures job.runtime <= before[i].runtime
      {
        FirstIsShortest(sorted, jobs, i);
      }
      WithoutFirst(sorted, jobs, k);
      ShortestRest(sorted);
      ShortestFirstOptimal(sorted[1..], before + after);
      MoveToFront(before, job, after);
      assert jobs == before + [job] + after;
      assert [job] + before + after == [job] + (before + after);
      assert sorted == [job] + sorted[1..];
      WaitFirst(job, before + after);
      WaitFirst(job, sorted[1..]);
      assert |sorted[1..]| == |before + after|;
    }
  }

  lemma FirstIsShortest(sorted: seq<Job>, jobs: seq<Job>, i: nat)
    requires multiset(sorted) == multiset(jobs) && Shortest(sorted) && i < |jobs|
    ensures |sorted| > 0 && sorted[0].runtime <= jobs[i].runtime
  {
    assert jobs[i] in multiset(jobs);
    assert jobs[i] in sorted;
  }

  /** Taking the same job out of two orders of the same jobs. */
  lemma WithoutFirst(a: seq<Job>, b: seq<Job>, k: nat)
    requires multiset(a) == multiset(b) && |a| > 0 && k < |b| && b[k] == a[0]
    ensures multiset(a[1..]) == multiset(b[..k] + b[k + 1..])
  {
    assert a == [a[0]] + a[1..];
    assert b == b[..k] + [b[k]] + b[k + 1..];
    assert multiset(a) == multiset{a[0]} + multiset(a[1..]);
    assert multiset(b) == multiset(b[..k]) + multiset{b[k]} + multiset(b[k + 1..]);
    assert multiset(b[..k] + b[k + 1..]) == multiset(b[..k]) + multiset(b[k + 1..]);
    assert multiset(a[1..]) == multiset(a) - multiset{a[0]};
  }

  lemma SameLength(a: seq<Job>, b: seq<Job>)
    requires multiset(a) == multiset(b)
    ensures |a| == |b|
  {
    assert |multiset(a)| == |a| && |multiset(b)| == |b|;
  }

  /** The order does not change how long the jobs take together. */
  lemma {:induction false} TotalOfPermutation(a: seq<Job>, b: seq<Job>)
    requires multiset(a) == multiset(b)
    ensures Total(a) == Total(b)
    decreases |a|
  {
    SameLength(a, b);
    if a != [] {
      assert a[0] in multiset(a);
      var k :| 0 <= k < |b| && b[k] == a[0];
      WithoutFirst(a, b, k);
      TotalOfPermutation(a[1..], b[..k] + b[k + 1..]);
      TotalWithout(b, k);
    }
  }

  lemma {:induction false} TotalWithout(b: seq<Job>, k: nat)
    requires k < |b|
    ensures Total(b) == b[k].runtime + Total(b[..k] + b[k + 1..])
  {
    if k == 0 {
      assert b[..0] + b[1..] == b[1..];
    } else {
      TotalWithout(b[1..], k - 1);
      assert (b[..k] + b[k + 1..])[1..] == b[1..][..k - 1] + b[1..][k..];
    }
  }

  /** A job's turnaround is its wait and its own runtime, so shortest job first is optimal for the sum of the
  turnaround times too. */
  lemma TurnaroundOptimal(sorted: seq<Job>, jobs: seq<Job>)
    requires multiset(sorted) == multiset(jobs) && Shortest(sorted)
    ensures WaitSum(sorted) + Total(sorted) <= WaitSum(jobs) + Total(jobs)
  {
    ShortestFirstOptimal(sorted, jobs);
    TotalOfPermutation(sorted, jobs);
  }

  /** The accounting loop of first in first out. */
  method FirstInFirstOut(jobs: seq<Job>) returns (responseSum: real, turnaroundSum: real, waitSum: real, end: real)
    ensures waitSum == responseSum == WaitSum(jobs)
    ensures turnaroundSum == WaitSum(jobs) + Total(jobs) && end == Total(jobs)
  {
    responseSum, turnaroundSum, waitSum, end := 0.0, 0.0, 0.0, 0.0;
    for i := 0 to |jobs|
      invariant waitSum == responseSum && turnaroundSum == waitSum + end
      invariant end + Total(jobs[i..]) == Total(jobs)
      invariant waitSum + Weighted(|jobs| - i, end) + WaitSum(jobs[i..]) == WaitSum(jobs)
    {
      assert jobs[i..][1..] == jobs[i + 1..];
      WeightedNext(|jobs| - i - 1, end);
      WeightedSum(|jobs| - i - 1, end, jobs[i].runtime);
      responseSum, turnaroundSum, waitSum := responseSum + end, turnaroundSum + (end + jobs[i].runtime), waitSum + end;
      end := end + jobs[i].runtime;
    }
  }

  // ----- round robin -----

  /** The whole quanta that a job still needs. */
  function Quanta(runtime: real, quantum: real): int
    requires quantum > 0.0
  {
    (runtime / quantum).Floor
  }

  function QuantaOf(jobs: seq<Job>, quantum: real): int
    requires quantum > 0.0
  {
    if jobs == [] then 0 else Quanta(jobs[0].runtime, quantum) + QuantaOf(jobs[1..], quantum)
  }

  lemma ZeroFactor(x: real, y: real)
    requires x * y == 0.0 && y > 0.0
    ensures x == 0.0
  {
  }

  lemma OneQuantumLess(runtime: real, quantum: real)
    requires quantum > 0.0
    ensures Quanta(runtime - quantum, quantum) == Quanta(runtime, quantum) - 1
  {
    var a, b := runtime / quantum, (runtime - quantum) / quantum;
    assert a * quantum == runtime && b * quantum == runtime - quantum;
    assert (a - 1.0 - b) * quantum == a * quantum - quantum - b * quantum;
    ZeroFactor(a - 1.0 - b, quantum);
  }

  lemma QuantaNat(runtime: real, quantum: real)
    requires quantum > 0.0 && runtime >= 0.0
    ensures Quanta(runtime, quantum) >= 0
  {
    assert runtime / quantum >= 0.0;
  }

  lemma {:induction false} QuantaOfNat(jobs: seq<Job>, quantum: real)
    requires quantum > 0.0 && forall i :: 0 <= i < |jobs| ==> jobs[i].runtime >= 0.0
    ensures QuantaOf(jobs, quantum) >= 0
  {
    if jobs != [] {
      QuantaNat(jobs[0].runtime, quantum);
      QuantaOfNat(jobs[1..], quantum);
    }
  }

  lemma {:induction false} QueuedLast(jobs: seq<Job>, job: Job, quantum: real)
    requires quantum > 0.0
    ensures QuantaOf(jobs + [job], quantum) == QuantaOf(jobs, quantum) + Quanta(job.runtime, quantum)
    ensures Total(jobs + [job]) == Total(jobs) + job.runtime
  {
    if jobs == [] {
      assert jobs + [job] == [job];
      assert [job][1..] == [];
    } else {
      assert (jobs + [job])[1..] == jobs[1..] + [job];
      QueuedLast(jobs[1..], job, quantum);
    }
  }

  /** The books of the round robin loop. */
  datatype Books = Books(wait: seq<real>, response: seq<real>, turnaround: seq<real>, lastRan: seq<real>)

  ghost predicate Numbered(jobs: seq<Job>) {
    forall i :: 0 <= i < |jobs| ==> jobs[i].id == i && jobs[i].runtime >= 0.0
  }

  /** The run list holds each unfinished job once, with no more runtime left than it has asked for. */
  ghost predicate ListOk(jobs: seq<Job>, list: seq<Job>) {
    && (forall i :: 0 <= i < |list| ==> list[i].id < |jobs| && 0.0 <= list[i].runtime <= jobs[list[i].id].runtime)
    && (forall i, j :: 0 <= i < j < |list| ==> list[i].id != list[j].id)
  }

  predicate Listed(list: seq<Job>, i: nat) {
    exists k :: 0 <= k < |list| && list[k].id == i
  }

  ghost predicate Accounted(jobs: seq<Job>, list: seq<Job>, b: Books) {
    && |b.wait| == |b.response| == |b.turnaround| == |b.lastRan| == |jobs|
    && (forall k :: 0 <= k < |list| && list[k].id < |jobs| ==>
          b.wait[list[k].id] + (jobs[list[k].id].runtime - list[k].runtime) == b.lastRan[list[k].id])
    && (forall i :: 0 <= i < |jobs| && !Listed(list, i) ==> b.turnaround[i] == b.wait[i] + jobs[i].runtime)
  }

  /** The first k jobs have begun, each in time; the others wait at the front in their order. */
  ghost predicate Begun(jobs: seq<Job>, list: seq<Job>, b: Books, quantum: real, now: real, k: nat) {
    && k <= |jobs| == |b.response| && |jobs| - k <= |list| && now >= 0.0
    && list[..|jobs| - k] == jobs[k..]
    && (k < |jobs| ==> now <= Weighted(k, quantum))
    && (forall i :: 0 <= i < k ==> 0.0 <= b.response[i] <= Weighted(i, quantum))
    && (forall i :: k <= i < |jobs| ==> b.response[i] == -1.0)
  }

  lemma ListOkTurn(jobs: seq<Job>, list: seq<Job>, left: real, again: bool)
    requires ListOk(jobs, list) && |list| > 0 && 0.0 <= left <= list[0].runtime
    ensures ListOk(jobs, list[1..] + if again then [Job(list[0].id, left)] else [])
  {
  }

  lemma ListedTurn(list: seq<Job>, left: real, again: bool, i: nat)
    requires |list| > 0 && (forall a, b :: 0 <= a < b < |list| ==> list[a].id != list[b].id)
    ensures Listed(list[1..] + (if again then [Job(list[0].id, left)] else []), i) <==>
            Listed(list, i) && (again || i != list[0].id)
  {
    var list' := list[1..] + if again then [Job(list[0].id, left)] else [];
    if Listed(list, i) && (again || i != list[0].id) {
      var k :| 0 <= k < |list| && list[k].id == i;
      assert list'[if k == 0 then |list| - 1 else k - 1].id == i;
    }
    if Listed(list', i) {
      var k :| 0 <= k < |list'| && list'[k].id == i;
      assert list[if k == |list| - 1 then 0 else k + 1].id == i;
    }
  }

  /** What running the first job of the list does to the books. */
  function Charged(b: Books, job: nat, now: real, ranFor: real, ends: bool): Books
    requires job < |b.wait| == |b.response| == |b.turnaround| == |b.lastRan|
  {
    Books(b.wait[job := b.wait[job] + (now - b.lastRan[job])],
          if b.response[job] == -1.0 then b.response[job := now] else b.response,
          if ends then b.turnaround[job := now + ranFor] else b.turnaround,
          b.lastRan[job := now + ranFor])
  }

  lemma AccountedTurn(jobs: seq<Job>, list: seq<Job>, b: Books, now: real, ranFor: real, again: bool)
    requires ListOk(jobs, list) && |list| > 0 && Accounted(jobs, list, b) && 0.0 <= ranFor <= list[0].runtime
    requires !again ==> ranFor == list[0].runtime
    ensures Accounted(jobs, list[1..] + (if again then [Job(list[0].id, list[0].runtime - ranFor)] else []),
                      Charged(b, list[0].id, now, ranFor, !again))
  {
    var id, left := list[0].id, list[0].runtime - ranFor;
    var list' := list[1..] + if again then [Job(id, left)] else [];
    var b' := Charged(b, id, now, ranFor, !again);
    forall i | 0 <= i < |jobs| && !Listed(list', i)
      ensures b'.turnaround[i] == b'.wait[i] + jobs[i].runtime
    {
      ListedTurn(list, left, again, i);
    }
  }

  lemma BegunTurn(jobs: seq<Job>, list: seq<Job>, b: Books, quantum: real, now: real, k: nat, ranFor: real, again: bool)
    requires Numbered(jobs) && ListOk(jobs, list) && |list| > 0 && Accounted(jobs, list, b)
    requires Begun(jobs, list, b, quantum, now, k) && 0.0 <= ranFor <= quantum
    ensures Begun(jobs, list[1..] + (if again then [Job(list[0].id, list[0].runtime - ranFor)] else []),
                  Charged(b, list[0].id, now, ranFor, !again), quantum, now + ranFor, if k < |jobs| then k + 1 else k)
  {
    hide Weighted;
    var n := |jobs|;
    var rest := list[1..] + if again then [Job(list[0].id, list[0].runtime - ranFor)] else [];
    hide Accounted;
    if k < n {
      NextInOrder(jobs, list, rest, k);
      WeightedNext(k, quantum);
    } else {
      assert rest[..0] == jobs[n..];
    }
  }

  lemma NextInOrder(jobs: seq<Job>, list: seq<Job>, rest: seq<Job>, k: nat)
    requires k < |jobs| && |jobs| - k <= |list| && list[..|jobs| - k] == jobs[k..] && list[1..] <= rest
    ensures list[0] == jobs[k] && |jobs| - k - 1 <= |rest| && rest[..|jobs| - k - 1] == jobs[k + 1..]
  {
    assert list[0] == list[..|jobs| - k][0] == jobs[k];
    assert list[1..][..|jobs| - k - 1] == list[..|jobs| - k][1..] == jobs[k + 1..];
  }

  // ----- what the run has done so far -----

  /** Each slice is a quantum, or what its job has left after a quantum for every turn before. */
  ghost predicate Cut(jobs: seq<Job>, quantum: real, trace: seq<Slice>) {
    forall k :: 0 <= k < |trace| ==> CutOk(jobs, quantum, trace[k])
  }

  ghost predicate CutOk(jobs: seq<Job>, quantum: real, s: Slice) {
    && s.job < |jobs| && s.start >= 0.0
    && (var left := jobs[s.job].runtime - Weighted(s.turn, quantum);
        && 0.0 <= left && (s.turn > 0 ==> 0.0 < left)
        && s.length == if left > quantum then quantum else left)
  }

  /** A job in the list has run for full quanta and has more to run. */
  ghost predicate Unfinished(jobs: seq<Job>, quantum: real, job: Job, trace: seq<Slice>) {
    var turns := TurnsOf(trace, job.id);
    && job.id < |jobs| && RanFor(trace, job.id) == Weighted(turns, quantum)
    && job.runtime == jobs[job.id].runtime - Weighted(turns, quantum)
    && (turns > 0 ==> job.runtime > 0.0)
  }

  /** The books say what the trace says. */
  ghost predicate Recorded(jobs: seq<Job>, list: seq<Job>, b: Books, trace: seq<Slice>) {
    && |b.wait| == |b.response| == |b.turnaround| == |b.lastRan| == |jobs|
    && (forall i :: 0 <= i < |jobs| ==>
          && b.lastRan[i] == LastEnd(trace, i) && b.wait[i] == Waited(trace, i)
          && b.response[i] == FirstStart(trace, i))
    && (forall i :: 0 <= i < |jobs| && !Listed(list, i) ==> Done(jobs, b, trace, i))
  }

  ghost predicate Done(jobs: seq<Job>, b: Books, trace: seq<Slice>, i: nat)
    requires i < |b.turnaround| == |jobs|
  {
    b.turnaround[i] == LastEnd(trace, i) && RanFor(trace, i) == jobs[i].runtime && TurnsOf(trace, i) > 0
  }

  /** The list is in the order of the next turns, and nobody is more than a turn ahead of its first. */
  ghost predicate Queued(list: seq<Job>, trace: seq<Slice>) {
    && (forall a, b :: 0 <= a < b < |list| ==>
          Earlier(TurnsOf(trace, list[a].id), list[a].id, TurnsOf(trace, list[b].id), list[b].id))
    && (forall a :: 0 < a < |list| ==>
          Earlier(TurnsOf(trace, list[a].id), list[a].id, TurnsOf(trace, list[0].id) + 1, list[0].id))
    && (|list| > 0 ==> forall k :: 0 <= k < |trace| ==>
          Earlier(trace[k].turn, trace[k].job, TurnsOf(trace, list[0].id), list[0].id))
  }

  ghost predicate Traced(jobs: seq<Job>, quantum: real, list: seq<Job>, b: Books, now: real, trace: seq<Slice>) {
    && Tiled(trace, now) && InTurn(trace) && Cut(jobs, quantum, trace) && Recorded(jobs, list, b, trace)
    && (forall k :: 0 <= k < |list| ==> Unfinished(jobs, quantum, list[k], trace)) && Queued(list, trace)
  }

  lemma {:induction false} NotStarted(trace: seq<Slice>, i: nat)
    requires forall k :: 0 <= k < |trace| ==> trace[k].start >= 0.0
    ensures FirstStart(trace, i) == -1.0 <==> TurnsOf(trace, i) == 0
  {
    if trace != [] {
      NotStarted(trace[..|trace| - 1], i);
    }
  }

  lemma QueuedTurn(list: seq<Job>, trace: seq<Slice>, s: Slice, left: real, again: bool)
    requires |list| > 0 && Queued(list, trace) && InTurn(trace)
    requires forall a, b :: 0 <= a < b < |list| ==> list[a].id != list[b].id
    requires s.job == list[0].id && s.turn == TurnsOf(trace, s.job)
    ensures Queued(list[1..] + (if again then [Job(list[0].id, left)] else []), trace + [s])
    ensures InTurn(trace + [s])
  {
    hide TurnsOf, RanFor, LastEnd, FirstStart, Waited, OthersRan, Tiled;
    Extended(trace, s);
    var trace' := trace + [s];
    forall k | 0 <= k < |trace'|
      ensures trace'[k].turn == TurnsOf(trace'[..k], trace'[k].job)
    {
      assert trace'[..k] == if k < |trace| then trace[..k] else trace;
    }
  }

  lemma RecordedTurn(jobs: seq<Job>, quantum: real, list: seq<Job>, b: Books, now: real, trace: seq<Slice>, s: Slice,
                     again: bool)
    requires ListOk(jobs, list) && |list| > 0 && Recorded(jobs, list, b, trace) && Cut(jobs, quantum, trace)
    requires Tiled(trace, now) && Unfinished(jobs, quantum, list[0], trace)
    requires s.job == list[0].id && s.start == now && (!again ==> s.length == list[0].runtime)
    ensures Recorded(jobs, list[1..] + (if again then [Job(list[0].id, list[0].runtime - s.length)] else []),
                     Charged(b, list[0].id, now, s.length, !again), trace + [s])
  {
    hide TurnsOf, RanFor, LastEnd, FirstStart, Waited, OthersRan, Tiled, Weighted;
    var id, left := list[0].id, list[0].runtime - s.length;
    var list' := list[1..] + if again then [Job(id, left)] else [];
    var b' := Charged(b, id, now, s.length, !again);
    Extended(trace, s);
    NotStarted(trace, id);
    RanOrWaited(trace, now, id);
    forall i | 0 <= i < |jobs| && !Listed(list', i)
      ensures Done(jobs, b', trace + [s], i)
    {
      ListedTurn(list, left, again, i);
    }
  }

  lemma TracedTurn(jobs: seq<Job>, quantum: real, list: seq<Job>, b: Books, now: real, trace: seq<Slice>, ranFor: real)
    requires ListOk(jobs, list) && |list| > 0 && Traced(jobs, quantum, list, b, now, trace) && now >= 0.0
    requires quantum > 0.0 && ranFor == if list[0].runtime > quantum then quantum else list[0].runtime
    ensures |b.wait| == |b.response| == |b.turnaround| == |b.lastRan| == |jobs|
    ensures var again := list[0].runtime > quantum;
            Traced(jobs, quantum,
                   list[1..] + (if again then [Job(list[0].id, list[0].runtime - ranFor)] else []),
                   Charged(b, list[0].id, now, ranFor, !again), now + ranFor,
                   trace + [Slice(list[0].id, TurnsOf(trace, list[0].id), now, ranFor)])
  {
    hide TurnsOf, RanFor, LastEnd, FirstStart, Waited, OthersRan, Tiled, Weighted, Queued, InTurn;
    var id, again := list[0].id, list[0].runtime > quantum;
    var s := Slice(id, TurnsOf(trace, id), now, ranFor);
    var list' := list[1..] + if again then [Job(id, list[0].runtime - ranFor)] else [];
    QueuedTurn(list, trace, s, list[0].runtime - ranFor, again);
    RecordedTurn(jobs, quantum, list, b, now, trace, s, again);
    Extended(trace, s);
    WeightedNext(s.turn, quantum);
    hide Recorded;
    forall k | 0 <= k < |list'|
      ensures Unfinished(jobs, quantum, list'[k], trace + [s])
    {
      assert k < |list| - 1 ==> list'[k] == list[k + 1];
    }
  }

  /** The body of the loop: the first job runs for a quantum or to its end. */
  method RunNext(jobs: seq<Job>, quantum: real, b: Books, now: real, list: seq<Job>, ghost k: nat,
                 ghost trace: seq<Slice>)
      returns (b': Books, now': real, list': seq<Job>, ghost trace': seq<Slice>)
    requires Numbered(jobs) && quantum > 0.0 && ListOk(jobs, list) && |list| > 0
    requires Traced(jobs, quantum, list, b, now, trace)
    ensures Traced(jobs, quantum, list', b', now', trace')
    ensures trace' == trace + [Slice(list[0].id, TurnsOf(trace, list[0].id), now, now' - now)]
    requires Accounted(jobs, list, b) && Begun(jobs, list, b, quantum, now, k)
    ensures ListOk(jobs, list') && Accounted(jobs, list', b')
    ensures Begun(jobs, list', b', quantum, now', if k < |jobs| then k + 1 else k)
    ensures now' + Total(list') == now + Total(list)
    ensures |list'| == |list| - 1 || (|list'| == |list| && QuantaOf(list', quantum) == QuantaOf(list, quantum) - 1)
  {
    hide Total, QuantaOf, Quanta, Accounted, Numbered, ListOk, Traced;
    var id, runtime := list[0].id, list[0].runtime;
    FirstFits(jobs, list, b);
    var response := b.response;
    if response[id] == -1.0 {
      response := response[id := now];
    }
    var wait := b.wait[id := b.wait[id] + (now - b.lastRan[id])];
    var turnaround, ranFor := b.turnaround, runtime;
    list' := list[1..];
    if runtime > quantum {
      ranFor := quantum;
      list' := list' + [Job(id, runtime - quantum)];
      QueuedLast(list[1..], Job(id, runtime - quantum), quantum);
      OneQuantumLess(runtime, quantum);
    } else {
      turnaround := turnaround[id := now + ranFor];
    }
    FirstOff(list, quantum);
    now' := now + ranFor;
    b' := Books(wait, response, turnaround, b.lastRan[id := now']);
    ghost var again := runtime > quantum;
    assert list[1..] + [] == list[1..];
    ListOkTurn(jobs, list, runtime - ranFor, again);
    AccountedTurn(jobs, list, b, now, ranFor, again);
    TracedTurn(jobs, quantum, list, b, now, trace, ranFor);
    trace' := trace + [Slice(id, TurnsOf(trace, id), now, ranFor)];
    BegunTurn(jobs, list, b, quantum, now, k, ranFor, again);
  }

  lemma FirstFits(jobs: seq<Job>, list: seq<Job>, b: Books)
    requires ListOk(jobs, list) && |list| > 0 && Accounted(jobs, list, b)
    ensures list[0].id < |jobs| && list[0].runtime >= 0.0
    ensures |b.wait| == |b.response| == |b.turnaround| == |b.lastRan| == |jobs|
  {
  }

  lemma FirstOff(list: seq<Job>, quantum: real)
    requires |list| > 0 && quantum > 0.0
    ensures Total(list) == list[0].runtime + Total(list[1..])
    ensures QuantaOf(list, quantum) == Quanta(list[0].runtime, quantum) + QuantaOf(list[1..], quantum)
  {
  }

  lemma ListNat(jobs: seq<Job>, list: seq<Job>, quantum: real)
    requires ListOk(jobs, list) && quantum > 0.0
    ensures QuantaOf(list, quantum) >= 0
  {
    QuantaOfNat(list, quantum);
  }

  /** The books as the loop finds them. */
  ghost predicate Fresh(jobs: seq<Job>, b: Books) {
    && |b.wait| == |b.response| == |b.turnaround| == |b.lastRan| == |jobs|
    && forall i :: 0 <= i < |jobs| ==>
         b.wait[i] == b.turnaround[i] == b.lastRan[i] == 0.0 && b.response[i] == -1.0
  }

  lemma AllListed(jobs: seq<Job>)
    requires Numbered(jobs)
    ensures ListOk(jobs, jobs) && forall i :: 0 <= i < |jobs| ==> Listed(jobs, i)
  {
    forall i | 0 <= i < |jobs|
      ensures Listed(jobs, i)
    {
      assert jobs[i].id == i;
    }
  }

  lemma BooksStart(jobs: seq<Job>, quantum: real, b: Books)
    requires Numbered(jobs) && Fresh(jobs, b)
    ensures ListOk(jobs, jobs) && Accounted(jobs, jobs, b) && Begun(jobs, jobs, b, quantum, 0.0, 0)
  {
    hide Listed, ListOk;
    AllListed(jobs);
    assert jobs[..|jobs|] == jobs == jobs[0..];
  }

  lemma TraceStart(jobs: seq<Job>, quantum: real, b: Books)
    requires Numbered(jobs) && Fresh(jobs, b)
    ensures Traced(jobs, quantum, jobs, b, 0.0, [])
  {
    hide Listed, ListOk;
    AllListed(jobs);
    assert Recorded(jobs, jobs, b, []);
    hide Recorded, Fresh;
    assert Queued(jobs, []);
  }

  lemma NothingLeft()
    ensures Total([]) == 0.0
  {
  }

  lemma RunEnds(jobs: seq<Job>, quantum: real, b: Books, now: real, k: nat, trace: seq<Slice>)
    requires Accounted(jobs, [], b) && Begun(jobs, [], b, quantum, now, k)
    requires Traced(jobs, quantum, [], b, now, trace)
    ensures |b.wait| == |b.response| == |b.turnaround| == |jobs|
    ensures Tiled(trace, now) && InTurn(trace) && Cut(jobs, quantum, trace)
    ensures forall i :: 0 <= i < |jobs| ==> b.turnaround[i] == b.wait[i] + jobs[i].runtime
    ensures forall i :: 0 <= i < |jobs| ==> 0.0 <= b.response[i] <= Weighted(i, quantum)
    ensures forall i :: 0 <= i < |jobs| ==> b.response[i] == FirstStart(trace, i)
    ensures forall i :: 0 <= i < |jobs| ==> b.turnaround[i] == LastEnd(trace, i)
    ensures forall i :: 0 <= i < |jobs| ==> b.wait[i] == Waited(trace, i)
    ensures forall i :: 0 <= i < |jobs| ==> TurnsOf(trace, i) > 0 && RanFor(trace, i) == jobs[i].runtime
  {
    hide Weighted, Tiled, InTurn, Cut, TurnsOf, RanFor;
    forall i | 0 <= i < |jobs|
      ensures b.turnaround[i] == LastEnd(trace, i)
      ensures TurnsOf(trace, i) > 0 && RanFor(trace, i) == jobs[i].runtime
    {
      assert !Listed([], i);
      assert Done(jobs, b, trace, i);
    }
  }

  /** The round robin loop ends, at the time that the jobs take together. The trace tiles that time with slices, each
  a quantum or what is left of its job, and all jobs have their n-th turns before any has the next one. A job's
  response time is the start of its first slice, its turnaround time the end of its last one and its waiting time the
  time before that in which others ran; job i begins within i quanta. */
  method RoundRobin(jobs: seq<Job>, quantum: real) returns (b: Books, now: real, ghost trace: seq<Slice>)
    requires Numbered(jobs) && quantum > 0.0
    ensures now == Total(jobs)
    ensures Tiled(trace, now) && InTurn(trace) && Cut(jobs, quantum, trace)
    ensures forall i :: 0 <= i < |jobs| ==> TurnsOf(trace, i) > 0 && RanFor(trace, i) == jobs[i].runtime
    ensures |b.wait| == |b.response| == |b.turnaround| == |jobs|
    ensures forall i :: 0 <= i < |jobs| ==> b.response[i] == FirstStart(trace, i)
    ensures forall i :: 0 <= i < |jobs| ==> b.turnaround[i] == LastEnd(trace, i)
    ensures forall i :: 0 <= i < |jobs| ==> b.wait[i] == Waited(trace, i)
    ensures forall i :: 0 <= i < |jobs| ==> b.turnaround[i] == b.wait[i] + jobs[i].runtime
    ensures forall i :: 0 <= i < |jobs| ==> 0.0 <= b.response[i] <= Weighted(i, quantum)
  {
    hide Total, QuantaOf, Begun, Accounted, Numbered, ListOk, Traced, Tiled, InTurn, Cut, Weighted;
    hide TurnsOf, RanFor, LastEnd, FirstStart, Waited;
    var n := |jobs|;
    var zero := seq(n, _ => 0.0);
    b := Books(zero, seq(n, _ => -1.0), zero, zero);
    now := 0.0;
    var list := jobs;
    ghost var k := 0;
    trace := [];
    assert Fresh(jobs, b);
    BooksStart(jobs, quantum, b);
    TraceStart(jobs, quantum, b);
    while |list| > 0
      invariant ListOk(jobs, list) && Accounted(jobs, list, b) && Begun(jobs, list, b, quantum, now, k)
      invariant Traced(jobs, quantum, list, b, now, trace)
      invariant now + Total(list) == Total(jobs)
      decreases |list|, QuantaOf(list, quantum)
    {
      ListNat(jobs, list, quantum);
      b, now, list, trace := RunNext(jobs, quantum, b, now, list, k, trace);
      ListNat(jobs, list, quantum);
      k := if k < n then k + 1 else k;
    }
    assert list == [];
    NothingLeft();
    RunEnds(jobs, quantum, b, now, k, trace);
  }
}
