/** Whole runs of the multi-level feedback queue again: no job is passed over at its priority, the times that the
program reports, and how a job that issues I/Os in time keeps its priority under the -S option. */
module MlfqFair {
  import opened Arithmetic
  import opened Mlfq
  import opened MlfqTheorems
  import opened MlfqRuns
  import opened MlfqOrder

  // ----- between two quanta -----

  /** A turn gives a job running time exactly when it is the job that runs. */
  lemma RunsIff(cfg: Config, s: State, place: seq<Place>, j: nat)
    requires Inv(cfg, s, place, s.currTime) && j < |s.job|
    ensures Turn(cfg, s).Next? && |Turn(cfg, s).state.job| == |s.job|
    ensures Runs(cfg, s, j) <==> Turn(cfg, s).state.job[j].timeLeft < s.job[j].timeLeft
  {
    hide Ready, Turn, EventsOk, JobsOk, QueuesOk, Idle, Highest, Tick;
    var r, place', q := TurnParts(cfg, s, place);
    ReadyKeepsTimes(cfg, s, place);
  }

  predicate Waits(p: Turned, q: nat, j: nat) {
    p.Next? && q < |p.state.queue| && j in p.state.queue[q]
  }

  /** While x waits at priority q and does not run, it stays before j. */
  lemma {:induction false} StaysAhead(cfg: Config, a: nat, m: nat, q: nat, x: nat, j: nat)
    requires cfg.Valid() && a <= m && Waits(After(cfg, a), q, x)
    requires forall k :: a <= k <= m ==> Waits(After(cfg, k), q, x)
    requires forall k :: a <= k < m ==> !Ran(After(cfg, k), After(cfg, k + 1), x)
    requires Ahead(After(cfg, a).state.queue[q], x, j)
    ensures Waits(After(cfg, m), q, x) && Ahead(After(cfg, m).state.queue[q], x, j)
    decreases m - a
  {
    hide Turn, QueuesOk, EventsOk, JobsOk, Ahead, Runs, BoostDue;
    if a < m {
      StaysAhead(cfg, a, m - 1, q, x, j);
      var place := RunKeepsInv(cfg, m - 1);
      var s := After(cfg, m - 1).state;
      assert Waits(After(cfg, m), q, x);
      if s.finished < |cfg.jobs| {
        assert After(cfg, m) == Turn(cfg, s);
        QueueOf(cfg, s, place, s.currTime, q, x);
        RunsIff(cfg, s, place, x);
        assert !Ran(After(cfg, m - 1), After(cfg, m), x);
        WaitersKeepOrder(cfg, s, place, q, x, j);
        var after := RunKeepsInv(cfg, m);
        var s' := After(cfg, m).state;
        var top := if BoostDue(cfg, s.currTime) then cfg.HiQueue() else q;
        AheadBoth(s'.queue[top], x, j);
        QueueOf(cfg, s', after, s'.currTime, top, x);
        QueueOf(cfg, s', after, s'.currTime, q, x);
      }
    }
  }

  /** A job that has another before it does not get the turn. */
  lemma NotBehind(cfg: Config, s: State, place: seq<Place>, q: nat, x: nat, j: nat)
    requires Inv(cfg, s, place, s.currTime) && q < |s.queue| && Ahead(s.queue[q], x, j)
    ensures !Runs(cfg, s, j)
  {
    hide Ready, Turn, EventsOk, JobsOk, QueuesOk, Ahead, Idle, Highest, Tick, BoostDue;
    var r, place', p := TurnParts(cfg, s, place);
    var top := if BoostDue(cfg, s.currTime) then cfg.HiQueue() else q;
    ReadyKeepsOrder(cfg, s, place, q, x, j);
    AheadBoth(r.queue[top], x, j);
    QueueOf(cfg, r, place', r.currTime + 1, top, j);
    NeverTwice(r.queue, top, x, j);
  }

  /** No job is passed over at its own priority: between the end of a quantum of job j and the next turn that j gets,
  every other job that waits at the priority to which j went, throughout, has run. */
  lemma EveryoneBetween(cfg: Config, a: nat, b: nat, q: nat, x: nat, j: nat)
    requires cfg.Valid() && a < b && x != j
    requires Ran(After(cfg, a), After(cfg, a + 1), j) && |After(cfg, a).state.queue| == cfg.numQueues
    requires QuantumEnds(cfg, After(cfg, a).state, j) && Waits(After(cfg, a + 1), q, j)
    requires Ran(After(cfg, b), After(cfg, b + 1), j)
    requires forall m :: a < m <= b ==> Waits(After(cfg, m), q, x)
    ensures exists m :: a < m < b && Ran(After(cfg, m), After(cfg, m + 1), x)
  {
    hide Turn, QueuesOk, EventsOk, JobsOk, Ahead, Runs, QuantumEnds;
    var before := RunKeepsInv(cfg, a);
    var place := RunKeepsInv(cfg, b);
    var s, s' := After(cfg, a).state, After(cfg, b).state;
    assert Waits(After(cfg, a + 1), q, x);
    assert After(cfg, a + 1) == Turn(cfg, s) && After(cfg, b + 1) == Turn(cfg, s');
    QuantumEndsLast(cfg, s, before, j, q, x);
    if forall m :: a < m < b ==> !Ran(After(cfg, m), After(cfg, m + 1), x) {
      StaysAhead(cfg, a + 1, b, q, x, j);
      NotBehind(cfg, s', place, q, x, j);
      RunsIff(cfg, s', place, j);
      assert false;
    }
  }

  // ----- the times reported -----

  lemma ReadyKeepsRecords(cfg: Config, s: State, place: seq<Place>)
    requires Inv(cfg, s, place, s.currTime)
    ensures var r := Ready(cfg, s);
            && |r.job| == |s.job| && r.currTime == s.currTime
            && (forall j :: 0 <= j < |s.job| ==>
                  r.job[j].firstRun == s.job[j].firstRun && r.job[j].endTime == s.job[j].endTime
                  && r.job[j].allotLeft == s.job[j].allotLeft)
            && (!BoostDue(cfg, s.currTime) ==>
                  forall j :: 0 <= j < |s.job| ==> r.job[j].ticksLeft == s.job[j].ticksLeft)
            && (BoostDue(cfg, s.currTime) ==>
                  forall j :: 0 <= j < |s.job| && s.job[j].timeLeft > 0 ==>
                    r.job[j].ticksLeft == cfg.allotment[cfg.HiQueue()])
  {
    hide QueuesOk, EventsOk, JobsOk, Deliver, Collected;
    var b := if BoostDue(cfg, s.currTime) then Boost(cfg, s) else s;
    if BoostDue(cfg, s.currTime) {
      BoostKeepsInv(cfg, s, place);
    }
    var _ := DeliverKeepsInv(cfg, b, place);
  }

  lemma TurnRecords(cfg: Config, s: State, place: seq<Place>, j: nat)
    requires Inv(cfg, s, place, s.currTime) && j < |s.job|
    ensures Turn(cfg, s).Next? && |Turn(cfg, s).state.job| == |s.job|
    ensures Turn(cfg, s).state.currTime == s.currTime + 1
    ensures var job, job' := s.job[j], Turn(cfg, s).state.job[j];
            && job'.firstRun == (if Runs(cfg, s, j) && job.firstRun == -1 then s.currTime else job.firstRun)
            && job'.endTime == (if Runs(cfg, s, j) && job'.timeLeft == 0 then s.currTime + 1 else job.endTime)
  {
    hide Ready, Turn, EventsOk, JobsOk, QueuesOk, Idle, Highest, IssuesIO, TickedQueues, AddEvent;
    var r, place', q := TurnParts(cfg, s, place);
    ReadyKeepsRecords(cfg, s, place);
    if q != -1 && r.queue[q][0] != j {
      assert !Runs(cfg, s, j);
    }
  }

  /** Until all jobs are finished, the time is the number of turns. */
  lemma {:induction false} TimeIs(cfg: Config, n: nat)
    requires cfg.Valid()
    ensures After(cfg, n).Next?
    ensures After(cfg, n).state.finished < |cfg.jobs| ==> After(cfg, n).state.currTime == n
  {
    hide Turn, QueuesOk, EventsOk, JobsOk;
    var place := RunKeepsInv(cfg, n);
    if n > 0 {
      TimeIs(cfg, n - 1);
      var before := RunKeepsInv(cfg, n - 1);
      var s := After(cfg, n - 1).state;
      if s.finished < |cfg.jobs| {
        var _ := TurnKeepsInv(cfg, s, before);
      }
    }
  }

  /** k is the first turn that job j gets. */
  ghost predicate FirstTurn(cfg: Config, j: nat, k: int)
    requires cfg.Valid()
  {
    && k >= 0 && Ran(After(cfg, k), After(cfg, k + 1), j)
    && forall i :: 0 <= i < k ==> !Ran(After(cfg, i), After(cfg, i + 1), j)
  }

  /** Job j has run its last unit in the turn that ends at time k. */
  ghost predicate FinishedAt(cfg: Config, j: nat, k: int)
    requires cfg.Valid()
  {
    k >= 1 && Ran(After(cfg, k - 1), After(cfg, k), j) && After(cfg, k).state.job[j].timeLeft == 0
  }

  /** The times reported are those of the run: firstRun is the start of the first turn that the job gets, or -1 while it
  has none, and endTime is the end of the turn with its last unit. */
  lemma {:induction false} TimesReported(cfg: Config, n: nat, j: nat)
    requires cfg.Valid() && j < |cfg.jobs|
    ensures After(cfg, n).Next? && |After(cfg, n).state.job| == |cfg.jobs|
    ensures var job := After(cfg, n).state.job[j];
            && (if job.firstRun == -1 then forall i :: 0 <= i < n ==> !Ran(After(cfg, i), After(cfg, i + 1), j)
                else job.firstRun < n && FirstTurn(cfg, j, job.firstRun))
            && (job.timeLeft == 0 ==> job.endTime <= n && FinishedAt(cfg, j, job.endTime))
  {
    hide Turn, QueuesOk, EventsOk, JobsOk, Runs;
    var place := RunKeepsInv(cfg, n);
    if n > 0 {
      TimesReported(cfg, n - 1, j);
      var before := RunKeepsInv(cfg, n - 1);
      var s := After(cfg, n - 1).state;
      if s.finished < |cfg.jobs| {
        assert After(cfg, n) == Turn(cfg, s);
        TurnRecords(cfg, s, before, j);
        RunsIff(cfg, s, before, j);
        TimeIs(cfg, n - 1);
        assert Ran(After(cfg, n - 1), After(cfg, n), j) <==> Runs(cfg, s, j);
        JobGot(cfg, n - 1, j);
        JobGot(cfg, n, j);
      }
    }
  }

  // ----- I/Os in time -----

  /** The running time since the job's last I/O. */
  function SinceIO(spec: JobSpec, job: Job): int
    requires spec.ioFreq > 0
  {
    (spec.runTime - job.timeLeft) % spec.ioFreq
  }

  /** At the highest priority, with the quantum less what has run since the last I/O. */
  predicate AtTop(cfg: Config, spec: JobSpec, job: Job)
    requires cfg.Valid() && spec.ioFreq > 0
  {
    job.currPri == cfg.HiQueue() && job.ticksLeft == cfg.quantum[cfg.HiQueue()] - SinceIO(spec, job)
  }

  lemma OneMore(x: int, f: int)
    requires x >= 0 && f > 0
    ensures (x + 1) % f == if x % f == f - 1 then 0 else x % f + 1
  {
    var k, r := x / f, x % f;
    assert x == k * f + r;
    if r == f - 1 {
      assert (k + 1) * f == k * f + f;
      DivModUnique(x + 1, k + 1, 0, f);
    } else {
      DivModUnique(x + 1, k, r + 1, f);
    }
  }

  lemma TickAtTop(cfg: Config, s: State, q: nat)
    requires Runnable(cfg, s, q) && cfg.stay
    requires var j := s.queue[q][0];
             var spec, job := cfg.jobs[j], s.job[j];
             && 0 < spec.ioFreq < cfg.quantum[cfg.HiQueue()] && 0 < job.timeLeft <= spec.runTime
             && AtTop(cfg, spec, job)
    ensures var j := s.queue[q][0];
            var job' := Tick(cfg, s, q).job[j];
            AtTop(cfg, cfg.jobs[j], job') || job'.timeLeft == 0
  {
    hide TickedQueues, AddEvent;
    var j := s.queue[q][0];
    OneMore(cfg.jobs[j].runTime - s.job[j].timeLeft, cfg.jobs[j].ioFreq);
  }

  /** With the -S option and no boost, a job that issues its I/Os before its quantum is used up never falls. */
  lemma {:induction false} NeverFalls(cfg: Config, n: nat, j: nat)
    requires cfg.Valid() && j < |cfg.jobs| && cfg.stay && cfg.boost <= 0
    requires 0 < cfg.jobs[j].ioFreq < cfg.quantum[cfg.HiQueue()]
    ensures After(cfg, n).Next? && |After(cfg, n).state.job| == |cfg.jobs|
    ensures var job := After(cfg, n).state.job[j]; job.timeLeft > 0 ==> AtTop(cfg, cfg.jobs[j], job)
  {
    hide Turn, QueuesOk, EventsOk, JobsOk, AtTop;
    var place := RunKeepsInv(cfg, n);
    JobGot(cfg, n, j);
    if n == 0 {
      FirstAtTop(cfg, j);
    } else {
      NeverFalls(cfg, n - 1, j);
      JobGot(cfg, n - 1, j);
      var before := RunKeepsInv(cfg, n - 1);
      var s := After(cfg, n - 1).state;
      if s.finished < |cfg.jobs| {
        assert After(cfg, n) == Turn(cfg, s);
        TurnAtTop(cfg, s, before, j);
      }
    }
  }

  lemma FirstAtTop(cfg: Config, j: nat)
    requires cfg.Valid() && j < |cfg.jobs| && cfg.jobs[j].ioFreq > 0
    ensures AtTop(cfg, cfg.jobs[j], Initial(cfg).job[j])
  {
    assert 0 % cfg.jobs[j].ioFreq == 0;
  }

  lemma TurnAtTop(cfg: Config, s: State, place: seq<Place>, j: nat)
    requires Inv(cfg, s, place, s.currTime) && j < |s.job| && cfg.stay && cfg.boost <= 0
    requires 0 < cfg.jobs[j].ioFreq < cfg.quantum[cfg.HiQueue()] && 0 <= s.job[j].timeLeft <= cfg.jobs[j].runTime
    requires s.job[j].timeLeft > 0 ==> AtTop(cfg, cfg.jobs[j], s.job[j])
    ensures Turn(cfg, s).Next? && |Turn(cfg, s).state.job| == |s.job|
    ensures var job := Turn(cfg, s).state.job[j]; job.timeLeft > 0 ==> AtTop(cfg, cfg.jobs[j], job)
  {
    hide Ready, Turn, EventsOk, JobsOk, QueuesOk, Idle, Highest, Tick;
    var r, place', q := TurnParts(cfg, s, place);
    ReadyKeepsRecords(cfg, s, place);
    ReadyKeepsTimes(cfg, s, place);
    if q != -1 && r.queue[q][0] == j {
      QueueOf(cfg, r, place', r.currTime + 1, q, j);
      TickAtTop(cfg, r, q);
    }
  }

  // ----- no I/O renews an allotment -----

  /** The running time that a job may spend at priority p. */
  function Grant(cfg: Config, p: nat): int
    requires cfg.Valid() && p < cfg.numQueues
  {
    cfg.allotment[p] * cfg.quantum[p]
  }

  /** What a job may spend above priority p. */
  function Above(cfg: Config, p: nat): int
    requires cfg.Valid() && p < cfg.numQueues
    decreases cfg.numQueues - p
  {
    if p == cfg.HiQueue() then 0 else Above(cfg, p + 1) + Grant(cfg, p + 1)
  }

  /** Down to its priority the job has run for exactly what it may spend above, and what it has used of its budget. */
  predicate Accounted(cfg: Config, spec: JobSpec, job: Job)
    requires cfg.Valid()
  {
    0 < job.currPri < cfg.numQueues ==>
      spec.runTime - job.timeLeft == Above(cfg, job.currPri) + Grant(cfg, job.currPri) - Budget(cfg, job)
  }

  lemma FreshBudget(cfg: Config, job: Job)
    requires cfg.Valid() && 0 <= job.currPri < cfg.numQueues && Fresh(cfg, job)
    ensures Budget(cfg, job) == Grant(cfg, job.currPri)
  {
    var a, w := job.allotLeft, cfg.quantum[job.currPri];
    assert (a - 1) * w == a * w - w;
  }

  lemma TickAccounted(cfg: Config, s: State, q: nat)
    requires Runnable(cfg, s, q) && Positive(cfg) && !cfg.stay
    requires var job := s.job[s.queue[q][0]];
             && job.timeLeft > 1 && job.ticksLeft >= 1 && job.allotLeft >= 1
             && Accounted(cfg, cfg.jobs[s.queue[q][0]], job)
    ensures var j := s.queue[q][0]; Accounted(cfg, cfg.jobs[j], Tick(cfg, s, q).job[j])
  {
    TickSpendsBudget(cfg, s, q);
    var j := s.queue[q][0];
    assert Tick(cfg, s, q).job[j].timeLeft == s.job[j].timeLeft - 1;
    hide Tick, Grant, Budget, IssuesIO;
    if Budget(cfg, s.job[j]) == 1 {
      FreshBudget(cfg, Tick(cfg, s, q).job[j]);
    }
  }

  lemma TurnAccounted(cfg: Config, s: State, place: seq<Place>, j: nat)
    requires Inv(cfg, s, place, s.currTime) && j < |s.job| && Positive(cfg) && !cfg.stay && cfg.boost <= 0
    requires s.job[j].timeLeft > 0 && s.job[j].ticksLeft >= 1 && s.job[j].allotLeft >= 1
    requires Accounted(cfg, cfg.jobs[j], s.job[j])
    ensures Turn(cfg, s).Next? && |Turn(cfg, s).state.job| == |s.job|
    ensures var job := Turn(cfg, s).state.job[j]; job.timeLeft > 0 ==> Accounted(cfg, cfg.jobs[j], job)
  {
    hide Ready, Turn, EventsOk, JobsOk, QueuesOk, Idle, Highest, Tick, Above, Grant;
    var r, place', q := TurnParts(cfg, s, place);
    ReadyKeepsRecords(cfg, s, place);
    ReadyKeepsTimes(cfg, s, place);
    if q != -1 && r.queue[q][0] == j && r.job[j].timeLeft > 1 {
      TickAccounted(cfg, r, q);
    }
  }

  /** Without the -S option and without boosts, a job gets exactly its allotment at each priority before it goes down,
  however it divides its running time by I/Os. */
  lemma {:induction false} AllotmentsSpent(cfg: Config, n: nat, j: nat)
    requires cfg.Valid() && Positive(cfg) && j < |cfg.jobs| && !cfg.stay && cfg.boost <= 0
    ensures After(cfg, n).Next? && |After(cfg, n).state.job| == |cfg.jobs|
    ensures var job := After(cfg, n).state.job[j]; job.timeLeft > 0 ==> Accounted(cfg, cfg.jobs[j], job)
  {
    hide Turn, QueuesOk, EventsOk, JobsOk, Accounted;
    var place := RunKeepsInv(cfg, n);
    if n == 0 {
      StartsAccounted(cfg, j);
    } else {
      AllotmentsSpent(cfg, n - 1, j);
      RunKeepsLeft(cfg, n - 1, j);
      JobGot(cfg, n - 1, j);
      JobGot(cfg, n, j);
      var before := RunKeepsInv(cfg, n - 1);
      var s := After(cfg, n - 1).state;
      if s.finished < |cfg.jobs| && s.job[j].timeLeft > 0 {
        assert After(cfg, n) == Turn(cfg, s);
        TurnAccounted(cfg, s, before, j);
      } else if s.finished < |cfg.jobs| {
        TurnOfJob(cfg, s, before, j);
      }
    }
  }

  lemma StartsAccounted(cfg: Config, j: nat)
    requires cfg.Valid() && j < |cfg.jobs|
    ensures Accounted(cfg, cfg.jobs[j], Initial(cfg).job[j])
  {
    FreshBudget(cfg, Initial(cfg).job[j]);
  }

  // ----- when things are due -----

  function Times(k: int, b: int): int {
    k * b
  }

  /** A boost comes at every positive multiple of its interval, and at no other time. */
  lemma BoostDueIff(cfg: Config, t: int)
    requires t >= 0
    ensures BoostDue(cfg, t) <==> cfg.boost > 0 && exists k :: k >= 1 && t == Times(k, cfg.boost)
  {
    var b := cfg.boost;
    if BoostDue(cfg, t) {
      var k := t / b;
      assert t == k * b + t % b == Times(k, b);
    }
    if b > 0 && exists k :: k >= 1 && t == Times(k, b) {
      var k :| k >= 1 && t == Times(k, b);
      MulAtLeast(k, b);
      DivModUnique(t, k, 0, b);
    }
  }

  /** A job is announced for its start time. */
  lemma JobsBegin(cfg: Config, j: nat)
    requires cfg.Valid() && j < |cfg.jobs|
    ensures var s, t := Initial(cfg), cfg.jobs[j].startTime;
            s.currTime == 0 && exists i :: EventAt(s, j, t, i) && s.ioDone[t][i].begins
  {
    InitialInv(cfg);
    var s, t := Initial(cfg), cfg.jobs[j].startTime;
    assert HasEvent(s.ioDone[t], j);
    var i :| 0 <= i < |s.ioDone[t]| && s.ioDone[t][i].job == j;
    assert EventAt(s, j, t, i);
  }

  lemma TickAddsEvent(cfg: Config, s: State, q: nat)
    requires Runnable(cfg, s, q)
    ensures var j, s' := s.queue[q][0], Tick(cfg, s, q);
            && s'.currTime == s.currTime + 1 && |s'.job| == |s.job|
            && (s'.job[j].timeLeft != 0 && IssuesIO(cfg.jobs[j], s'.job[j].timeLeft) ==>
                  s'.ioDone == AddEvent(s.ioDone, s'.currTime + cfg.ioTime, Event(j, false)))
  {
    hide IssuesIO, TickedQueues, AddEvent;
  }

  lemma AddedIsThere(ioDone: map<int, seq<Event>>, t: int, e: Event) returns (i: nat)
    ensures t in AddEvent(ioDone, t, e) && i < |AddEvent(ioDone, t, e)[t]| && AddEvent(ioDone, t, e)[t][i] == e
  {
    i := if t in ioDone then |ioDone[t]| else 0;
  }

  /** A job that issues an I/O is due back exactly ioTime after the tick. */
  lemma IoTakes(cfg: Config, s: State, place: seq<Place>, q: nat)
    requires Inv(cfg, s, place, s.currTime + 1) && q < |s.queue| && |s.queue[q]| > 0
    ensures Runnable(cfg, s, q)
    ensures var j, s' := s.queue[q][0], Tick(cfg, s, q);
            var t := s'.currTime + cfg.ioTime;
            && s'.currTime == s.currTime + 1 && j < |s'.job|
            && (s'.job[j].doingIO ==> exists i :: EventAt(s', j, t, i) && !s'.ioDone[t][i].begins)
  {
    TickIssues(cfg, s, place, q);
    hide QueuesOk, EventsOk, JobsOk, IssuesIO, Tick, AddEvent;
    TickAddsEvent(cfg, s, q);
    var j, s' := s.queue[q][0], Tick(cfg, s, q);
    var t := s'.currTime + cfg.ioTime;
    if s'.job[j].doingIO {
      var i := AddedIsThere(s.ioDone, t, Event(j, false));
      assert EventAt(s', j, t, i) && !s'.ioDone[t][i].begins;
    }
  }
}
