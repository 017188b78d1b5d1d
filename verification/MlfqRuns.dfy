/** Whole runs of the multi-level feedback queue: no abort, termination, and what each job got. */
module MlfqRuns {
  import opened Mlfq
  import opened MlfqTheorems

  // ----- the start -----

  /** The places while the first k jobs have been announced. */
  function Announced(jobs: seq<JobSpec>, k: nat): seq<Place> {
    seq(|jobs|, j requires 0 <= j < |jobs| => if j < k then Pending(jobs[j].startTime) else Queued)
  }

  lemma {:induction false} BeginEventsOk(cfg: Config, k: nat)
    requires cfg.Valid() && k <= |cfg.jobs|
    ensures EventsOk(BeginEvents(cfg.jobs, k), Initial(cfg).job, Announced(cfg.jobs, k), 0)
  {
    if k > 0 {
      BeginEventsOk(cfg, k - 1);
      var job := Initial(cfg).job;
      hide EventsOk, AddEvent;
      EventsAdded(BeginEvents(cfg.jobs, k - 1), Event(k - 1, true), cfg.jobs[k - 1].startTime,
                  job, Announced(cfg.jobs, k - 1), job, Announced(cfg.jobs, k), 0);
    }
  }

  lemma {:induction false} NoneDone(job: seq<Job>)
    requires forall j :: 0 <= j < |job| ==> job[j].timeLeft != 0
    ensures CountDone(job) == 0
  {
    if job != [] {
      NoneDone(job[..|job| - 1]);
    }
  }

  lemma InitialJobOk(cfg: Config, spec: JobSpec)
    requires cfg.Valid() && spec.runTime >= 1
    ensures JobOk(cfg, spec, InitialJob(cfg, spec), Pending(spec.startTime), 0)
  {
    if spec.ioFreq > 0 {
      assert 0 / spec.ioFreq == 0;
    }
  }

  /** Before the first turn every job is waiting for its start. */
  lemma InitialInv(cfg: Config)
    requires cfg.Valid()
    ensures Inv(cfg, Initial(cfg), Announced(cfg.jobs, |cfg.jobs|), 0)
  {
    var s := Initial(cfg);
    BeginEventsOk(cfg, |cfg.jobs|);
    NoneDone(s.job);
    hide EventsOk;
    forall j | 0 <= j < |s.job|
      ensures JobOk(cfg, cfg.jobs[j], s.job[j], Announced(cfg.jobs, |cfg.jobs|)[j], 0)
    {
      InitialJobOk(cfg, cfg.jobs[j]);
    }
  }

  // ----- runs -----

  /** The run after n turns of the loop; it stays where it is once every job is finished. */
  function After(cfg: Config, n: nat): Turned
    requires cfg.Valid()
  {
    if n == 0 then Next(Initial(cfg))
    else
      var p := After(cfg, n - 1);
      if p.Next? && |p.state.queue| == cfg.numQueues && p.state.finished < |cfg.jobs| then Turn(cfg, p.state) else p
  }

  /** The invariant holds after every number of turns. */
  lemma {:induction false} RunKeepsInv(cfg: Config, n: nat) returns (place: seq<Place>)
    requires cfg.Valid()
    ensures After(cfg, n).Next? && Inv(cfg, After(cfg, n).state, place, After(cfg, n).state.currTime)
  {
    if n == 0 {
      InitialInv(cfg);
      place := Announced(cfg.jobs, |cfg.jobs|);
    } else {
      place := RunKeepsInv(cfg, n - 1);
      var s := After(cfg, n - 1).state;
      if s.finished < |cfg.jobs| {
        place := TurnKeepsInv(cfg, s, place);
      }
    }
  }

  // ----- one place -----

  predicate InQueueAt(s: State, j: nat, q: int, i: int) {
    0 <= q < |s.queue| && 0 <= i < |s.queue[q]| && s.queue[q][i] == j
  }

  ghost predicate InNoQueue(s: State, j: nat) {
    forall q, i :: !InQueueAt(s, j, q, i)
  }

  /** Once in the queues, and in the queue of its priority. */
  ghost predicate WaitsOnce(s: State, j: nat)
    requires j < |s.job|
  {
    exists i :: InQueueAt(s, j, s.job[j].currPri, i)
      && forall q, k :: InQueueAt(s, j, q, k) ==> q == s.job[j].currPri && k == i
  }

  predicate EventAt(s: State, j: nat, t: int, i: int) {
    t >= s.currTime && t in s.ioDone && 0 <= i < |s.ioDone[t]| && s.ioDone[t][i].job == j
  }

  ghost predicate NoEvent(s: State, j: nat) {
    forall t, i :: !EventAt(s, j, t, i)
  }

  /** One event is to come for the job. */
  ghost predicate EventOnce(s: State, j: nat) {
    exists t, i :: EventAt(s, j, t, i) && forall u, k :: EventAt(s, j, u, k) ==> u == t && k == i
  }

  lemma WaitsOnceIf(cfg: Config, s: State, place: seq<Place>, j: nat)
    requires Inv(cfg, s, place, s.currTime) && j < |s.job|
    ensures if place[j] == Queued then WaitsOnce(s, j) else InNoQueue(s, j)
  {
    hide EventsOk, JobsOk;
    if place[j] == Queued {
      var q := s.job[j].currPri;
      assert j in s.queue[q];
      var i :| 0 <= i < |s.queue[q]| && s.queue[q][i] == j;
      assert InQueueAt(s, j, q, i);
      forall p, k | InQueueAt(s, j, p, k)
        ensures p == q && k == i
      {
        assert s.job[s.queue[p][k]].currPri == p;
      }
    }
  }

  lemma EventOnceIf(cfg: Config, s: State, place: seq<Place>, j: nat)
    requires Inv(cfg, s, place, s.currTime) && j < |s.job|
    ensures if place[j].Pending? then EventOnce(s, j) else NoEvent(s, j)
  {
    hide QueuesOk, JobsOk;
    if place[j].Pending? {
      var t := place[j].time;
      assert HasEvent(s.ioDone[t], j);
      var i :| 0 <= i < |s.ioDone[t]| && s.ioDone[t][i].job == j;
      assert EventAt(s, j, t, i);
    }
  }

  /** In every run a finished job is nowhere, and any other job is in exactly one place: once in the queue of its
  priority, or waiting for exactly one event. */
  lemma InOnePlace(cfg: Config, n: nat, j: nat)
    requires cfg.Valid() && j < |cfg.jobs|
    ensures After(cfg, n).Next? && |After(cfg, n).state.job| == |cfg.jobs|
    ensures var s := After(cfg, n).state;
            if s.job[j].timeLeft == 0 then InNoQueue(s, j) && NoEvent(s, j)
            else (WaitsOnce(s, j) && NoEvent(s, j) && !s.job[j].doingIO) || (InNoQueue(s, j) && EventOnce(s, j))
  {
    hide InNoQueue, NoEvent, WaitsOnce, EventOnce, After, QueuesOk, EventsOk;
    var place := RunKeepsInv(cfg, n);
    var s := After(cfg, n).state;
    assert JobOk(cfg, cfg.jobs[j], s.job[j], place[j], s.currTime);
    WaitsOnceIf(cfg, s, place, j);
    EventOnceIf(cfg, s, place, j);
  }

  // ----- who runs -----

  predicate Idle(s: State) {
    forall q :: 0 <= q < |s.queue| ==> s.queue[q] == []
  }

  /** From s to s' job j, and no other, runs for one unit of time. */
  predicate OnlyRuns(s: State, s': State, j: nat) {
    && |s.job| == |s'.job| && j < |s.job|
    && s'.job[j].timeLeft == s.job[j].timeLeft - 1
    && forall m :: 0 <= m < |s.job| && m != j ==> s'.job[m] == s.job[m]
  }

  /** No job waiting in a queue has a higher priority than j. */
  ghost predicate Highest(s: State, j: nat) {
    j < |s.job| && forall q, i :: 0 <= q < |s.queue| && 0 <= i < |s.queue[q]| ==>
      s.queue[q][i] < |s.job| && s.job[s.queue[q][i]].currPri <= s.job[j].currPri
  }

  predicate WaitsFirst(s: State, j: nat) {
    && j < |s.job| && 0 <= s.job[j].currPri < |s.queue|
    && |s.queue[s.job[j].currPri]| > 0 && s.queue[s.job[j].currPri][0] == j
  }

  /** The job at the front of the highest non-empty queue, and no other, runs, and its priority does not rise. */
  ghost predicate RunsHighest(s: State, s': State) {
    exists j: nat :: OnlyRuns(s, s', j) && Highest(s, j) && WaitsFirst(s, j) && s'.job[j].currPri <= s.job[j].currPri
  }

  /** A turn is idle exactly when no job waits; otherwise the first job of the highest priority runs. */
  lemma TurnRunsHighest(cfg: Config, s: State, place: seq<Place>)
    requires Inv(cfg, s, place, s.currTime)
    ensures Turn(cfg, s).Next?
    ensures var r, s' := Ready(cfg, s), Turn(cfg, s).state;
            if Idle(r) then s'.job == r.job else RunsHighest(r, s')
  {
    hide Ready, EventsOk, IssuesIO, TickedQueues, AddEvent, CountDone;
    var place' := ReadyInv(cfg, s, place);
    var r, s' := Ready(cfg, s), Turn(cfg, s).state;
    var q := FindQueue(r.queue, |r.queue|);
    if q >= 0 {
      FrontRuns(cfg, r, place', q);
      var j := r.queue[q][0];
      assert Turn(cfg, s) == Next(Tick(cfg, r, q));
      assert s'.job == r.job[j := s'.job[j]];
      assert OnlyRuns(r, s', j) && WaitsFirst(r, j);
      assert Highest(r, j);
    }
  }

  /** Delivering events changes no priority and no running time, and a boost changes no running time. */
  lemma ReadyKeepsTimes(cfg: Config, s: State, place: seq<Place>)
    requires Inv(cfg, s, place, s.currTime)
    ensures |Ready(cfg, s).job| == |s.job|
    ensures forall j :: 0 <= j < |s.job| ==> Ready(cfg, s).job[j].timeLeft == s.job[j].timeLeft
    ensures !BoostDue(cfg, s.currTime) ==>
              forall j :: 0 <= j < |s.job| ==> Ready(cfg, s).job[j].currPri == s.job[j].currPri
    ensures BoostDue(cfg, s.currTime) ==>
              forall j :: 0 <= j < |s.job| && s.job[j].timeLeft > 0 ==> Ready(cfg, s).job[j].currPri == cfg.HiQueue()
  {
    hide QueuesOk, EventsOk, JobsOk, Deliver, Collected;
    var b := if BoostDue(cfg, s.currTime) then Boost(cfg, s) else s;
    if BoostDue(cfg, s.currTime) {
      BoostKeepsInv(cfg, s, place);
    }
    var _ := DeliverKeepsInv(cfg, b, place);
  }

  /** A job's priority rises only at a boost. */
  lemma PriorityFalls(cfg: Config, s: State, place: seq<Place>, j: nat)
    requires Inv(cfg, s, place, s.currTime) && j < |s.job| && !BoostDue(cfg, s.currTime)
    ensures Turn(cfg, s).Next? && |Turn(cfg, s).state.job| == |s.job|
    ensures Turn(cfg, s).state.job[j].currPri <= s.job[j].currPri
  {
    hide Ready, Turn, JobsOk, QueuesOk, EventsOk, Highest, WaitsFirst, Idle;
    TurnRunsHighest(cfg, s, place);
    ReadyKeepsTimes(cfg, s, place);
  }

  // ----- what each job got -----

  /** Between the two turns job j ran. */
  predicate Ran(p: Turned, p': Turned, j: nat) {
    && p.Next? && p'.Next? && j < |p.state.job| && j < |p'.state.job|
    && p'.state.job[j].timeLeft < p.state.job[j].timeLeft
  }

  /** The turns, of the first n, in which job j ran. */
  function TicksGiven(cfg: Config, n: nat, j: nat): nat
    requires cfg.Valid()
  {
    if n == 0 then 0 else TicksGiven(cfg, n - 1, j) + if Ran(After(cfg, n - 1), After(cfg, n), j) then 1 else 0
  }

  /** The turns, of the first n, that job j ended by issuing an I/O. */
  function IosIssued(cfg: Config, n: nat, j: nat): nat
    requires cfg.Valid()
  {
    if n == 0 then 0
    else
      IosIssued(cfg, n - 1, j)
      + if Ran(After(cfg, n - 1), After(cfg, n), j) && After(cfg, n).state.job[j].doingIO then 1 else 0
  }

  lemma TickIssues(cfg: Config, r: State, place: seq<Place>, q: nat)
    requires Inv(cfg, r, place, r.currTime + 1) && q < |r.queue| && |r.queue[q]| > 0
    ensures Runnable(cfg, r, q)
    ensures var j := r.queue[q][0];
            var r' := Tick(cfg, r, q);
            && OnlyRuns(r, r', j) && r'.job[j].timeLeft >= 0
            && (r'.job[j].doingIO <==> r'.job[j].timeLeft > 0 && IssuesIO(cfg.jobs[j], r'.job[j].timeLeft))
  {
    hide QueuesOk, EventsOk, IssuesIO, TickedQueues, AddEvent, CountDone;
    FrontRuns(cfg, r, place, q);
    var j := r.queue[q][0];
    assert JobOk(cfg, cfg.jobs[j], r.job[j], Queued, r.currTime);
    assert Tick(cfg, r, q).job == r.job[j := Tick(cfg, r, q).job[j]];
  }

  /** A turn either leaves a job's time alone or takes one unit, and then an I/O is issued exactly when it is due. */
  lemma TurnOfJob(cfg: Config, s: State, place: seq<Place>, j: nat)
    requires Inv(cfg, s, place, s.currTime) && j < |s.job|
    ensures Turn(cfg, s).Next? && |Turn(cfg, s).state.job| == |s.job|
    ensures var left := Turn(cfg, s).state.job[j].timeLeft;
            || left == s.job[j].timeLeft
            || (0 <= left == s.job[j].timeLeft - 1
                && (Turn(cfg, s).state.job[j].doingIO <==> left > 0 && IssuesIO(cfg.jobs[j], left)))
  {
    hide Ready, JobsOk, QueuesOk, EventsOk, IssuesIO, Tick;
    var place' := ReadyInv(cfg, s, place);
    ReadyKeepsTimes(cfg, s, place);
    var r := Ready(cfg, s);
    var q := FindQueue(r.queue, |r.queue|);
    if q >= 0 {
      TickIssues(cfg, r, place', q);
    }
  }

  /** A job has run for exactly the time it no longer has left, and has issued exactly the I/Os due by then. */
  lemma {:induction false} JobGot(cfg: Config, n: nat, j: nat)
    requires cfg.Valid() && j < |cfg.jobs|
    ensures After(cfg, n).Next? && |After(cfg, n).state.job| == |cfg.jobs|
    ensures var left := After(cfg, n).state.job[j].timeLeft;
            && 0 <= left
            && TicksGiven(cfg, n, j) == cfg.jobs[j].runTime - left
            && IosIssued(cfg, n, j) == IosDue(cfg.jobs[j], left)
  {
    hide Turn, QueuesOk, EventsOk, IssuesIO, CountDone, Clock;
    var place := RunKeepsInv(cfg, n);
    assert JobOk(cfg, cfg.jobs[j], After(cfg, n).state.job[j], place[j], After(cfg, n).state.currTime);
    hide JobOk, JobsOk;
    if n == 0 {
      InitialJobOk(cfg, cfg.jobs[j]);
      NoIosYet(cfg.jobs[j]);
    } else {
      JobGot(cfg, n - 1, j);
      var before := RunKeepsInv(cfg, n - 1);
      var s := After(cfg, n - 1).state;
      if s.finished < |cfg.jobs| {
        TurnOfJob(cfg, s, before, j);
        var left := After(cfg, n).state.job[j].timeLeft;
        if left < s.job[j].timeLeft {
          IosAfterTick(cfg.jobs[j], left);
        }
      }
    }
  }

  lemma NoIosYet(spec: JobSpec)
    requires spec.runTime >= 1
    ensures IosDue(spec, spec.runTime) == 0
  {
    if spec.ioFreq > 0 {
      assert 0 / spec.ioFreq == 0;
    }
  }

  /** When the loop ends, every job has run for exactly its running time, has issued one I/O per ioFreq units before
  its last, and took at least its running time and its I/O time. */
  lemma FinishedRun(cfg: Config, n: nat, j: nat)
    requires cfg.Valid() && j < |cfg.jobs|
    requires After(cfg, n).Next? && After(cfg, n).state.finished >= |cfg.jobs|
    ensures |After(cfg, n).state.job| == |cfg.jobs| && After(cfg, n).state.job[j].timeLeft == 0
    ensures TicksGiven(cfg, n, j) == cfg.jobs[j].runTime
    ensures IosIssued(cfg, n, j) == if cfg.jobs[j].ioFreq > 0 then (cfg.jobs[j].runTime - 1) / cfg.jobs[j].ioFreq else 0
    ensures After(cfg, n).state.job[j].endTime - cfg.jobs[j].startTime >=
            cfg.jobs[j].runTime + cfg.ioTime * IosIssued(cfg, n, j)
  {
    hide QueuesOk, EventsOk, After, TicksGiven, IosIssued;
    var place := RunKeepsInv(cfg, n);
    var s := After(cfg, n).state;
    AllDoneIff(s.job);
    JobGot(cfg, n, j);
    assert JobOk(cfg, cfg.jobs[j], s.job[j], place[j], s.currTime);
  }

  // ----- termination -----

  function TotalLeft(job: seq<Job>): int {
    if job == [] then 0 else TotalLeft(job[..|job| - 1]) + job[|job| - 1].timeLeft
  }

  lemma {:induction false} TotalSame(job: seq<Job>, job': seq<Job>)
    requires |job| == |job'| && forall j :: 0 <= j < |job| ==> job[j].timeLeft == job'[j].timeLeft
    ensures TotalLeft(job) == TotalLeft(job')
  {
    if job != [] {
      TotalSame(job[..|job| - 1], job'[..|job| - 1]);
    }
  }

  lemma {:induction false} TotalLess(job: seq<Job>, job': seq<Job>, j: nat)
    requires |job| == |job'| && j < |job| && job'[j].timeLeft == job[j].timeLeft - 1
    requires forall m :: 0 <= m < |job| && m != j ==> job'[m] == job[m]
    ensures TotalLeft(job') == TotalLeft(job) - 1
    decreases |job|
  {
    var last := |job| - 1;
    if j == last {
      assert job'[..last] == job[..last];
    } else {
      TotalLess(job[..last], job'[..last], j);
    }
  }

  lemma {:induction false} TotalNat(job: seq<Job>)
    requires forall j :: 0 <= j < |job| ==> job[j].timeLeft >= 0
    ensures TotalLeft(job) >= 0
  {
    if job != [] {
      TotalNat(job[..|job| - 1]);
    }
  }

  /** No event lies beyond the horizon. */
  ghost predicate Within(ioDone: map<int, seq<Event>>, horizon: int) {
    forall t :: t in ioDone ==> t <= horizon
  }

  function Horizon(cfg: Config, s: State, horizon: int): int {
    var next := s.currTime + cfg.ioTime + 1;
    if horizon < next then next else horizon
  }

  /** With a job unfinished and no job waiting, some event is still to come. */
  lemma SomethingToCome(cfg: Config, s: State, place: seq<Place>, horizon: int)
    requires Inv(cfg, s, place, s.currTime + 1) && s.finished < |cfg.jobs| && Idle(s) && Within(s.ioDone, horizon)
    ensures s.currTime < horizon
  {
    hide Clock, IosDue, CountDone, OneEventEach, OnlyPendingJobs, OnlyQueuedJobs;
    AllDoneIff(s.job);
    var j :| 0 <= j < |s.job| && s.job[j].timeLeft != 0;
    assert JobOk(cfg, cfg.jobs[j], s.job[j], place[j], s.currTime);
    if place[j] == Queued {
      assert false;
    }
  }

  /** A turn takes one unit of running time, or leaves running times and events alone and comes closer to the last
  event. */
  lemma TurnProgress(cfg: Config, s: State, place: seq<Place>, horizon: int)
    requires Inv(cfg, s, place, s.currTime) && s.finished < |cfg.jobs| && Within(s.ioDone, horizon)
    ensures Turn(cfg, s).Next?
    ensures var s' := Turn(cfg, s).state;
            if TotalLeft(s'.job) < TotalLeft(s.job) then Within(s'.ioDone, Horizon(cfg, s, horizon))
            else
              && TotalLeft(s'.job) == TotalLeft(s.job)
              && s'.ioDone == s.ioDone && s'.currTime == s.currTime + 1 <= horizon
  {
    hide Ready, QueuesOk, EventsOk, JobsOk, IssuesIO, TickedQueues, TickedJob, CountDone;
    var place' := ReadyInv(cfg, s, place);
    ReadyKeepsTimes(cfg, s, place);
    var r := Ready(cfg, s);
    TotalSame(s.job, r.job);
    var q := FindQueue(r.queue, |r.queue|);
    if q >= 0 {
      TickIssues(cfg, r, place', q);
      TotalLess(r.job, Tick(cfg, r, q).job, r.queue[q][0]);
    } else {
      ReadyFinished(cfg, s, place);
      SomethingToCome(cfg, r, place', horizon);
    }
  }

  lemma ReadyFinished(cfg: Config, s: State, place: seq<Place>)
    requires Inv(cfg, s, place, s.currTime)
    ensures Ready(cfg, s).finished == s.finished
  {
    hide QueuesOk, EventsOk, Ready;
    var place' := ReadyInv(cfg, s, place);
    ReadyKeepsTimes(cfg, s, place);
    CountSame(s.job, Ready(cfg, s).job);
  }

  /** From every state of a run the loop comes to an end. */
  lemma {:induction false} Ends(cfg: Config, n: nat, horizon: int) returns (m: nat)
    requires cfg.Valid() && After(cfg, n).Next? && Within(After(cfg, n).state.ioDone, horizon)
    ensures After(cfg, m).Next? && After(cfg, m).state.finished >= |cfg.jobs|
    decreases if After(cfg, n).Next? then TotalLeft(After(cfg, n).state.job) else 0,
              if After(cfg, n).Next? then horizon - After(cfg, n).state.currTime else 0
  {
    hide Turn, QueuesOk, EventsOk, Within, TotalLeft;
    var place := RunKeepsInv(cfg, n);
    var s := After(cfg, n).state;
    if s.finished >= |cfg.jobs| {
      m := n;
    } else {
      TurnProgress(cfg, s, place, horizon);
      var place' := RunKeepsInv(cfg, n + 1);
      var s' := After(cfg, n + 1).state;
      assert After(cfg, n + 1) == Turn(cfg, s);
      LeftNat(cfg, s', place');
      m := Ends(cfg, n + 1, if TotalLeft(s'.job) < TotalLeft(s.job) then Horizon(cfg, s, horizon) else horizon);
    }
  }

  lemma LeftNat(cfg: Config, s: State, place: seq<Place>)
    requires Inv(cfg, s, place, s.currTime)
    ensures TotalLeft(s.job) >= 0
  {
    hide QueuesOk, EventsOk, Clock, IosDue, CountDone;
    forall j | 0 <= j < |s.job|
      ensures s.job[j].timeLeft >= 0
    {
      assert JobOk(cfg, cfg.jobs[j], s.job[j], place[j], s.currTime);
    }
    TotalNat(s.job);
  }

  function LastStart(jobs: seq<JobSpec>): int {
    if jobs == [] then 0
    else
      var m := LastStart(jobs[..|jobs| - 1]);
      if m < jobs[|jobs| - 1].startTime then jobs[|jobs| - 1].startTime else m
  }

  lemma {:induction false} StartsWithin(jobs: seq<JobSpec>, k: nat)
    requires k <= |jobs|
    ensures Within(BeginEvents(jobs, k), LastStart(jobs[..k]))
  {
    if k > 0 {
      StartsWithin(jobs, k - 1);
      assert jobs[..k][..k - 1] == jobs[..k - 1];
    }
  }

  /** Every run ends, whatever the jobs, the quanta, the allotments and the boost. */
  lemma Terminates(cfg: Config) returns (n: nat)
    requires cfg.Valid()
    ensures After(cfg, n).Next? && After(cfg, n).state.finished == |cfg.jobs|
  {
    assert cfg.jobs[..|cfg.jobs|] == cfg.jobs;
    StartsWithin(cfg.jobs, |cfg.jobs|);
    assert After(cfg, 0) == Next(Initial(cfg));
    n := Ends(cfg, 0, LastStart(cfg.jobs));
    var place := RunKeepsInv(cfg, n);
    AllDoneIff(After(cfg, n).state.job);
  }

  // ----- the allotment -----

  predicate Positive(cfg: Config) {
    && |cfg.quantum| == cfg.numQueues == |cfg.allotment|
    && forall p :: 0 <= p < cfg.numQueues ==> cfg.quantum[p] >= 1 && cfg.allotment[p] >= 1
  }

  /** The running time a job may still spend at its priority. */
  function Budget(cfg: Config, job: Job): int
    requires cfg.Valid() && 0 <= job.currPri < cfg.numQueues
  {
    (job.allotLeft - 1) * cfg.quantum[job.currPri] + job.ticksLeft
  }

  predicate Fresh(cfg: Config, job: Job)
    requires cfg.Valid() && 0 <= job.currPri < cfg.numQueues
  {
    job.ticksLeft == cfg.quantum[job.currPri] && job.allotLeft == cfg.allotment[job.currPri]
  }

  /** Running for one unit of time, with or without an I/O at its end, costs one unit of the budget; the last unit
  moves the job one priority down, or to the same lowest one, with a whole new budget. Only with the -S option does
  an I/O renew the budget first. */
  lemma TickSpendsBudget(cfg: Config, s: State, q: nat)
    requires Runnable(cfg, s, q)
    requires Positive(cfg)
    requires var job := s.job[s.queue[q][0]]; job.timeLeft > 1 && job.ticksLeft >= 1 && job.allotLeft >= 1
    requires !cfg.stay || !IssuesIO(cfg.jobs[s.queue[q][0]], s.job[s.queue[q][0]].timeLeft - 1)
    ensures var job, job' := s.job[s.queue[q][0]], Tick(cfg, s, q).job[s.queue[q][0]];
            && job'.ticksLeft >= 1 && job'.allotLeft >= 1 && 0 <= job'.currPri
            && Budget(cfg, job) >= 1
            && if Budget(cfg, job) > 1 then job'.currPri == q && Budget(cfg, job') == Budget(cfg, job) - 1
               else job'.currPri == (if q > 0 then q - 1 else 0) && Fresh(cfg, job')
  {
    var job := s.job[s.queue[q][0]];
    var a, w := job.allotLeft, cfg.quantum[q];
    assert (a - 1) * w == (a - 2) * w + w;
    if a >= 2 {
      assert (a - 2) * w >= 0;
    }
  }

  lemma TickKeepsLeft(cfg: Config, s: State, q: nat)
    requires Runnable(cfg, s, q) && Positive(cfg)
    requires var job := s.job[s.queue[q][0]]; job.ticksLeft >= 1 && job.allotLeft >= 1
    ensures var job' := Tick(cfg, s, q).job[s.queue[q][0]];
            job'.timeLeft > 0 ==> job'.ticksLeft >= 1 && job'.allotLeft >= 1
  {
    hide IssuesIO, TickedQueues, AddEvent;
  }

  lemma TurnKeepsLeft(cfg: Config, s: State, place: seq<Place>, j: nat)
    requires Inv(cfg, s, place, s.currTime) && j < |s.job| && Positive(cfg)
    requires s.job[j].timeLeft > 0 && s.job[j].ticksLeft >= 1 && s.job[j].allotLeft >= 1
    ensures Turn(cfg, s).Next? && |Turn(cfg, s).state.job| == |s.job|
    ensures var job' := Turn(cfg, s).state.job[j]; job'.timeLeft > 0 ==> job'.ticksLeft >= 1 && job'.allotLeft >= 1
  {
    hide QueuesOk, EventsOk, JobsOk, Deliver, Collected, Tick;
    var b := if BoostDue(cfg, s.currTime) then Boost(cfg, s) else s;
    if BoostDue(cfg, s.currTime) {
      BoostKeepsInv(cfg, s, place);
    }
    var place' := DeliverKeepsInv(cfg, b, place);
    var r := Ready(cfg, s);
    hide Boost, Ready;
    var q := FindQueue(r.queue, |r.queue|);
    if q >= 0 {
      TickIssues(cfg, r, place', q);
      if r.queue[q][0] == j {
        TickKeepsLeft(cfg, r, q);
      }
    }
  }

  /** In every run an unfinished job has ticks and allotment left, as TickSpendsBudget needs. */
  lemma {:induction false} RunKeepsLeft(cfg: Config, n: nat, j: nat)
    requires cfg.Valid() && Positive(cfg) && j < |cfg.jobs|
    ensures After(cfg, n).Next? && |After(cfg, n).state.job| == |cfg.jobs|
    ensures var job := After(cfg, n).state.job[j]; job.timeLeft > 0 ==> job.ticksLeft >= 1 && job.allotLeft >= 1
  {
    hide Turn, QueuesOk, EventsOk, JobsOk;
    var place := RunKeepsInv(cfg, n);
    if n > 0 {
      RunKeepsLeft(cfg, n - 1, j);
      var before := RunKeepsInv(cfg, n - 1);
      var s := After(cfg, n - 1).state;
      if s.finished < |cfg.jobs| {
        TurnOfJob(cfg, s, before, j);
        if s.job[j].timeLeft > 0 {
          TurnKeepsLeft(cfg, s, before, j);
        } else {
          JobGot(cfg, n - 1, j);
          JobGot(cfg, n, j);
        }
      }
    }
  }
}
