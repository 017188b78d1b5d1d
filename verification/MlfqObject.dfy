/** The scheduler as the program keeps it: queues, jobs and events updated in place by one loop. */
module MlfqObject {
  import opened Mlfq
  import opened MlfqTheorems
  import opened MlfqRuns

  lemma AfterIOKeepsPri(cfg: Config, q: nat, job: Job)
    requires cfg.Valid() && q < cfg.numQueues
    ensures AfterIO(cfg, q, job).currPri == job.currPri
  {
  }

  class Scheduler {
    const cfg: Config
    var queue: seq<seq<nat>>
    var job: seq<Job>
    var ioDone: map<int, seq<Event>>
    var currTime: int
    var finished: nat

    /** The abstract state. */
    function Value(): State
      reads this
    {
      State(queue, job, ioDone, currTime, finished)
    }

    constructor (cfg: Config)
      requires cfg.Valid()
      ensures this.cfg == cfg && Value() == Initial(cfg)
    {
      var q := [];
      while |q| < cfg.numQueues
        invariant |q| <= cfg.numQueues && forall i :: 0 <= i < |q| ==> q[i] == []
        decreases cfg.numQueues - |q|
      {
        q := q + [[]];
      }
      var jobs: seq<Job> := [];
      var begins: map<int, seq<Event>> := map[];
      while |jobs| < |cfg.jobs|
        invariant |jobs| <= |cfg.jobs|
        invariant forall i :: 0 <= i < |jobs| ==> jobs[i] == InitialJob(cfg, cfg.jobs[i])
        invariant begins == BeginEvents(cfg.jobs, |jobs|)
        decreases |cfg.jobs| - |jobs|
      {
        var spec := cfg.jobs[|jobs|];
        if spec.startTime !in begins {
          begins := begins[spec.startTime := []];
        }
        begins := begins[spec.startTime := begins[spec.startTime] + [Event(|jobs|, true)]];
        jobs := jobs + [InitialJob(cfg, spec)];
      }
      this.cfg, queue, job, ioDone, currTime, finished := cfg, q, jobs, begins, 0, 0;
    }

    /** The highest non-empty queue, or -1. */
    method FindHighest() returns (q: int)
      requires cfg.Valid() && |queue| == cfg.numQueues
      ensures q == FindQueue(queue, |queue|)
    {
      q := cfg.HiQueue();
      while q > 0
        invariant 0 <= q < |queue|
        invariant forall p :: q < p < |queue| ==> queue[p] == []
        invariant FindQueue(queue, |queue|) == FindQueue(queue, q + 1)
      {
        if |queue[q]| > 0 {
          return;
        }
        q := q - 1;
      }
      if |queue[0]| > 0 {
        return 0;
      }
      return -1;
    }

    /** Queue q is emptied into the highest. */
    method EmptyQueue(q: nat)
      requires cfg.Valid() && |queue| == cfg.numQueues && q < cfg.HiQueue()
      modifies this`queue
      ensures queue == old(queue)[q := []][cfg.HiQueue() := old(queue)[cfg.HiQueue()] + NotDoingIO(old(queue)[q], job)]
    {
      var hi := cfg.HiQueue();
      ghost var mine := queue[q];
      var i := 0;
      while i < |queue[q]|
        invariant 0 <= i <= |mine| && |queue| == cfg.numQueues && queue[q] == mine
        invariant queue == old(queue)[hi := queue[hi]] && queue[hi] == old(queue)[hi] + NotDoingIO(mine[..i], job)
      {
        var j := queue[q][i];
        assert mine[..i + 1][..i] == mine[..i];
        assert NotDoingIO(mine[..i + 1], job)
               == NotDoingIO(mine[..i], job) + if j < |job| && !job[j].doingIO then [j] else [];
        if j < |job| && !job[j].doingIO {
          queue := queue[hi := queue[hi] + [j]];
        }
        i := i + 1;
      }
      assert mine[..i] == mine;
      queue := queue[q := []];
    }

    /** Every unfinished job is raised to the highest priority. */
    method RaiseAll()
      requires cfg.Valid()
      modifies this`job
      ensures |job| == |old(job)| && forall j :: 0 <= j < |job| ==> job[j] == BoostedJob(cfg, old(job)[j])
    {
      var hi := cfg.HiQueue();
      var j := 0;
      while j < |job|
        invariant 0 <= j <= |job| == |old(job)|
        invariant forall m :: 0 <= m < j ==> job[m] == BoostedJob(cfg, old(job)[m])
        invariant forall m :: j <= m < |job| ==> job[m] == old(job)[m]
      {
        if job[j].timeLeft > 0 {
          job := job[j := job[j].(currPri := hi, ticksLeft := cfg.allotment[hi])];
        }
        j := j + 1;
      }
    }

    /** The boost: every lower queue is emptied into the highest, and every unfinished job is raised. */
    method BoostAll()
      requires cfg.Valid() && |queue| == cfg.numQueues
      modifies this`queue, this`job
      ensures Value() == Boost(cfg, old(Value()))
    {
      hide NotDoingIO, BoostedJob;
      var hi := cfg.HiQueue();
      var q := 0;
      while q < hi
        invariant 0 <= q <= hi && |queue| == cfg.numQueues && job == old(job)
        invariant forall p :: 0 <= p < q ==> queue[p] == []
        invariant forall p :: q <= p < hi ==> queue[p] == old(queue)[p]
        invariant queue[hi] == old(queue)[hi] + Collected(old(queue), job, q)
      {
        EmptyQueue(q);
        q := q + 1;
      }
      RaiseAll();
      assert queue == Boost(cfg, old(Value())).queue;
      assert job == Boost(cfg, old(Value())).job;
    }

    /** The jobs whose start or I/O completion is due join their queues. */
    method DeliverDue()
      requires cfg.Valid() && |queue| == cfg.numQueues
      requires forall e :: e in EventsAt(Value(), currTime) ==> e.job < |job|
      requires forall j :: 0 <= j < |job| ==> 0 <= job[j].currPri < |queue|
      modifies this`queue, this`job
      ensures Value() == Deliver(cfg, old(Value()))
    {
      if currTime in ioDone {
        ghost var s := Value();
        var due := ioDone[currTime];
        var i := 0;
        while i < |due|
          invariant 0 <= i <= |due| && due == EventsAt(s, s.currTime)
          invariant Value() == DeliverUpTo(cfg, s, due, i)
          invariant |queue| == |s.queue| && |job| == |s.job|
          invariant forall j :: 0 <= j < |job| ==> 0 <= job[j].currPri < |queue|
        {
          assert due[i] in due;
          var j := due[i].job;
          var q := job[j].currPri;
          job := job[j := job[j].(doingIO := false)];
          if !cfg.iobump || due[i].begins {
            queue := queue[q := queue[q] + [j]];
          } else {
            queue := queue[q := [j] + queue[q]];
          }
          i := i + 1;
        }
      }
    }

    /** The job at the front of queue q leaves it for an I/O. */
    method IssueIO(q: nat, j: nat)
      requires cfg.Valid() && q < |queue| == cfg.numQueues && |queue[q]| > 0 && j < |job|
      modifies this`queue, this`job, this`ioDone
      ensures queue == old(queue)[q := old(queue)[q][1..]] && job == old(job)[j := AfterIO(cfg, q, old(job)[j])]
      ensures ioDone == AddEvent(old(ioDone), currTime + cfg.ioTime, Event(j, false))
    {
      queue := queue[q := queue[q][1..]];
      job := job[j := job[j].(doingIO := true)];
      if cfg.stay {
        job := job[j := job[j].(ticksLeft := cfg.quantum[q], allotLeft := cfg.allotment[q])];
      }
      var futureTime := currTime + cfg.ioTime;
      if futureTime !in ioDone {
        ioDone := ioDone[futureTime := []];
      }
      ioDone := ioDone[futureTime := ioDone[futureTime] + [Event(j, false)]];
    }

    /** The quantum of job j at priority q is used up; unless it left for an I/O it goes to the end of a queue. */
    method EndQuantum(q: nat, j: nat, issuedIO: bool)
      requires cfg.Valid() && q < |queue| == cfg.numQueues && j < |job| && job[j].currPri == q
      requires !issuedIO ==> |queue[q]| > 0 && queue[q][0] == j
      modifies this`queue, this`job
      ensures job == old(job)[j := AfterQuantum(cfg, q, old(job)[j])]
      ensures queue == if issuedIO then old(queue) else Requeued(old(queue), q, j, job[j].currPri)
    {
      if !issuedIO {
        queue := queue[q := queue[q][1..]];
      }
      job := job[j := job[j].(allotLeft := job[j].allotLeft - 1)];
      var down := q;
      if job[j].allotLeft == 0 {
        if q > 0 {
          down := q - 1;
          job := job[j := job[j].(currPri := q - 1)];
        }
        job := job[j := job[j].(ticksLeft := cfg.quantum[down], allotLeft := cfg.allotment[down])];
      } else {
        job := job[j := job[j].(ticksLeft := cfg.quantum[q])];
      }
      if !issuedIO {
        queue := queue[down := queue[down] + [j]];
      }
    }

    /** The job at the front of queue q runs for one unit of time. */
    method RunFront(q: nat)
      requires Runnable(cfg, Value(), q)
      modifies this
      ensures Value() == Tick(cfg, old(Value()), q)
    {
      hide AfterIO, AfterQuantum, IssuesIO, AddEvent;
      var j := queue[q][0];
      job := job[j := job[j].(timeLeft := job[j].timeLeft - 1, ticksLeft := job[j].ticksLeft - 1)];
      if job[j].firstRun == -1 {
        job := job[j := job[j].(firstRun := currTime)];
      }
      var ticksLeft, timeLeft := job[j].ticksLeft, job[j].timeLeft;
      currTime := currTime + 1;
      if timeLeft == 0 {
        finished := finished + 1;
        job := job[j := job[j].(endTime := currTime)];
        queue := queue[q := queue[q][1..]];
        return;
      }
      assert job[j] == Charged(old(Value()), j);
      var issuedIO := IssuesIO(cfg.jobs[j], timeLeft);
      if issuedIO {
        IssueIO(q, j);
        AfterIOKeepsPri(cfg, q, Charged(old(Value()), j));
      }
      if ticksLeft == 0 {
        EndQuantum(q, j, issuedIO);
      }
    }

    /** The whole loop. It ends, the two checks that stop the program never fire, and the state reached is that of a
    run in which every job is finished. */
    method Run() returns (ghost n: nat)
      requires cfg.Valid() && Value() == Initial(cfg)
      modifies this
      ensures After(cfg, n) == Next(Value()) && finished == |cfg.jobs|
    {
      n := 0;
      ghost var horizon := LastStart(cfg.jobs);
      ghost var place := RunKeepsInv(cfg, 0);
      assert Within(ioDone, horizon) by {
        assert cfg.jobs[..|cfg.jobs|] == cfg.jobs;
        StartsWithin(cfg.jobs, |cfg.jobs|);
      }
      while finished < |cfg.jobs|
        invariant After(cfg, n) == Next(Value()) && Inv(cfg, Value(), place, currTime) && Within(ioDone, horizon)
        decreases TotalLeft(job), horizon - currTime
      {
        ghost var s := Value();
        TurnProgress(cfg, s, place, horizon);
        LeftNat(cfg, s, place);
        Step(place);
        n := n + 1;
        place := RunKeepsInv(cfg, n);
        LeftNat(cfg, Value(), place);
        horizon := if TotalLeft(job) < TotalLeft(s.job) then Horizon(cfg, s, horizon) else horizon;
      }
      AllDoneIff(job);
    }

    /** One turn of the loop. */
    method Step(ghost place: seq<Place>)
      requires Inv(cfg, Value(), place, currTime)
      modifies this
      ensures Turn(cfg, old(Value())) == Next(Value())
    {
      hide Boost, Deliver, Tick, JobsOk, QueuesOk, EventsOk, EventsAt;
      if cfg.boost > 0 && currTime != 0 && currTime % cfg.boost == 0 {
        BoostAll();
        BoostKeepsInv(cfg, old(Value()), place);
      }
      ghost var b := Value();
      DueFits(cfg, b, place);
      DeliverDue();
      ghost var place' := DeliverKeepsInv(cfg, b, place);
      var q := FindHighest();
      if q == -1 {
        currTime := currTime + 1;
        return;
      }
      FrontRuns(cfg, Value(), place', q);
      var currJob := queue[q][0];
      assert job[currJob].currPri == q;
      assert job[currJob].timeLeft - 1 >= 0;
      RunFront(q);
    }
  }

  /** The events due name jobs, and jobs have priorities. */
  lemma DueFits(cfg: Config, s: State, place: seq<Place>)
    requires Inv(cfg, s, place, s.currTime)
    ensures forall e :: e in EventsAt(s, s.currTime) ==> e.job < |s.job|
    ensures forall j :: 0 <= j < |s.job| ==> 0 <= s.job[j].currPri < |s.queue|
  {
    hide QueuesOk, Clock, IosDue, CountDone;
    var due := EventsAt(s, s.currTime);
    forall e | e in due
      ensures e.job < |s.job|
    {
      var i :| 0 <= i < |due| && due[i] == e;
    }
    forall j | 0 <= j < |s.job|
      ensures 0 <= s.job[j].currPri < |s.queue|
    {
      assert JobOk(cfg, cfg.jobs[j], s.job[j], place[j], s.currTime);
    }
  }
}
