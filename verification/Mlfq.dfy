/** The multi-level feedback queue: one turn of the scheduler's loop on its queues, jobs and events. */
module Mlfq {

  datatype JobSpec = JobSpec(startTime: int, runTime: int, ioFreq: int)

  datatype Config = Config(
    numQueues: nat, quantum: seq<int>, allotment: seq<int>, boost: int, ioTime: int, stay: bool, iobump: bool,
    jobs: seq<JobSpec>)
  {
    predicate Valid() {
      && numQueues >= 1 && |quantum| == numQueues && |allotment| == numQueues
      && ioTime >= 0
      && (forall j :: 0 <= j < |jobs| ==> jobs[j].startTime >= 0 && jobs[j].runTime >= 1)
    }

    function HiQueue(): nat
      requires Valid()
    {
      numQueues - 1
    }
  }

  datatype Job = Job(
    currPri: int, ticksLeft: int, allotLeft: int, timeLeft: int, doingIO: bool, firstRun: int, endTime: int)

  /** A job to put into a queue, because it begins or because its I/O is done. */
  datatype Event = Event(job: nat, begins: bool)

  datatype State = State(
    queue: seq<seq<nat>>, job: seq<Job>, ioDone: map<int, seq<Event>>, currTime: int, finished: nat)

  // ----- boost -----

  function NotDoingIO(jobs: seq<nat>, job: seq<Job>): seq<nat> {
    if jobs == [] then []
    else
      var last := jobs[|jobs| - 1];
      NotDoingIO(jobs[..|jobs| - 1], job) + if last < |job| && !job[last].doingIO then [last] else []
  }

  /** The jobs that the first k queues hand over. */
  function Collected(queue: seq<seq<nat>>, job: seq<Job>, k: nat): seq<nat>
    requires k <= |queue|
  {
    if k == 0 then [] else Collected(queue, job, k - 1) + NotDoingIO(queue[k - 1], job)
  }

  function BoostedJob(cfg: Config, j: Job): Job
    requires cfg.Valid()
  {
    if j.timeLeft > 0 then j.(currPri := cfg.HiQueue(), ticksLeft := cfg.allotment[cfg.HiQueue()]) else j
  }

  predicate BoostDue(cfg: Config, currTime: int) {
    cfg.boost > 0 && currTime != 0 && currTime % cfg.boost == 0
  }

  /** All jobs go to the highest queue. */
  function Boost(cfg: Config, s: State): State
    requires cfg.Valid() && |s.queue| == cfg.numQueues
  {
    var hi := cfg.HiQueue();
    s.(queue := seq(cfg.numQueues, q requires 0 <= q < cfg.numQueues =>
                  if q == hi then s.queue[hi] + Collected(s.queue, s.job, hi) else []),
       job := seq(|s.job|, j requires 0 <= j < |s.job| => BoostedJob(cfg, s.job[j])))
  }

  // ----- events -----

  function DeliverOne(cfg: Config, s: State, e: Event): State {
    if e.job < |s.job| && 0 <= s.job[e.job].currPri < |s.queue| then
      var q := s.job[e.job].currPri;
      s.(job := s.job[e.job := s.job[e.job].(doingIO := false)],
         queue := s.queue[q := if !cfg.iobump || e.begins then s.queue[q] + [e.job] else [e.job] + s.queue[q]])
    else s
  }

  /** The first i events of the list. */
  function DeliverUpTo(cfg: Config, s: State, events: seq<Event>, i: nat): State
    requires i <= |events|
  {
    if i == 0 then s else DeliverOne(cfg, DeliverUpTo(cfg, s, events, i - 1), events[i - 1])
  }

  function EventsAt(s: State, t: int): seq<Event> {
    if t in s.ioDone then s.ioDone[t] else []
  }

  function Deliver(cfg: Config, s: State): State {
    DeliverUpTo(cfg, s, EventsAt(s, s.currTime), |EventsAt(s, s.currTime)|)
  }

  // ----- one tick -----

  /** The highest non-empty queue below k, or -1. */
  function FindQueue(queue: seq<seq<nat>>, k: nat): (q: int)
    requires k <= |queue|
    ensures -1 <= q < k
    ensures q >= 0 ==> queue[q] != [] && forall p :: q < p < k ==> queue[p] == []
    ensures q == -1 ==> forall p :: 0 <= p < k ==> queue[p] == []
  {
    if k == 0 then -1
    else if queue[k - 1] != [] then k - 1
    else FindQueue(queue, k - 1)
  }

  predicate IssuesIO(spec: JobSpec, timeLeft: int) {
    spec.ioFreq > 0 && (spec.runTime - timeLeft) % spec.ioFreq == 0
  }

  function AfterIO(cfg: Config, q: nat, job: Job): Job
    requires cfg.Valid() && q < cfg.numQueues
  {
    if cfg.stay then job.(doingIO := true, ticksLeft := cfg.quantum[q], allotLeft := cfg.allotment[q])
    else job.(doingIO := true)
  }

  /** The job's quantum at priority q is used up, and with it perhaps its allotment. */
  function AfterQuantum(cfg: Config, q: nat, job: Job): Job
    requires cfg.Valid() && q < cfg.numQueues
  {
    if job.allotLeft - 1 != 0 then job.(allotLeft := job.allotLeft - 1, ticksLeft := cfg.quantum[q])
    else
      var down := if q > 0 then q - 1 else q;
      job.(currPri := if q > 0 then q - 1 else job.currPri,
           ticksLeft := cfg.quantum[down], allotLeft := cfg.allotment[down])
  }

  /** The job after a tick that does not finish it. */
  function TickedJob(cfg: Config, q: nat, job: Job, issuedIO: bool): Job
    requires cfg.Valid() && q < cfg.numQueues
  {
    var next := if issuedIO then AfterIO(cfg, q, job) else job;
    if job.ticksLeft != 0 then next else AfterQuantum(cfg, q, next)
  }

  /** The front job of queue q goes to the end of the queue of its priority. */
  function Requeued(queue: seq<seq<nat>>, q: nat, j: nat, currPri: int): seq<seq<nat>>
    requires q < |queue| && |queue[q]| > 0 && 0 <= currPri < |queue|
  {
    var popped := queue[q := queue[q][1..]];
    popped[currPri := popped[currPri] + [j]]
  }

  /** The queues after a tick that does not finish the job at the front of queue q. */
  function TickedQueues(queue: seq<seq<nat>>, q: nat, j: nat, ticksLeft: int, issuedIO: bool,
        currPri: int): seq<seq<nat>>
    requires q < |queue| && |queue[q]| > 0 && 0 <= currPri < |queue|
  {
    if issuedIO then queue[q := queue[q][1..]]
    else if ticksLeft != 0 then queue
    else Requeued(queue, q, j, currPri)
  }

  function AddEvent(ioDone: map<int, seq<Event>>, t: int, e: Event): map<int, seq<Event>> {
    ioDone[t := (if t in ioDone then ioDone[t] else []) + [e]]
  }

  /** The front job after being charged for the tick. */
  function Charged(s: State, j: nat): Job
    requires j < |s.job|
  {
    var job := s.job[j];
    job.(timeLeft := job.timeLeft - 1, ticksLeft := job.ticksLeft - 1,
         firstRun := if job.firstRun == -1 then s.currTime else job.firstRun)
  }

  predicate Runnable(cfg: Config, s: State, q: nat) {
    && cfg.Valid() && |s.queue| == cfg.numQueues && |s.job| == |cfg.jobs|
    && q < |s.queue| && |s.queue[q]| > 0 && s.queue[q][0] < |s.job|
    && s.job[s.queue[q][0]].currPri == q
  }

  /** The job at the front of queue q runs for one unit of time. */
  function Tick(cfg: Config, s: State, q: nat): State
    requires Runnable(cfg, s, q)
  {
    var j := s.queue[q][0];
    var job := Charged(s, j);
    var now := s.currTime + 1;
    if job.timeLeft == 0 then
      s.(currTime := now, finished := s.finished + 1,
         queue := s.queue[q := s.queue[q][1..]],
         job := s.job[j := job.(endTime := now)])
    else
      var io := IssuesIO(cfg.jobs[j], job.timeLeft);
      var job' := TickedJob(cfg, q, job, io);
      s.(currTime := now,
         queue := TickedQueues(s.queue, q, j, job.ticksLeft, io, job'.currPri),
         job := s.job[j := job'],
         ioDone := if io then AddEvent(s.ioDone, now + cfg.ioTime, Event(j, false)) else s.ioDone)
  }

  // ----- one turn of the loop -----

  datatype Turned = Aborted | Next(state: State)

  /** The state in which the turn looks for a job to run. */
  function Ready(cfg: Config, s: State): State
    requires cfg.Valid() && |s.queue| == cfg.numQueues
  {
    Deliver(cfg, if BoostDue(cfg, s.currTime) then Boost(cfg, s) else s)
  }

  /** Boost, deliver, and run the job found, or stay idle. */
  function Turn(cfg: Config, s: State): Turned
    requires cfg.Valid() && |s.queue| == cfg.numQueues
  {
    var ready := Ready(cfg, s);
    var q := FindQueue(ready.queue, |ready.queue|);
    if q == -1 then Next(ready.(currTime := ready.currTime + 1))
    else if Runnable(cfg, ready, q) then Next(Tick(cfg, ready, q))
    else Aborted
  }

  // ----- the start -----

  function BeginEvents(jobs: seq<JobSpec>, k: nat): map<int, seq<Event>>
    requires k <= |jobs|
  {
    if k == 0 then map[] else AddEvent(BeginEvents(jobs, k - 1), jobs[k - 1].startTime, Event(k - 1, true))
  }

  function InitialJob(cfg: Config, spec: JobSpec): Job
    requires cfg.Valid()
  {
    var hi := cfg.HiQueue();
    Job(hi, cfg.quantum[hi], cfg.allotment[hi], spec.runTime, false, -1, -1)
  }

  function Initial(cfg: Config): State
    requires cfg.Valid()
  {
    State(seq(cfg.numQueues, _ => []), seq(|cfg.jobs|, j requires 0 <= j < |cfg.jobs| => InitialJob(cfg, cfg.jobs[j])),
          BeginEvents(cfg.jobs, |cfg.jobs|), 0, 0)
  }

  // ----- the invariant -----

  /** Where a job is. */
  datatype Place = Queued | Pending(time: int) | Done

  function CountDone(job: seq<Job>): nat {
    if job == [] then 0 else CountDone(job[..|job| - 1]) + if job[|job| - 1].timeLeft == 0 then 1 else 0
  }

  ghost predicate Sizes(cfg: Config, s: State, place: seq<Place>) {
    && cfg.Valid() && s.currTime >= 0
    && |s.queue| == cfg.numQueues
    && |s.job| == |cfg.jobs| == |place|
  }

  /** I/Os issued so far. */
  function IosDue(spec: JobSpec, timeLeft: int): int {
    if spec.ioFreq <= 0 then 0
    else if timeLeft > 0 then (spec.runTime - timeLeft) / spec.ioFreq
    else (spec.runTime - 1) / spec.ioFreq
  }

  /** The time up to which a job's progress is accounted for. */
  function Clock(now: int, place: Place, job: Job): int {
    match place
    case Queued => now
    case Pending(t) => t
    case Done => job.endTime
  }

  /** A job's record fits its place, and it has not run ahead of its I/Os. */
  predicate JobOk(cfg: Config, spec: JobSpec, job: Job, place: Place, now: int) {
    && 0 <= job.currPri < cfg.numQueues
    && 0 <= job.timeLeft <= spec.runTime
    && (job.timeLeft == 0 <==> place == Done)
    && (job.doingIO ==> place.Pending?)
    && Clock(now, place, job) - spec.startTime >= spec.runTime - job.timeLeft + cfg.ioTime * IosDue(spec, job.timeLeft)
  }

  ghost predicate JobsOk(cfg: Config, s: State, place: seq<Place>)
    requires Sizes(cfg, s, place)
  {
    && s.finished == CountDone(s.job)
    && forall j :: 0 <= j < |s.job| ==> JobOk(cfg, cfg.jobs[j], s.job[j], place[j], s.currTime)
  }

  ghost predicate OnlyQueuedJobs(queue: seq<seq<nat>>, job: seq<Job>, place: seq<Place>)
    requires |job| == |place|
  {
    forall q, i :: 0 <= q < |queue| && 0 <= i < |queue[q]| ==>
      queue[q][i] < |job| && place[queue[q][i]] == Queued && job[queue[q][i]].currPri == q
  }

  ghost predicate NoneTwice(queue: seq<seq<nat>>) {
    forall q, i, k :: 0 <= q < |queue| && 0 <= i < k < |queue[q]| ==> queue[q][i] != queue[q][k]
  }

  ghost predicate AllQueuedJobs(queue: seq<seq<nat>>, job: seq<Job>, place: seq<Place>)
    requires |job| == |place|
  {
    forall j :: 0 <= j < |job| && place[j] == Queued ==> 0 <= job[j].currPri < |queue| && j in queue[job[j].currPri]
  }

  /** The queues hold exactly the jobs that are queued, each once and at its own priority. */
  ghost predicate QueuesOk(queue: seq<seq<nat>>, job: seq<Job>, place: seq<Place>)
    requires |job| == |place|
  {
    OnlyQueuedJobs(queue, job, place) && NoneTwice(queue) && AllQueuedJobs(queue, job, place)
  }

  ghost predicate HasEvent(events: seq<Event>, j: nat) {
    exists i :: 0 <= i < |events| && events[i].job == j
  }

  ghost predicate OnlyPendingJobs(ioDone: map<int, seq<Event>>, job: seq<Job>, place: seq<Place>, from: int)
    requires |job| == |place|
  {
    forall t, i :: t in ioDone && t >= from && 0 <= i < |ioDone[t]| ==>
      && ioDone[t][i].job < |job| && place[ioDone[t][i].job] == Pending(t)
      && (job[ioDone[t][i].job].doingIO <==> !ioDone[t][i].begins)
  }

  ghost predicate OneEventEach(ioDone: map<int, seq<Event>>, from: int) {
    forall t, i, k :: t in ioDone && t >= from && 0 <= i < k < |ioDone[t]| ==> ioDone[t][i].job != ioDone[t][k].job
  }

  ghost predicate AllPendingJobs(ioDone: map<int, seq<Event>>, place: seq<Place>, from: int) {
    forall j :: 0 <= j < |place| && place[j].Pending? ==>
      place[j].time >= from && place[j].time in ioDone && HasEvent(ioDone[place[j].time], j)
  }

  /** The events from time from on are exactly one for each pending job. */
  ghost predicate EventsOk(ioDone: map<int, seq<Event>>, job: seq<Job>, place: seq<Place>, from: int)
    requires |job| == |place|
  {
    OnlyPendingJobs(ioDone, job, place, from) && OneEventEach(ioDone, from) && AllPendingJobs(ioDone, place, from)
  }

  ghost predicate Inv(cfg: Config, s: State, place: seq<Place>, from: int) {
    && Sizes(cfg, s, place)
    && JobsOk(cfg, s, place)
    && QueuesOk(s.queue, s.job, place)
    && EventsOk(s.ioDone, s.job, place, from)
  }
}
