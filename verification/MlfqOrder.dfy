/** The order of the queues: who goes where, and why nobody at a job's own priority is passed over. */
module MlfqOrder {
  import opened Mlfq
  import opened MlfqTheorems
  import opened MlfqRuns

  /** x stands before y. */
  ghost predicate Ahead(list: seq<nat>, x: nat, y: nat) {
    exists i, k :: 0 <= i < k < |list| && list[i] == x && list[k] == y
  }

  lemma AheadWithin(before: seq<nat>, list: seq<nat>, after: seq<nat>, x: nat, y: nat)
    requires Ahead(list, x, y)
    ensures Ahead(before + list + after, x, y)
  {
    var i, k :| 0 <= i < k < |list| && list[i] == x && list[k] == y;
    var all := before + list + after;
    assert all[|before| + i] == x && all[|before| + k] == y;
  }

  lemma AheadAcross(list: seq<nat>, more: seq<nat>, x: nat, y: nat)
    requires x in list && y in more
    ensures Ahead(list + more, x, y)
  {
    var i :| 0 <= i < |list| && list[i] == x;
    var k :| 0 <= k < |more| && more[k] == y;
    assert (list + more)[i] == x && (list + more)[|list| + k] == y;
  }

  lemma AheadInTail(list: seq<nat>, x: nat, y: nat)
    requires Ahead(list, x, y) && x != list[0]
    ensures Ahead(list[1..], x, y)
  {
    var i, k :| 0 <= i < k < |list| && list[i] == x && list[k] == y;
    assert list[1..][i - 1] == x && list[1..][k - 1] == y;
  }

  // ----- a boost -----

  /** The waiting jobs all go to the highest queue: first those that were there, then those of the other queues from the
  lowest up, and those of one queue in their order. */
  lemma {:induction false} CollectedOrder(queue: seq<seq<nat>>, job: seq<Job>, place: seq<Place>, k: nat, p: nat,
                                          x: nat, q: nat, y: nat)
    requires |job| == |place| && QueuesOk(queue, job, place) && k <= |queue|
    requires forall j :: 0 <= j < |job| && job[j].doingIO ==> place[j].Pending?
    requires p <= q < k && x in queue[p] && y in queue[q] && (p == q ==> Ahead(queue[p], x, y))
    ensures Ahead(Collected(queue, job, k), x, y)
  {
    hide QueuesOk, Ahead, NotDoingIO;
    var lower, last := Collected(queue, job, k - 1), queue[k - 1];
    QueueKept(queue, job, place, k - 1);
    if q < k - 1 {
      CollectedOrder(queue, job, place, k - 1, p, x, q, y);
      AheadWithin([], lower, last, x, y);
      assert [] + lower + last == lower + last;
    } else if p == q {
      AheadWithin(lower, last, [], x, y);
      assert lower + last + [] == lower + last;
    } else {
      CollectedJobs(queue, job, place, k - 1);
      QueueHolds(queue, job, place, p);
      AheadAcross(lower, last, x, y);
    }
  }

  /** Where x stands relative to y after a boost. */
  predicate First(cfg: Config, p: nat, q: nat)
    requires cfg.Valid()
  {
    q != cfg.HiQueue() && (p == cfg.HiQueue() || p < q)
  }

  lemma QueuedNotDoingIO(cfg: Config, s: State, place: seq<Place>, from: int)
    requires Inv(cfg, s, place, from)
    ensures forall j :: 0 <= j < |s.job| && s.job[j].doingIO ==> place[j].Pending?
    ensures forall j :: 0 <= j < |s.job| && place[j] == Queued ==>
              s.job[j].timeLeft > 0 && 0 <= s.job[j].currPri < |s.queue|
  {
    hide QueuesOk, EventsOk, Clock, IosDue;
    assert forall j :: 0 <= j < |s.job| ==> JobOk(cfg, cfg.jobs[j], s.job[j], place[j], s.currTime);
  }

  lemma BoostOrder(cfg: Config, s: State, place: seq<Place>, p: nat, x: nat, q: nat, y: nat)
    requires Inv(cfg, s, place, s.currTime) && p < |s.queue| && q < |s.queue| && x in s.queue[p] && y in s.queue[q]
    requires First(cfg, p, q) || (p == q && Ahead(s.queue[p], x, y))
    ensures Ahead(Boost(cfg, s).queue[cfg.HiQueue()], x, y)
  {
    QueuedNotDoingIO(cfg, s, place, s.currTime);
    hide JobsOk, QueuesOk, EventsOk, Ahead, Collected;
    var hi := cfg.HiQueue();
    var top, more := s.queue[hi], Collected(s.queue, s.job, hi);
    assert Boost(cfg, s).queue[hi] == top + more;
    if q == hi {
      AheadWithin([], top, more, x, y);
      assert [] + top + more == top + more;
    } else if p != hi {
      CollectedOrder(s.queue, s.job, place, hi, p, x, q, y);
      AheadWithin(top, more, [], x, y);
      assert top + more + [] == top + more;
    } else {
      CollectedJobs(s.queue, s.job, place, hi);
      QueueHolds(s.queue, s.job, place, q);
      AheadAcross(top, more, x, y);
    }
  }

  // ----- events -----

  /** A delivery leaves the queues as they are but for the job that it puts at one end. */
  lemma DeliverOneOrder(cfg: Config, s: State, e: Event, q: nat, x: nat, y: nat)
    requires q < |s.queue| && Ahead(s.queue[q], x, y)
    ensures var d := DeliverOne(cfg, s, e); |d.queue| == |s.queue| && Ahead(d.queue[q], x, y)
  {
    hide Ahead;
    AheadWithin([e.job], s.queue[q], [], x, y);
    AheadWithin([], s.queue[q], [e.job], x, y);
    assert [e.job] + s.queue[q] + [] == [e.job] + s.queue[q];
    assert [] + s.queue[q] + [e.job] == s.queue[q] + [e.job];
  }

  lemma {:induction false} DeliverUpToOrder(cfg: Config, s: State, events: seq<Event>, i: nat, q: nat, x: nat, y: nat)
    requires i <= |events| && q < |s.queue| && Ahead(s.queue[q], x, y)
    ensures var d := DeliverUpTo(cfg, s, events, i); |d.queue| == |s.queue| && Ahead(d.queue[q], x, y)
  {
    hide Ahead, DeliverOne;
    if i > 0 {
      DeliverUpToOrder(cfg, s, events, i - 1, q, x, y);
      DeliverOneOrder(cfg, DeliverUpTo(cfg, s, events, i - 1), events[i - 1], q, x, y);
    }
  }

  /** The end of its queue is for a job that begins, or whose I/O is done; with the -I option the front is for the
  latter. */
  ghost predicate JoinsRight(cfg: Config, list: seq<nat>, e: Event, x: nat) {
    if cfg.iobump && !e.begins then Ahead(list, e.job, x) else Ahead(list, x, e.job)
  }

  lemma DeliverOneJoins(cfg: Config, s: State, e: Event, q: nat, x: nat)
    requires q < |s.queue| && x in s.queue[q] && e.job < |s.job| && s.job[e.job].currPri == q
    ensures JoinsRight(cfg, DeliverOne(cfg, s, e).queue[q], e, x)
  {
    hide Ahead;
    AheadAcross(s.queue[q], [e.job], x, e.job);
    AheadAcross([e.job], s.queue[q], e.job, x);
  }

  lemma {:induction false} DeliveredStill(cfg: Config, s: State, events: seq<Event>, i: nat, q: nat, x: nat)
    requires i <= |events| && q < |s.queue|
    ensures var d := DeliverUpTo(cfg, s, events, i);
            && |d.queue| == |s.queue| && |d.job| == |s.job|
            && (x in s.queue[q] ==> x in d.queue[q])
            && forall j :: 0 <= j < |s.job| ==> d.job[j].currPri == s.job[j].currPri
  {
    if i > 0 {
      DeliveredStill(cfg, s, events, i - 1, q, x);
    }
  }

  /** Each job whose event is due joins on the right side of those that were waiting at its priority. */
  lemma {:induction false} DeliveredJoin(cfg: Config, s: State, events: seq<Event>, i: nat, k: nat, q: nat, x: nat)
    requires k < i <= |events| && q < |s.queue| && x in s.queue[q]
    requires events[k].job < |s.job| && s.job[events[k].job].currPri == q
    ensures var d := DeliverUpTo(cfg, s, events, i);
            |d.queue| == |s.queue| && JoinsRight(cfg, d.queue[q], events[k], x)
  {
    hide Ahead, DeliverOne;
    var before := DeliverUpTo(cfg, s, events, i - 1);
    DeliveredStill(cfg, s, events, i - 1, q, x);
    if k == i - 1 {
      DeliverOneJoins(cfg, before, events[k], q, x);
      DeliveredStill(cfg, s, events, i, q, x);
    } else {
      DeliveredJoin(cfg, s, events, i - 1, k, q, x);
      var j := events[k].job;
      if cfg.iobump && !events[k].begins {
        DeliverOneOrder(cfg, before, events[i - 1], q, j, x);
      } else {
        DeliverOneOrder(cfg, before, events[i - 1], q, x, j);
      }
    }
  }

  lemma DueJoin(cfg: Config, s: State, k: nat, q: nat, x: nat)
    requires k < |EventsAt(s, s.currTime)| && q < |s.queue| && x in s.queue[q]
    requires var e := EventsAt(s, s.currTime)[k]; e.job < |s.job| && s.job[e.job].currPri == q
    ensures var d := Deliver(cfg, s);
            |d.queue| == |s.queue| && JoinsRight(cfg, d.queue[q], EventsAt(s, s.currTime)[k], x)
  {
    hide JoinsRight, DeliverUpTo;
    var due := EventsAt(s, s.currTime);
    DeliveredJoin(cfg, s, due, |due|, k, q, x);
  }

  /** Before the turn's tick: waiting jobs keep their order, in the highest queue if there is a boost. */
  lemma ReadyKeepsOrder(cfg: Config, s: State, place: seq<Place>, p: nat, x: nat, y: nat)
    requires Inv(cfg, s, place, s.currTime) && p < |s.queue| && Ahead(s.queue[p], x, y)
    ensures var r, q := Ready(cfg, s), if BoostDue(cfg, s.currTime) then cfg.HiQueue() else p;
            |r.queue| == |s.queue| && Ahead(r.queue[q], x, y)
  {
    AheadBoth(s.queue[p], x, y);
    hide JobsOk, QueuesOk, EventsOk, Ahead, DeliverUpTo;
    var b := s;
    if BoostDue(cfg, s.currTime) {
      BoostOrder(cfg, s, place, p, x, p, y);
      b := Boost(cfg, s);
    }
    var due := EventsAt(b, b.currTime);
    DeliverUpToOrder(cfg, b, due, |due|, if BoostDue(cfg, s.currTime) then cfg.HiQueue() else p, x, y);
  }

  lemma AheadBoth(list: seq<nat>, x: nat, y: nat)
    requires Ahead(list, x, y)
    ensures x in list && y in list
  {
  }

  // ----- a tick -----

  /** What a tick does to the job at the front of queue q: it goes on at the front, or leaves the queues because it is
  finished or issues an I/O, or, at the end of its quantum, goes behind all others that wait at the priority it then
  has. */
  lemma TickPlaces(cfg: Config, s: State, place: seq<Place>, q: nat)
    requires Inv(cfg, s, place, s.currTime + 1) && q < |s.queue| && |s.queue[q]| > 0
    ensures Runnable(cfg, s, q)
    ensures var j, s' := s.queue[q][0], Tick(cfg, s, q);
            && |s'.queue| == |s.queue| && |s'.job| == |s.job|
            && (if s'.job[j].timeLeft == 0 || s'.job[j].doingIO then s'.queue == s.queue[q := s.queue[q][1..]]
                else if s.job[j].ticksLeft != 1 then s'.queue == s.queue && s'.job[j].currPri == q
                else 0 <= s'.job[j].currPri <= q && WaitsLast(s', j))
  {
    hide QueuesOk, EventsOk, IssuesIO, AddEvent, CountDone, JobsOk;
    FrontRuns(cfg, s, place, q);
    TickIssues(cfg, s, place, q);
  }

  predicate WaitsLast(s: State, j: nat) {
    && j < |s.job| && 0 <= s.job[j].currPri < |s.queue|
    && var list := s.queue[s.job[j].currPri]; |list| > 0 && list[|list| - 1] == j
  }

  /** The other jobs keep their order. */
  lemma TickKeepsOrder(cfg: Config, s: State, place: seq<Place>, q: nat, p: nat, x: nat, y: nat)
    requires Inv(cfg, s, place, s.currTime + 1) && q < |s.queue| && |s.queue[q]| > 0
    requires p < |s.queue| && Ahead(s.queue[p], x, y) && x != s.queue[q][0]
    ensures Runnable(cfg, s, q) && |Tick(cfg, s, q).queue| == |s.queue| && Ahead(Tick(cfg, s, q).queue[p], x, y)
  {
    hide QueuesOk, EventsOk, IssuesIO, AddEvent, CountDone, JobsOk, Ahead, AfterIO, AfterQuantum;
    FrontRuns(cfg, s, place, q);
    var j := s.queue[q][0];
    var popped := s.queue[q := s.queue[q][1..]];
    if p == q {
      AheadInTail(s.queue[q], x, y);
    }
    AheadWithin([], popped[p], [j], x, y);
    assert [] + popped[p] + [j] == popped[p] + [j];
    PriorityWithin(cfg, q, Charged(s, j));
  }

  lemma PriorityWithin(cfg: Config, q: nat, job: Job)
    requires cfg.Valid() && q < cfg.numQueues && job.currPri == q
    ensures AfterIO(cfg, q, job).currPri == q
    ensures 0 <= AfterQuantum(cfg, q, job).currPri <= q
    ensures 0 <= AfterQuantum(cfg, q, AfterIO(cfg, q, job)).currPri <= q
  {
  }

  // ----- a turn -----

  /** In the turn that starts in s job j runs the last unit of its quantum. */
  ghost predicate QuantumEnds(cfg: Config, s: State, j: nat)
    requires cfg.Valid() && |s.queue| == cfg.numQueues
  {
    var r := Ready(cfg, s);
    WaitsFirst(r, j) && Highest(r, j) && r.job[j].ticksLeft == 1
  }

  /** j gets the turn. */
  ghost predicate Runs(cfg: Config, s: State, j: nat)
    requires cfg.Valid() && |s.queue| == cfg.numQueues
  {
    Turn(cfg, s).Next? && OnlyRuns(Ready(cfg, s), Turn(cfg, s).state, j)
  }

  /** The turn as its parts: nobody waits, or the front of one queue gets the tick. */
  lemma TurnParts(cfg: Config, s: State, place: seq<Place>) returns (r: State, place': seq<Place>, q: int)
    requires Inv(cfg, s, place, s.currTime)
    ensures r == Ready(cfg, s) && r.currTime == s.currTime && Inv(cfg, r, place', r.currTime + 1)
    ensures Turn(cfg, s).Next?
    ensures q == -1 ==> Idle(r) && Turn(cfg, s).state == r.(currTime := r.currTime + 1)
    ensures q != -1 ==> 0 <= q < |r.queue| && |r.queue[q]| > 0 && Runnable(cfg, r, q)
                        && Turn(cfg, s).state == Tick(cfg, r, q) && OnlyRuns(r, Turn(cfg, s).state, r.queue[q][0])
                        && Highest(r, r.queue[q][0])
  {
    hide Ready, EventsOk, IssuesIO, TickedQueues, AddEvent, CountDone, JobsOk;
    place' := ReadyInv(cfg, s, place);
    r := Ready(cfg, s);
    q := FindQueue(r.queue, |r.queue|);
    if q >= 0 {
      TickIssues(cfg, r, place', q);
    }
  }

  /** Two waiting jobs keep their order over a turn that neither gets. */
  lemma WaitersKeepOrder(cfg: Config, s: State, place: seq<Place>, p: nat, x: nat, y: nat)
    requires Inv(cfg, s, place, s.currTime) && p < |s.queue| && Ahead(s.queue[p], x, y) && !Runs(cfg, s, x)
    ensures Turn(cfg, s).Next? && |Turn(cfg, s).state.queue| == |s.queue|
    ensures Ahead(Turn(cfg, s).state.queue[if BoostDue(cfg, s.currTime) then cfg.HiQueue() else p], x, y)
  {
    hide Ready, Turn, EventsOk, JobsOk, QueuesOk, Ahead, Idle, OnlyRuns, Highest, Tick;
    var r, place', q := TurnParts(cfg, s, place);
    ReadyKeepsOrder(cfg, s, place, p, x, y);
    if q != -1 {
      TickKeepsOrder(cfg, r, place', q, if BoostDue(cfg, s.currTime) then cfg.HiQueue() else p, x, y);
    }
  }

  lemma NeverTwice(queue: seq<seq<nat>>, q: nat, x: nat, y: nat)
    requires NoneTwice(queue) && q < |queue| && Ahead(queue[q], x, y)
    ensures x != y && y != queue[q][0] && !Ahead(queue[q], y, x)
  {
  }

  lemma QueueOf(cfg: Config, s: State, place: seq<Place>, from: int, p: nat, x: nat)
    requires Inv(cfg, s, place, from) && p < |s.queue| && x in s.queue[p]
    ensures x < |s.job| && s.job[x].currPri == p && s.job[x].timeLeft > 0 && !s.job[x].doingIO && NoneTwice(s.queue)
  {
    QueuedNotDoingIO(cfg, s, place, from);
    hide JobsOk, EventsOk;
  }

  lemma LastIsBehind(list: seq<nat>, x: nat, j: nat)
    requires |list| > 0 && list[|list| - 1] == j && x in list && x != j
    ensures Ahead(list, x, j)
  {
    var i :| 0 <= i < |list| && list[i] == x;
  }

  lemma FirstIsOne(s: State, j: nat, k: nat)
    requires WaitsFirst(s, j) && Highest(s, j) && WaitsFirst(s, k) && Highest(s, k)
    ensures j == k
  {
    var p, q := s.job[j].currPri, s.job[k].currPri;
    assert s.queue[p][0] == j && s.queue[q][0] == k;
  }

  /** A job whose quantum ends and that stays in the queues goes behind all others at the priority it then has. */
  lemma QuantumEndsLast(cfg: Config, s: State, place: seq<Place>, j: nat, p: nat, x: nat)
    requires Inv(cfg, s, place, s.currTime) && QuantumEnds(cfg, s, j)
    ensures Turn(cfg, s).Next? && Runs(cfg, s, j)
    ensures var queue := Turn(cfg, s).state.queue;
            p < |queue| && j in queue[p] && x in queue[p] && x != j ==> Ahead(queue[p], x, j)
  {
    hide Ready, Turn, EventsOk, JobsOk, QueuesOk, Ahead, OnlyRuns, Highest, Tick;
    var r, place', q := TurnParts(cfg, s, place);
    var after := TurnKeepsInv(cfg, s, place);
    var s' := Turn(cfg, s).state;
    FirstIsOne(r, j, r.queue[q][0]);
    TickPlaces(cfg, r, place', q);
    if p < |s'.queue| && j in s'.queue[p] && x in s'.queue[p] && x != j {
      QueueOf(cfg, s', after, s'.currTime, p, j);
      LastIsBehind(s'.queue[p], x, j);
    }
  }

  /** Two jobs that wait in one queue before a turn and after it keep their order, unless the first of them gets the
  turn and its quantum ends with it: then it is the second. */
  lemma TurnKeepsOrder(cfg: Config, s: State, place: seq<Place>, p: nat, x: nat, y: nat)
    requires Inv(cfg, s, place, s.currTime) && p < |s.queue| && Ahead(s.queue[p], x, y)
    ensures Turn(cfg, s).Next? && |Turn(cfg, s).state.queue| == |s.queue|
    ensures var queue' := Turn(cfg, s).state.queue;
            x in queue'[p] && y in queue'[p] ==>
              if QuantumEnds(cfg, s, x) then Ahead(queue'[p], y, x) else Ahead(queue'[p], x, y)
  {
    hide Ready, Turn, EventsOk, JobsOk, QueuesOk, Ahead, Idle, OnlyRuns, Highest, Tick, BoostDue;
    var r, place', q := TurnParts(cfg, s, place);
    var after := TurnKeepsInv(cfg, s, place);
    var s' := Turn(cfg, s).state;
    var top := if BoostDue(cfg, s.currTime) then cfg.HiQueue() else p;
    ReadyKeepsOrder(cfg, s, place, p, x, y);
    AheadBoth(s.queue[p], x, y);
    AheadBoth(r.queue[top], x, y);
    QueueOf(cfg, r, place', r.currTime + 1, top, x);
    NeverTwice(r.queue, top, x, y);
    if x in s'.queue[p] && y in s'.queue[p] {
      QueueOf(cfg, s', after, s'.currTime, p, x);
      QueueOf(cfg, s', after, s'.currTime, p, y);
      if QuantumEnds(cfg, s, x) {
        QuantumEndsLast(cfg, s, place, x, p, y);
      } else if q == -1 || x != r.queue[q][0] {
        if q != -1 {
          TickKeepsOrder(cfg, r, place', q, top, x, y);
          AheadBoth(s'.queue[top], x, y);
          QueueOf(cfg, s', after, s'.currTime, top, x);
        }
      } else {
        TickPlaces(cfg, r, place', q);
      }
    }
  }
}