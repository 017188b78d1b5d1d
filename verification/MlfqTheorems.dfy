/** What every turn of the multi-level feedback queue keeps, and what a whole run does. */
module MlfqTheorems {
  import opened Arithmetic
  import opened Mlfq
  import opened Sequences

  // ----- queues -----

  /** Taking the front job of a queue out of the queues. */
  lemma PoppedQueues(queue: seq<seq<nat>>, q: nat, job: seq<Job>, place: seq<Place>, job': seq<Job>, place': seq<Place>)
    requires |job| == |place| == |job'| == |place'| && QueuesOk(queue, job, place)
    requires q < |queue| && |queue[q]| > 0
    requires var j := queue[q][0];
             j < |job| && place' == place[j := place'[j]] && place'[j] != Queued && job' == job[j := job'[j]]
    ensures QueuesOk(queue[q := queue[q][1..]], job', place')
  {
    var j := queue[q][0];
    var after := queue[q := queue[q][1..]];
    assert forall p, i :: 0 <= p < |after| && 0 <= i < |after[p]| ==>
      after[p][i] == queue[p][if p == q then i + 1 else i];
    forall p, i | 0 <= p < |after| && 0 <= i < |after[p]|
      ensures after[p][i] < |job| && after[p][i] != j && job[after[p][i]].currPri == p && place[after[p][i]] == Queued
    {
      var k := if p == q then i + 1 else i;
      assert after[p][i] == queue[p][k];
      if queue[p][k] == j {
        assert false;
      }
    }
    forall m: nat | m < |job| && place'[m] == Queued
      ensures 0 <= job'[m].currPri < |after| && m in after[job'[m].currPri]
    {
      var p := job[m].currPri;
      assert m in queue[p];
      var i :| 0 <= i < |queue[p]| && queue[p][i] == m;
      if p == q {
        assert after[p][i - 1] == m;
      } else {
        assert after[p][i] == m;
      }
    }
  }

  function Grown(s: seq<nat>, j: nat, atEnd: bool): (r: seq<nat>)
    ensures |r| == |s| + 1 && r[if atEnd then |s| else 0] == j
    ensures forall i :: 0 <= i < |s| ==> r[if atEnd then i else i + 1] == s[i]
    ensures forall i :: 0 <= i < |r| ==> r[i] == j || exists k :: 0 <= k < |s| && r[i] == s[k]
    ensures forall x :: x in r <==> x == j || x in s
  {
    if atEnd then s + [j] else [j] + s
  }

  /** Putting a job that is in no queue at one end of the queue of its priority. */
  lemma PushedQueues(queue: seq<seq<nat>>, j: nat, job: seq<Job>, place: seq<Place>, job': seq<Job>, place': seq<Place>,
                     atEnd: bool)
    requires |job| == |place| == |job'| == |place'| && QueuesOk(queue, job, place)
    requires j < |job| && place[j] != Queued && place' == place[j := Queued] && job' == job[j := job'[j]]
    requires 0 <= job'[j].currPri < |queue|
    ensures var q := job'[j].currPri; QueuesOk(queue[q := Grown(queue[q], j, atEnd)], job', place')
  {
    hide Grown;
    var q := job'[j].currPri;
    var after := queue[q := Grown(queue[q], j, atEnd)];
    assert OnlyQueuedJobs(after, job', place') by {
      forall p, i | 0 <= p < |after| && 0 <= i < |after[p]|
        ensures after[p][i] < |job| && place'[after[p][i]] == Queued && job'[after[p][i]].currPri == p
      {
        if p != q || after[p][i] != j {
          var k :| 0 <= k < |queue[p]| && after[p][i] == queue[p][k];
        }
      }
    }
    assert NoneTwice(after) by {
      PushedOnce(queue[q], j, atEnd);
    }
    assert AllQueuedJobs(after, job', place') by {
      forall m: nat | m < |job| && place'[m] == Queued
        ensures 0 <= job'[m].currPri < |after| && m in after[job'[m].currPri]
      {
        if m != j {
          assert m in queue[job[m].currPri];
        }
      }
    }
  }

  lemma PushedOnce(s: seq<nat>, j: nat, atEnd: bool)
    requires forall i, k :: 0 <= i < k < |s| ==> s[i] != s[k]
    requires j !in s
    ensures forall i, k :: 0 <= i < k < |s| + 1 ==> Grown(s, j, atEnd)[i] != Grown(s, j, atEnd)[k]
  {
  }

  // ----- events -----

  /** Changing the record of a job that has no event due, and has none afterwards. */
  lemma EventsUntouched(ioDone: map<int, seq<Event>>, j: nat, job: seq<Job>, place: seq<Place>, job': seq<Job>,
                        place': seq<Place>, from: int)
    requires |job| == |place| == |job'| == |place'| && EventsOk(ioDone, job, place, from)
    requires j < |job| && !place[j].Pending? && !place'[j].Pending?
    requires place' == place[j := place'[j]] && job' == job[j := job'[j]]
    ensures EventsOk(ioDone, job', place', from)
  {
    assert forall t, i :: t in ioDone && t >= from && 0 <= i < |ioDone[t]| ==> ioDone[t][i].job != j;
  }

  lemma HasEventIn(events: seq<Event>, more: seq<Event>, j: nat)
    requires HasEvent(events, j) && forall e :: e in events ==> e in more
    ensures HasEvent(more, j)
  {
    var i :| 0 <= i < |events| && events[i].job == j;
    assert events[i] in more;
  }

  lemma AddedOnlyPending(ioDone: map<int, seq<Event>>, e: Event, t: int, job: seq<Job>, place: seq<Place>,
                         job': seq<Job>, place': seq<Place>, from: int)
    requires |job| == |place| == |job'| == |place'| && OnlyPendingJobs(ioDone, job, place, from)
    requires e.job < |job| && !place[e.job].Pending?
    requires place' == place[e.job := Pending(t)] && job' == job[e.job := job'[e.job]]
    requires job'[e.job].doingIO <==> !e.begins
    ensures OnlyPendingJobs(AddEvent(ioDone, t, e), job', place', from)
  {
    var before := if t in ioDone then ioDone[t] else [];
    var after: map<int, seq<Event>> := AddEvent(ioDone, t, e);
    forall u: int, i: int | u in after && u >= from && 0 <= i < |after[u]|
      ensures after[u][i].job < |job| && place'[after[u][i].job] == Pending(u)
      ensures job'[after[u][i].job].doingIO <==> !after[u][i].begins
    {
      if u == t && i == |before| {
        assert after[u][i] == e;
      } else {
        assert u in ioDone && after[u][i] == ioDone[u][i];
      }
    }
  }

  lemma AddedOnce(ioDone: map<int, seq<Event>>, e: Event, t: int, job: seq<Job>, place: seq<Place>, from: int)
    requires |job| == |place| && OnlyPendingJobs(ioDone, job, place, from) && OneEventEach(ioDone, from)
    requires e.job < |job| && !place[e.job].Pending?
    ensures OneEventEach(AddEvent(ioDone, t, e), from)
  {
    var before := if t in ioDone then ioDone[t] else [];
    assert t >= from ==> forall i :: 0 <= i < |before| ==> before[i].job != e.job;
    assert AddEvent(ioDone, t, e)[t] == before + [e];
  }

  lemma AddedAllPending(ioDone: map<int, seq<Event>>, e: Event, t: int, place: seq<Place>, from: int)
    requires AllPendingJobs(ioDone, place, from) && e.job < |place| && t >= from
    ensures AllPendingJobs(AddEvent(ioDone, t, e), place[e.job := Pending(t)], from)
  {
    hide HasEvent;
    var before := if t in ioDone then ioDone[t] else [];
    assert HasEvent(before + [e], e.job) by {
      HasLast(before, e);
    }
    forall m: nat | HasEvent(before, m)
      ensures HasEvent(before + [e], m)
    {
      HasEventIn(before, before + [e], m);
    }
  }

  lemma HasLast(events: seq<Event>, e: Event)
    ensures HasEvent(events + [e], e.job)
  {
    assert (events + [e])[|events|] == e;
  }

  /** A job that had no event due gets one. */
  lemma EventsAdded(ioDone: map<int, seq<Event>>, e: Event, t: int, job: seq<Job>, place: seq<Place>, job': seq<Job>,
                    place': seq<Place>, from: int)
    requires |job| == |place| == |job'| == |place'| && EventsOk(ioDone, job, place, from)
    requires e.job < |job| && !place[e.job].Pending? && t >= from
    requires place' == place[e.job := Pending(t)] && job' == job[e.job := job'[e.job]]
    requires job'[e.job].doingIO <==> !e.begins
    ensures EventsOk(AddEvent(ioDone, t, e), job', place', from)
  {
    hide OnlyPendingJobs, OneEventEach, AllPendingJobs;
    AddedOnlyPending(ioDone, e, t, job, place, job', place', from);
    AddedOnce(ioDone, e, t, job, place, from);
    AddedAllPending(ioDone, e, t, place, from);
  }

  lemma TakenOnlyPending(ioDone: map<int, seq<Event>>, now: int, e: Event, rest: seq<Event>, job: seq<Job>,
                         place: seq<Place>, job': seq<Job>, place': seq<Place>)
    requires |job| == |place| == |job'| == |place'| && e.job < |job|
    requires OnlyPendingJobs(ioDone[now := [e] + rest], job, place, now) && OneEventEach(ioDone[now := [e] + rest], now)
    requires place' == place[e.job := Queued] && job' == job[e.job := job'[e.job]]
    ensures place[e.job] == Pending(now)
    ensures OnlyPendingJobs(ioDone[now := rest], job', place', now)
  {
    var before: map<int, seq<Event>> := ioDone[now := [e] + rest];
    var after: map<int, seq<Event>> := ioDone[now := rest];
    assert before[now][0] == e;
    forall t, i | t in after && t >= now && 0 <= i < |after[t]|
      ensures after[t][i].job < |job| && after[t][i].job != e.job && place[after[t][i].job] == Pending(t)
      ensures job[after[t][i].job].doingIO <==> !after[t][i].begins
    {
      assert after[t][i] == before[t][if t == now then i + 1 else i];
    }
  }

  lemma TakenOnce(ioDone: map<int, seq<Event>>, now: int, e: Event, rest: seq<Event>)
    requires OneEventEach(ioDone[now := [e] + rest], now)
    ensures OneEventEach(ioDone[now := rest], now)
  {
    var before: map<int, seq<Event>> := ioDone[now := [e] + rest];
    var after: map<int, seq<Event>> := ioDone[now := rest];
    forall t, i, k | t in after && t >= now && 0 <= i < k < |after[t]|
      ensures after[t][i].job != after[t][k].job
    {
      var d := if t == now then 1 else 0;
      assert after[t][i] == before[t][i + d] && after[t][k] == before[t][k + d];
    }
  }

  lemma TakenAllPending(ioDone: map<int, seq<Event>>, now: int, e: Event, rest: seq<Event>, place: seq<Place>)
    requires AllPendingJobs(ioDone[now := [e] + rest], place, now) && e.job < |place|
    ensures AllPendingJobs(ioDone[now := rest], place[e.job := Queued], now)
  {
    hide HasEvent;
    forall m: nat | HasEvent([e] + rest, m) && m != e.job
      ensures HasEvent(rest, m)
    {
      HasRest(e, rest, m);
    }
  }

  lemma HasRest(e: Event, rest: seq<Event>, m: nat)
    requires HasEvent([e] + rest, m) && m != e.job
    ensures HasEvent(rest, m)
  {
    var events := [e] + rest;
    var i :| 0 <= i < |events| && events[i].job == m;
    assert rest[i - 1].job == m;
  }

  /** The first of the events due now is taken off the list. */
  lemma EventTaken(ioDone: map<int, seq<Event>>, now: int, e: Event, rest: seq<Event>, job: seq<Job>, place: seq<Place>,
                   job': seq<Job>, place': seq<Place>)
    requires |job| == |place| == |job'| == |place'| && EventsOk(ioDone[now := [e] + rest], job, place, now)
    requires e.job < |job|
    requires place' == place[e.job := Queued] && job' == job[e.job := job'[e.job]]
    ensures place[e.job] == Pending(now)
    ensures EventsOk(ioDone[now := rest], job', place', now)
  {
    hide OnlyPendingJobs, OneEventEach, AllPendingJobs;
    TakenOnlyPending(ioDone, now, e, rest, job, place, job', place');
    TakenOnce(ioDone, now, e, rest);
    TakenAllPending(ioDone, now, e, rest, place);
  }

  /** With nothing left for now, the events from the next time on are all there is. */
  lemma EventsPast(ioDone: map<int, seq<Event>>, now: int, job: seq<Job>, place: seq<Place>)
    requires |job| == |place| && EventsOk(ioDone[now := []], job, place, now)
    ensures EventsOk(ioDone, job, place, now + 1)
  {
    var before: map<int, seq<Event>> := ioDone[now := []];
    assert forall t :: t in ioDone && t > now ==> t in before && before[t] == ioDone[t];
  }

  // ----- counting -----

  lemma {:induction false} CountUpdated(job: seq<Job>, j: nat, x: Job)
    requires j < |job|
    ensures CountDone(job[j := x])
            == CountDone(job) + (if x.timeLeft == 0 then 1 else 0) - (if job[j].timeLeft == 0 then 1 else 0)
    decreases |job|
  {
    var last := |job| - 1;
    if j == last {
      assert job[j := x][..last] == job[..last];
    } else {
      CountUpdated(job[..last], j, x);
      assert job[j := x][..last] == job[..last][j := x];
    }
  }

  lemma {:induction false} CountSame(job: seq<Job>, job': seq<Job>)
    requires |job| == |job'| && forall j :: 0 <= j < |job| ==> (job[j].timeLeft == 0 <==> job'[j].timeLeft == 0)
    ensures CountDone(job) == CountDone(job')
  {
    if job != [] {
      CountSame(job[..|job| - 1], job'[..|job| - 1]);
    }
  }

  lemma {:induction false} AllDoneIff(job: seq<Job>)
    ensures CountDone(job) <= |job|
    ensures CountDone(job) == |job| <==> forall j :: 0 <= j < |job| ==> job[j].timeLeft == 0
  {
    if job != [] {
      var front := job[..|job| - 1];
      AllDoneIff(front);
      assert forall j :: 0 <= j < |front| ==> front[j] == job[j];
    }
  }

  // ----- boost -----

  lemma {:induction false} NoneDoingIO(jobs: seq<nat>, job: seq<Job>)
    requires forall i :: 0 <= i < |jobs| ==> jobs[i] < |job| && !job[jobs[i]].doingIO
    ensures NotDoingIO(jobs, job) == jobs
  {
    if jobs != [] {
      var front, last := jobs[..|jobs| - 1], jobs[|jobs| - 1];
      NoneDoingIO(front, job);
      assert front + [last] == jobs;
    }
  }

  /** A queue's elements are the jobs waiting at its priority. */
  lemma QueueHolds(queue: seq<seq<nat>>, job: seq<Job>, place: seq<Place>, q: nat)
    requires |job| == |place| && QueuesOk(queue, job, place) && q < |queue|
    ensures Distinct(queue[q])
    ensures forall x: nat :: x in queue[q] <==> x < |job| && place[x] == Queued && job[x].currPri == q
  {
  }

  lemma QueueKept(queue: seq<seq<nat>>, job: seq<Job>, place: seq<Place>, q: nat)
    requires |job| == |place| && QueuesOk(queue, job, place) && q < |queue|
    requires forall j :: 0 <= j < |job| && job[j].doingIO ==> place[j].Pending?
    ensures NotDoingIO(queue[q], job) == queue[q]
  {
    hide NotDoingIO;
    NoneDoingIO(queue[q], job);
  }

  /** The collected jobs are those of the lower queues, each once. */
  lemma {:induction false} CollectedJobs(queue: seq<seq<nat>>, job: seq<Job>, place: seq<Place>, k: nat)
    requires |job| == |place| && QueuesOk(queue, job, place) && k <= |queue|
    requires forall j :: 0 <= j < |job| && job[j].doingIO ==> place[j].Pending?
    ensures Distinct(Collected(queue, job, k))
    ensures forall x: nat :: x in Collected(queue, job, k) <==>
              x < |job| && place[x] == Queued && 0 <= job[x].currPri < k
  {
    hide Distinct, NotDoingIO, QueuesOk;
    if k == 0 {
      NoneDistinct<nat>();
    } else {
      CollectedJobs(queue, job, place, k - 1);
      var last := queue[k - 1];
      QueueKept(queue, job, place, k - 1);
      QueueHolds(queue, job, place, k - 1);
      DistinctJoin(Collected(queue, job, k - 1), last);
    }
  }

  /** One queue that holds all the waiting jobs. */
  lemma OneQueueHoldsAll(queue: seq<seq<nat>>, job: seq<Job>, place: seq<Place>, hi: nat)
    requires |job| == |place| && hi < |queue| && Distinct(queue[hi])
    requires forall q :: 0 <= q < |queue| && q != hi ==> queue[q] == []
    requires forall x: nat :: x in queue[hi] <==> x < |job| && place[x] == Queued
    requires forall j :: 0 <= j < |job| && place[j] == Queued ==> job[j].currPri == hi
    ensures QueuesOk(queue, job, place)
  {
    assert forall q, i :: 0 <= q < |queue| && 0 <= i < |queue[q]| ==> q == hi && queue[q][i] in queue[hi];
  }

  lemma BoostedQueues(cfg: Config, s: State, place: seq<Place>)
    requires cfg.Valid() && |s.queue| == cfg.numQueues && |s.job| == |place| && QueuesOk(s.queue, s.job, place)
    requires forall j :: 0 <= j < |s.job| && s.job[j].doingIO ==> place[j].Pending?
    requires forall j :: 0 <= j < |s.job| && place[j] == Queued ==>
               s.job[j].timeLeft > 0 && 0 <= s.job[j].currPri < |s.queue|
    ensures QueuesOk(Boost(cfg, s).queue, Boost(cfg, s).job, place)
  {
    hide QueuesOk, Distinct, Collected;
    var hi := cfg.HiQueue();
    CollectedJobs(s.queue, s.job, place, hi);
    QueueHolds(s.queue, s.job, place, hi);
    DistinctJoin(s.queue[hi], Collected(s.queue, s.job, hi));
    OneQueueHoldsAll(Boost(cfg, s).queue, Boost(cfg, s).job, place, hi);
  }

  lemma BoostedJobsOk(cfg: Config, s: State, place: seq<Place>)
    requires Sizes(cfg, s, place) && JobsOk(cfg, s, place)
    ensures JobsOk(cfg, Boost(cfg, s), place)
  {
    hide CountDone, Clock, IosDue;
    var b := Boost(cfg, s);
    CountSame(s.job, b.job);
    forall j | 0 <= j < |b.job|
      ensures JobOk(cfg, cfg.jobs[j], b.job[j], place[j], b.currTime)
    {
      BoostedJobOk(cfg, cfg.jobs[j], s.job[j], place[j], s.currTime);
    }
  }

  lemma BoostedJobOk(cfg: Config, spec: JobSpec, job: Job, place: Place, now: int)
    requires cfg.Valid() && JobOk(cfg, spec, job, place, now)
    ensures JobOk(cfg, spec, BoostedJob(cfg, job), place, now)
  {
  }

  /** A boost moves every waiting job to the top and changes no job's place, progress or events. */
  lemma BoostKeepsInv(cfg: Config, s: State, place: seq<Place>)
    requires Inv(cfg, s, place, s.currTime)
    ensures Inv(cfg, Boost(cfg, s), place, s.currTime)
  {
    hide QueuesOk, AllPendingJobs, OneEventEach, CountDone, Clock, IosDue, Collected;
    var b := Boost(cfg, s);
    BoostedJobsOk(cfg, s, place);
    assert forall j :: 0 <= j < |s.job| ==> JobOk(cfg, cfg.jobs[j], s.job[j], place[j], s.currTime);
    BoostedQueues(cfg, s, place);
    hide JobsOk, JobOk;
    assert OnlyPendingJobs(b.ioDone, b.job, place, s.currTime);
  }

  // ----- events that are due -----

  /** The state with only these events left for now. */
  function WithDue(s: State, due: seq<Event>): State {
    s.(ioDone := s.ioDone[s.currTime := due])
  }

  /** Delivering gives no job any running time and changes no priority. */
  predicate TimesKept(s: State, d: State) {
    && |d.job| == |s.job| && |d.queue| == |s.queue|
    && forall j :: 0 <= j < |s.job| ==> d.job[j] == s.job[j].(doingIO := d.job[j].doingIO)
  }

  lemma DeliveredJobsOk(cfg: Config, s: State, place: seq<Place>, e: Event, due: seq<Event>, rest: seq<Event>)
    requires Sizes(cfg, s, place) && JobsOk(cfg, WithDue(s, due), place)
    requires e.job < |s.job| && place[e.job] == Pending(s.currTime)
    ensures var d := WithDue(DeliverOne(cfg, s, e), rest);
            Sizes(cfg, d, place[e.job := Queued]) && JobsOk(cfg, d, place[e.job := Queued])
  {
    hide IosDue, CountDone;
    assert JobOk(cfg, cfg.jobs[e.job], s.job[e.job], place[e.job], s.currTime);
    var job' := s.job[e.job := s.job[e.job].(doingIO := false)];
    assert DeliverOne(cfg, s, e).job == job';
    CountUpdated(s.job, e.job, job'[e.job]);
  }

  lemma DeliveredOne(cfg: Config, s: State, place: seq<Place>, e: Event, rest: seq<Event>)
    requires Inv(cfg, WithDue(s, [e] + rest), place, s.currTime)
    ensures e.job < |place|
    ensures Inv(cfg, WithDue(DeliverOne(cfg, s, e), rest), place[e.job := Queued], s.currTime)
  {
    hide IosDue, CountDone, Clock, QueuesOk, OneEventEach, AllPendingJobs;
    var before := WithDue(s, [e] + rest);
    assert before.ioDone[s.currTime][0] == e;
    assert e.job < |s.job|;
    hide OnlyPendingJobs;
    var job' := s.job[e.job := s.job[e.job].(doingIO := false)];
    var place' := place[e.job := Queued];
    EventTaken(s.ioDone, s.currTime, e, rest, s.job, place, job', place');
    hide EventsOk;
    assert JobOk(cfg, cfg.jobs[e.job], s.job[e.job], place[e.job], s.currTime);
    PushedQueues(s.queue, e.job, s.job, place, job', place', !cfg.iobump || e.begins);
    DeliveredJobsOk(cfg, s, place, e, [e] + rest, rest);
    hide JobsOk, Sizes;
  }

  lemma EventsKept(cfg: Config, s: State, place: seq<Place>)
    requires Inv(cfg, s, place, s.currTime)
    ensures Inv(cfg, WithDue(s, EventsAt(s, s.currTime)), place, s.currTime)
  {
    var after := WithDue(s, EventsAt(s, s.currTime)).ioDone;
    assert forall t :: t in s.ioDone ==> t in after && after[t] == s.ioDone[t];
    assert forall t :: t in after && t !in s.ioDone ==> after[t] == [];
  }

  /** Delivering the first i events due. */
  lemma {:induction false} DeliveredUpTo(cfg: Config, s: State, place: seq<Place>, i: nat) returns (place': seq<Place>)
    requires Inv(cfg, s, place, s.currTime) && i <= |EventsAt(s, s.currTime)|
    ensures var d := DeliverUpTo(cfg, s, EventsAt(s, s.currTime), i);
            && d.currTime == s.currTime && d.ioDone == s.ioDone && TimesKept(s, d)
            && Inv(cfg, WithDue(d, EventsAt(s, s.currTime)[i..]), place', s.currTime)
  {
    hide JobsOk, QueuesOk, EventsOk;
    var due := EventsAt(s, s.currTime);
    if i == 0 {
      place' := place;
      EventsKept(cfg, s, place);
      assert due[0..] == due;
    } else {
      var place1 := DeliveredUpTo(cfg, s, place, i - 1);
      var d := DeliverUpTo(cfg, s, due, i - 1);
      assert due[i - 1..] == [due[i - 1]] + due[i..];
      DeliveredOne(cfg, d, place1, due[i - 1], due[i..]);
      place' := place1[due[i - 1].job := Queued];
    }
  }

  /** After the deliveries nothing is left for now. */
  lemma DeliverKeepsInv(cfg: Config, s: State, place: seq<Place>) returns (place': seq<Place>)
    requires Inv(cfg, s, place, s.currTime)
    ensures var d := Deliver(cfg, s); d.currTime == s.currTime && d.ioDone == s.ioDone && TimesKept(s, d)
    ensures Inv(cfg, Deliver(cfg, s), place', s.currTime + 1)
  {
    var due := EventsAt(s, s.currTime);
    place' := DeliveredUpTo(cfg, s, place, |due|);
    var d := Deliver(cfg, s);
    assert due[|due|..] == [];
    EventsPast(d.ioDone, s.currTime, d.job, place');
  }

  // ----- one tick -----

  /** The job at the front of the queue found may run. */
  lemma FrontRuns(cfg: Config, s: State, place: seq<Place>, q: nat)
    requires Inv(cfg, s, place, s.currTime + 1) && q < |s.queue| && |s.queue[q]| > 0
    ensures Runnable(cfg, s, q) && place[s.queue[q][0]] == Queued
    ensures JobOk(cfg, cfg.jobs[s.queue[q][0]], s.job[s.queue[q][0]], Queued, s.currTime)
  {
    assert OnlyQueuedJobs(s.queue, s.job, place);
    assert s.queue[q][0] < |s.job|;
  }

  lemma StepDue(x: int, f: int)
    requires x > 0 && f > 0
    ensures x / f == (x - 1) / f + if x % f == 0 then 1 else 0
  {
    var k, r := x / f, x % f;
    assert x == k * f + r;
    if r == 0 {
      DivModUnique(x - 1, k - 1, f - 1, f);
    } else {
      DivModUnique(x - 1, k, r - 1, f);
    }
  }

  /** Running for one unit of time makes an I/O due exactly when the tick issues one. */
  lemma IosAfterTick(spec: JobSpec, timeLeft: int)
    requires 0 <= timeLeft < spec.runTime
    ensures timeLeft == 0 ==> IosDue(spec, timeLeft) == IosDue(spec, timeLeft + 1)
    ensures timeLeft > 0 ==>
              IosDue(spec, timeLeft) == IosDue(spec, timeLeft + 1) + if IssuesIO(spec, timeLeft) then 1 else 0
  {
    if spec.ioFreq > 0 && timeLeft > 0 {
      StepDue(spec.runTime - timeLeft, spec.ioFreq);
    }
  }

  /** Where the job that ran is after the tick. */
  function PlaceAfter(cfg: Config, spec: JobSpec, timeLeft: int, now: int): Place {
    if timeLeft == 0 then Done
    else if IssuesIO(spec, timeLeft) then Pending(now + cfg.ioTime)
    else Queued
  }

  function PlacesAfter(cfg: Config, s: State, place: seq<Place>, q: nat): seq<Place>
    requires Sizes(cfg, s, place) && Runnable(cfg, s, q)
  {
    var j := s.queue[q][0];
    place[j := PlaceAfter(cfg, cfg.jobs[j], s.job[j].timeLeft - 1, s.currTime + 1)]
  }

  lemma TickedJobOk(cfg: Config, s: State, place: seq<Place>, q: nat)
    requires Inv(cfg, s, place, s.currTime + 1) && Runnable(cfg, s, q) && place[s.queue[q][0]] == Queued
    ensures var j := s.queue[q][0];
            var place' := PlacesAfter(cfg, s, place, q);
            JobOk(cfg, cfg.jobs[j], Tick(cfg, s, q).job[j], place'[j], s.currTime + 1)
  {
    hide QueuesOk, EventsOk, IosDue, IssuesIO, TickedQueues, AddEvent;
    var j := s.queue[q][0];
    var spec, left := cfg.jobs[j], s.job[j].timeLeft - 1;
    assert JobOk(cfg, spec, s.job[j], Queued, s.currTime);
    assert left >= 0;
    IosAfterTick(spec, left);
    var ios := IosDue(spec, left + 1);
    assert cfg.ioTime * (ios + 1) == cfg.ioTime * ios + cfg.ioTime;
  }

  lemma TickedJobsOk(cfg: Config, s: State, place: seq<Place>, q: nat)
    requires Inv(cfg, s, place, s.currTime + 1) && Runnable(cfg, s, q) && place[s.queue[q][0]] == Queued
    ensures JobsOk(cfg, Tick(cfg, s, q), PlacesAfter(cfg, s, place, q))
  {
    hide QueuesOk, EventsOk, TickedQueues, AddEvent, IosDue, IssuesIO;
    var j := s.queue[q][0];
    TickedJobOk(cfg, s, place, q);
    var after := Tick(cfg, s, q);
    assert JobOk(cfg, cfg.jobs[j], s.job[j], Queued, s.currTime);
    CountUpdated(s.job, j, after.job[j]);
    assert after.job == s.job[j := after.job[j]];
    hide TickedJob, Tick;
    var place' := PlacesAfter(cfg, s, place, q);
    forall m | 0 <= m < |after.job|
      ensures JobOk(cfg, cfg.jobs[m], after.job[m], place'[m], after.currTime)
    {
      if m != j {
        assert JobOk(cfg, cfg.jobs[m], s.job[m], place[m], s.currTime);
      }
    }
  }

  lemma TickedQueuesOk(cfg: Config, s: State, place: seq<Place>, q: nat)
    requires Inv(cfg, s, place, s.currTime + 1) && Runnable(cfg, s, q) && place[s.queue[q][0]] == Queued
    ensures QueuesOk(Tick(cfg, s, q).queue, Tick(cfg, s, q).job, PlacesAfter(cfg, s, place, q))
  {
    var j := s.queue[q][0];
    var after, place' := Tick(cfg, s, q), PlacesAfter(cfg, s, place, q);
    var left := s.job[j].timeLeft - 1;
    assert after.job == s.job[j := after.job[j]];
    TickedJobsOk(cfg, s, place, q);
    assert JobOk(cfg, cfg.jobs[j], after.job[j], place'[j], after.currTime);
    if place'[j] != Queued {
      PoppedQueues(s.queue, q, s.job, place, after.job, place');
    } else if s.job[j].ticksLeft - 1 == 0 {
      var popped := s.queue[q := s.queue[q][1..]];
      var gone := place[j := Done];
      PoppedQueues(s.queue, q, s.job, place, after.job, gone);
      PushedQueues(popped, j, after.job, gone, after.job, place', true);
      assert Grown(popped[after.job[j].currPri], j, true) == popped[after.job[j].currPri] + [j];
    } else {
      assert place' == place;
    }
  }

  lemma TickedEventsOk(cfg: Config, s: State, place: seq<Place>, q: nat)
    requires Inv(cfg, s, place, s.currTime + 1) && Runnable(cfg, s, q) && place[s.queue[q][0]] == Queued
    ensures EventsOk(Tick(cfg, s, q).ioDone, Tick(cfg, s, q).job, PlacesAfter(cfg, s, place, q), s.currTime + 1)
  {
    hide QueuesOk, EventsOk, TickedQueues, AddEvent;
    var j := s.queue[q][0];
    var after, place' := Tick(cfg, s, q), PlacesAfter(cfg, s, place, q);
    assert after.job == s.job[j := after.job[j]];
    if place'[j].Pending? {
      EventsAdded(s.ioDone, Event(j, false), place'[j].time, s.job, place, after.job, place', s.currTime + 1);
    } else {
      EventsUntouched(s.ioDone, j, s.job, place, after.job, place', s.currTime + 1);
    }
  }

  lemma TickKeepsInv(cfg: Config, s: State, place: seq<Place>, q: nat)
    requires Inv(cfg, s, place, s.currTime + 1) && Runnable(cfg, s, q) && place[s.queue[q][0]] == Queued
    ensures Inv(cfg, Tick(cfg, s, q), PlacesAfter(cfg, s, place, q), s.currTime + 1)
  {
    hide QueuesOk, EventsOk, JobsOk;
    TickedJobsOk(cfg, s, place, q);
    TickedQueuesOk(cfg, s, place, q);
    TickedEventsOk(cfg, s, place, q);
  }

  lemma IdleKeepsInv(cfg: Config, s: State, place: seq<Place>)
    requires Inv(cfg, s, place, s.currTime + 1)
    ensures Inv(cfg, s.(currTime := s.currTime + 1), place, s.currTime + 1)
  {
    hide QueuesOk, EventsOk;
    forall j | 0 <= j < |s.job|
      ensures JobOk(cfg, cfg.jobs[j], s.job[j], place[j], s.currTime + 1)
    {
      assert JobOk(cfg, cfg.jobs[j], s.job[j], place[j], s.currTime);
    }
  }

  // ----- a turn -----

  lemma ReadyInv(cfg: Config, s: State, place: seq<Place>) returns (place': seq<Place>)
    requires Inv(cfg, s, place, s.currTime)
    ensures var r := Ready(cfg, s);
            r.currTime == s.currTime && r.ioDone == s.ioDone && Inv(cfg, r, place', s.currTime + 1)
  {
    hide JobsOk, QueuesOk, EventsOk;
    var b := if BoostDue(cfg, s.currTime) then Boost(cfg, s) else s;
    if BoostDue(cfg, s.currTime) {
      BoostKeepsInv(cfg, s, place);
    }
    place' := DeliverKeepsInv(cfg, b, place);
  }

  /** No turn aborts, and every turn keeps the invariant. */
  lemma TurnKeepsInv(cfg: Config, s: State, place: seq<Place>) returns (place': seq<Place>)
    requires Inv(cfg, s, place, s.currTime)
    ensures Turn(cfg, s).Next?
    ensures var s' := Turn(cfg, s).state; s'.currTime == s.currTime + 1 && Inv(cfg, s', place', s'.currTime)
  {
    hide JobsOk, QueuesOk, EventsOk, Ready, TickedJob, TickedQueues;
    var place1 := ReadyInv(cfg, s, place);
    var r := Ready(cfg, s);
    var q := FindQueue(r.queue, |r.queue|);
    if q == -1 {
      IdleKeepsInv(cfg, r, place1);
      place' := place1;
    } else {
      FrontRuns(cfg, r, place1, q);
      TickKeepsInv(cfg, r, place1, q);
      place' := PlacesAfter(cfg, r, place1, q);
    }
  }
}
