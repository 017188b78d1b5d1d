/** The approximate counter: threads that increment counters of their own core and now and then add them to a global
counter, with every load, store, lock and unlock a step of its own. */
module ApproxCounter {
  import opened Options

  /** Where a thread is. In an increment it names the core; the values it has loaded are its registers. */
  datatype Thread =
    | Idle
    | LockCore(core: nat)
    | LoadOwn(core: nat)
    | StoreOwn(core: nat, own: nat)
    | Compare(core: nat)
    | LockGlobal(core: nat)
    | LoadGlobal(core: nat)
    | LoadToAdd(core: nat, total: nat)
    | StoreGlobal(core: nat, total: nat, own: nat)
    | UnlockGlobal(core: nat)
    | Zero(core: nat)
    | UnlockCore(core: nat)
    | Read(next: nat, count: nat, first: nat, doneThen: nat)

  /** The shared memory and the threads. Two counts are kept for the statements only: the increments stored so far,
  and the calls of increment that have returned. */
  datatype State = State(
    threshold: nat, total: nat, own: seq<nat>, globalLock: Option<nat>, coreLock: seq<Option<nat>>,
    threads: seq<Thread>, done: nat, returned: nat)

  /** What an idle thread does next. */
  datatype Call = Increment(core: nat) | Get

  function Start(cores: nat, threshold: nat, threads: nat): State {
    State(threshold, 0, seq(cores, _ => 0), None, seq(cores, _ => None), seq(threads, _ => Idle), 0, 0)
  }

  function At(s: State, t: nat, next: Thread): State
    requires t < |s.threads|
  {
    s.(threads := s.threads[t := next])
  }

  /** One step of thread t, or None when it has to wait for a lock. */
  function Step(s: State, t: nat, call: Call): Option<State>
    requires t < |s.threads| && |s.own| == |s.coreLock|
    requires s.threads[t].Idle? || s.threads[t].Read? || s.threads[t].core < |s.own|
    requires call.Increment? ==> call.core < |s.own|
  {
    match s.threads[t]
    case Idle =>
      Some(match call
           case Increment(c) => At(s, t, LockCore(c))
           case Get => At(s, t, Read(0, s.total, s.total, s.done)))
    case LockCore(c) =>
      if s.coreLock[c].None? then Some(At(s, t, LoadOwn(c)).(coreLock := s.coreLock[c := Some(t)])) else None
    case LoadOwn(c) => Some(At(s, t, StoreOwn(c, s.own[c])))
    case StoreOwn(c, own) => Some(At(s, t, Compare(c)).(own := s.own[c := own + 1], done := s.done + 1))
    case Compare(c) => Some(At(s, t, if s.own[c] >= s.threshold then LockGlobal(c) else UnlockCore(c)))
    case LockGlobal(c) =>
      if s.globalLock.None? then Some(At(s, t, LoadGlobal(c)).(globalLock := Some(t))) else None
    case LoadGlobal(c) => Some(At(s, t, LoadToAdd(c, s.total)))
    case LoadToAdd(c, total) => Some(At(s, t, StoreGlobal(c, total, s.own[c])))
    case StoreGlobal(c, total, own) => Some(At(s, t, UnlockGlobal(c)).(total := total + own))
    case UnlockGlobal(c) => Some(At(s, t, Zero(c)).(globalLock := None))
    case Zero(c) => Some(At(s, t, UnlockCore(c)).(own := s.own[c := 0]))
    case UnlockCore(c) => Some(At(s, t, Idle).(coreLock := s.coreLock[c := None], returned := s.returned + 1))
    case Read(i, count, first, doneThen) =>
      if i < |s.own| then Some(At(s, t, Read(i + 1, count + s.own[i], first, doneThen))) else Some(At(s, t, Idle))
  }

  // ----- the invariant -----

  predicate HoldsCore(th: Thread) {
    !th.Idle? && !th.LockCore? && !th.Read?
  }

  predicate HoldsGlobal(th: Thread) {
    th.LoadGlobal? || th.LoadToAdd? || th.StoreGlobal? || th.UnlockGlobal?
  }

  /** Its core's counter has been added to the global one but not yet set to zero. */
  predicate InTransit(th: Thread) {
    th.UnlockGlobal? || th.Zero?
  }

  /** The increment is stored, but the call has not returned. */
  predicate Stored(th: Thread) {
    HoldsCore(th) && !th.LoadOwn? && !th.StoreOwn?
  }

  /** Its core's counter has reached the threshold, and is on its way to the global one. */
  predicate Passing(th: Thread) {
    HoldsGlobal(th) || th.LockGlobal? || th.Zero?
  }

  /** A counter never exceeds this, and is below it while its lock is free. */
  function Limit(s: State): nat {
    if s.threshold == 0 then 1 else s.threshold
  }

  /** A core's lock is held by exactly the thread that believes it holds it. */
  ghost predicate CoreLocksOk(threads: seq<Thread>, coreLock: seq<Option<nat>>) {
    && (forall t :: 0 <= t < |threads| && HoldsCore(threads[t]) ==>
          threads[t].core < |coreLock| && coreLock[threads[t].core] == Some(t))
    && (forall c :: 0 <= c < |coreLock| && coreLock[c].Some? ==>
          && coreLock[c].value < |threads| && HoldsCore(threads[coreLock[c].value])
          && threads[coreLock[c].value].core == c)
  }

  ghost predicate GlobalLockOk(threads: seq<Thread>, globalLock: Option<nat>) {
    && (forall t :: 0 <= t < |threads| && HoldsGlobal(threads[t]) ==> globalLock == Some(t))
    && (globalLock.Some? ==> globalLock.value < |threads| && HoldsGlobal(threads[globalLock.value]))
  }

  ghost predicate LocksOk(s: State) {
    && |s.coreLock| == |s.own|
    && CoreLocksOk(s.threads, s.coreLock)
    && GlobalLockOk(s.threads, s.globalLock)
  }

  /** What core c holds that the global counter does not. */
  function Share(s: State, c: nat): nat
    requires c < |s.own| == |s.coreLock|
  {
    if s.coreLock[c].Some? && s.coreLock[c].value < |s.threads| && InTransit(s.threads[s.coreLock[c].value]) then 0
    else s.own[c]
  }

  function Shares(s: State): seq<nat>
    requires |s.coreLock| == |s.own|
  {
    seq(|s.own|, c requires 0 <= c < |s.own| => Share(s, c))
  }

  function Sum(a: seq<nat>): nat {
    if a == [] then 0 else Sum(a[..|a| - 1]) + a[|a| - 1]
  }

  function CountStored(threads: seq<Thread>): nat {
    if threads == [] then 0
    else CountStored(threads[..|threads| - 1]) + if Stored(threads[|threads| - 1]) then 1 else 0
  }

  /** What a thread knows of the counters it has loaded, and how large its core's counter can be. */
  predicate ThreadOk(s: State, th: Thread) {
    if th.Idle? then true
    else if th.Read? then
      && th.next <= |s.own|
      && th.first <= th.count <= th.first + th.next * Limit(s)
      && th.first <= th.doneThen <= th.first + |s.own| * Limit(s)
    else
      && th.core < |s.own|
      && (th.LoadOwn? || th.StoreOwn? || th.UnlockCore? ==> s.own[th.core] < Limit(s))
      && (th.Compare? ==> s.own[th.core] > 0)
      && (Passing(th) ==> s.own[th.core] == Limit(s))
      && (th.LoadToAdd? || th.StoreGlobal? ==> th.total == s.total)
      && (th.StoreOwn? || th.StoreGlobal? ==> th.own == s.own[th.core])
  }

  /** A core's counter is within the limit, and below it while its lock is free. */
  predicate CoreOk(s: State, c: nat)
    requires c < |s.own| == |s.coreLock|
  {
    s.own[c] <= Limit(s) && (s.coreLock[c].None? ==> s.own[c] < Limit(s))
  }

  ghost predicate Inv(s: State) {
    && LocksOk(s)
    && (forall t :: 0 <= t < |s.threads| ==> ThreadOk(s, s.threads[t]))
    && (forall c :: 0 <= c < |s.own| ==> CoreOk(s, c))
    && s.total + Sum(Shares(s)) == s.done
    && s.done == s.returned + CountStored(s.threads)
  }

  // ----- sums -----

  lemma {:induction false} SumUpdated(a: seq<nat>, c: nat, x: nat)
    requires c < |a|
    ensures Sum(a[c := x]) == Sum(a) - a[c] + x
    decreases |a|
  {
    var last := |a| - 1;
    if c == last {
      assert a[c := x][..last] == a[..last];
    } else {
      SumUpdated(a[..last], c, x);
      assert a[c := x][..last] == a[..last][c := x];
    }
  }

  lemma {:induction false} SumBound(a: seq<nat>, limit: nat)
    requires forall c :: 0 <= c < |a| ==> a[c] <= limit
    ensures Sum(a) <= |a| * limit
  {
    if a != [] {
      SumBound(a[..|a| - 1], limit);
      assert |a| * limit == (|a| - 1) * limit + limit;
    }
  }

  lemma {:induction false} CountUpdated(threads: seq<Thread>, t: nat, th: Thread)
    requires t < |threads|
    ensures CountStored(threads[t := th]) ==
            CountStored(threads) - (if Stored(threads[t]) then 1 else 0) + if Stored(th) then 1 else 0
    decreases |threads|
  {
    var last := |threads| - 1;
    if t == last {
      assert threads[t := th][..last] == threads[..last];
    } else {
      CountUpdated(threads[..last], t, th);
      assert threads[t := th][..last] == threads[..last][t := th];
    }
  }

  lemma {:induction false} SumZero(n: nat)
    ensures Sum(seq(n, _ => 0)) == 0
  {
    if n > 0 {
      SumZero(n - 1);
      assert seq(n, _ => 0)[..n - 1] == seq(n - 1, _ => 0);
    }
  }

  lemma {:induction false} NoneStored(threads: seq<Thread>)
    requires forall t :: 0 <= t < |threads| ==> !Stored(threads[t])
    ensures CountStored(threads) == 0
  {
    if threads != [] {
      NoneStored(threads[..|threads| - 1]);
    }
  }

  // ----- every step keeps it -----

  lemma StartInv(cores: nat, threshold: nat, threads: nat)
    ensures Inv(Start(cores, threshold, threads))
  {
    var s := Start(cores, threshold, threads);
    SumZero(cores);
    assert Shares(s) == seq(cores, _ => 0);
    NoneStored(s.threads);
  }

  predicate CanStep(s: State, t: nat, call: Call) {
    && t < |s.threads| && |s.own| == |s.coreLock|
    && (s.threads[t].Idle? || s.threads[t].Read? || s.threads[t].core < |s.own|)
    && (call.Increment? ==> call.core < |s.own|)
  }

  /** What a step of thread t can change, whichever step it is. */
  predicate Effect(s: State, s': State, t: nat) {
    && t < |s.threads| && |s.coreLock| == |s.own| && t < |s'.threads|
    && s'.threads == s.threads[t := s'.threads[t]] && s'.threshold == s.threshold && |s'.own| == |s.own|
    && LockChange(s.threads[t], s'.threads[t], s.coreLock, s'.coreLock, t)
    && GlobalChange(s.threads[t], s'.threads[t], s.globalLock, s'.globalLock, t)
    && (if HoldsCore(s.threads[t]) then
          s.threads[t].core < |s.own| && s'.own == s.own[s.threads[t].core := s'.own[s.threads[t].core]]
        else s'.own == s.own)
    && (!HoldsGlobal(s.threads[t]) ==> s'.total == s.total)
  }

  predicate LockChange(th: Thread, th': Thread, locks: seq<Option<nat>>, locks': seq<Option<nat>>, t: nat) {
    if HoldsCore(th) then
      && th.core < |locks|
      && if HoldsCore(th') then th'.core == th.core && locks' == locks else locks' == locks[th.core := None]
    else if HoldsCore(th') then
      && th'.LoadOwn? && th'.core < |locks| && locks[th'.core].None?
      && locks' == locks[th'.core := Some(t)]
    else locks' == locks
  }

  predicate GlobalChange(th: Thread, th': Thread, locked: Option<nat>, locked': Option<nat>, t: nat) {
    if HoldsGlobal(th) then locked' == if HoldsGlobal(th') then locked else None
    else if HoldsGlobal(th') then locked.None? && locked' == Some(t)
    else locked' == locked
  }

  lemma StepEffect(s: State, t: nat, call: Call)
    requires CanStep(s, t, call) && Step(s, t, call).Some?
    ensures Effect(s, Step(s, t, call).value, t)
  {
  }

  lemma EffectKeepsCoreLocks(threads: seq<Thread>, locks: seq<Option<nat>>, t: nat, th': Thread,
        locks': seq<Option<nat>>)
    requires t < |threads| && CoreLocksOk(threads, locks) && LockChange(threads[t], th', locks, locks', t)
    ensures CoreLocksOk(threads[t := th'], locks')
  {
    var threads' := threads[t := th'];
    assert forall u :: 0 <= u < |threads| && u != t ==> threads'[u] == threads[u];
  }

  lemma EffectKeepsLocks(s: State, s': State, t: nat)
    requires LocksOk(s) && Effect(s, s', t)
    ensures LocksOk(s')
  {
    hide HoldsCore, HoldsGlobal, LockChange, CoreLocksOk;
    EffectKeepsCoreLocks(s.threads, s.coreLock, t, s'.threads[t], s'.coreLock);
    EffectSizes(s, s', t);
  }

  /** Only the share of the core that the thread holds can change. */
  lemma EffectOnShares(s: State, s': State, t: nat, c: nat)
    requires LocksOk(s) && Effect(s, s', t) && LocksOk(s') && c < |s.own|
    requires HoldsCore(s.threads[t]) ==> c != s.threads[t].core
    ensures Share(s', c) == Share(s, c)
  {
  }

  /** The step moves value between the global counter, the shares and the count without losing any. */
  lemma StepOwnShare(s: State, t: nat, call: Call)
    requires LocksOk(s) && CanStep(s, t, call) && Step(s, t, call).Some? && ThreadOk(s, s.threads[t])
    requires HoldsCore(s.threads[t]) && LocksOk(Step(s, t, call).value)
    ensures var s', c := Step(s, t, call).value, s.threads[t].core;
            |s'.own| == |s.own| && s'.total + Share(s', c) - s'.done == s.total + Share(s, c) - s.done
  {
    var c := s.threads[t].core;
    assert s.coreLock[c] == Some(t);
  }

  lemma StepShares(s: State, t: nat, call: Call)
    requires LocksOk(s) && CanStep(s, t, call) && Step(s, t, call).Some? && ThreadOk(s, s.threads[t])
    ensures var s' := Step(s, t, call).value;
            LocksOk(s') && s'.total + Sum(Shares(s')) - s'.done == s.total + Sum(Shares(s)) - s.done
  {
    var s' := Step(s, t, call).value;
    StepEffect(s, t, call);
    EffectKeepsLocks(s, s', t);
    if HoldsCore(s.threads[t]) {
      var c := s.threads[t].core;
      StepOwnShare(s, t, call);
      hide Step, LocksOk, Share, HoldsCore, Effect, Sum;
      assert |s'.own| == |s.own|;
      forall d: nat | d < |s.own| && d != c
        ensures Share(s', d) == Share(s, d)
      {
        EffectOnShares(s, s', t, d);
      }
      assert Shares(s') == Shares(s)[c := Share(s', c)];
      SumUpdated(Shares(s), c, Share(s', c));
    } else {
      StepElsewhere(s, t, call);
      hide Step, LocksOk, Share, HoldsCore, Sum;
      forall d: nat | d < |s.own|
        ensures Share(s', d) == Share(s, d)
      {
        EffectOnShares(s, s', t, d);
      }
      assert Shares(s') == Shares(s);
    }
  }

  lemma StepElsewhere(s: State, t: nat, call: Call)
    requires CanStep(s, t, call) && Step(s, t, call).Some? && !HoldsCore(s.threads[t])
    ensures Step(s, t, call).value.total == s.total && Step(s, t, call).value.done == s.done
  {
  }

  /** What another thread knows stays true, because it holds the locks that guard it. */
  lemma EffectKeepsThread(s: State, s': State, t: nat, u: nat)
    requires LocksOk(s) && Effect(s, s', t) && u < |s.threads| && u != t && ThreadOk(s, s.threads[u])
    ensures ThreadOk(s', s'.threads[u])
  {
    assert s'.threads[u] == s.threads[u];
  }

  lemma SharesWithin(s: State)
    requires |s.coreLock| == |s.own| && forall c :: 0 <= c < |s.own| ==> CoreOk(s, c)
    ensures forall c :: 0 <= c < |Shares(s)| ==> Shares(s)[c] <= Limit(s)
  {
    forall c | 0 <= c < |Shares(s)|
      ensures Shares(s)[c] <= Limit(s)
    {
      assert CoreOk(s, c);
    }
  }

  /** The global counter never exceeds the increments stored, and lags behind them by at most the limit per core. */
  lemma WithinLimits(s: State)
    requires Inv(s)
    ensures s.total <= s.done <= s.total + |s.own| * Limit(s)
  {
    SharesWithin(s);
    hide CoreOk, Sum;
    SumBound(Shares(s), Limit(s));
  }

  lemma BeginsRead(s: State, t: nat, call: Call)
    requires Inv(s) && CanStep(s, t, call) && s.threads[t].Idle?
    ensures Step(s, t, call).Some? && ThreadOk(Step(s, t, call).value, Step(s, t, call).value.threads[t])
  {
    WithinLimits(s);
    hide LocksOk, Sum, CountStored, Shares, CoreOk;
  }

  lemma ReadsNext(s: State, t: nat, call: Call)
    requires Inv(s) && CanStep(s, t, call) && s.threads[t].Read?
    ensures Step(s, t, call).Some? && ThreadOk(Step(s, t, call).value, Step(s, t, call).value.threads[t])
  {
    hide LocksOk, Sum, CountStored;
    var th := s.threads[t];
    assert ThreadOk(s, th);
    assert (th.next + 1) * Limit(s) == th.next * Limit(s) + Limit(s);
    assert th.next < |s.own| ==> CoreOk(s, th.next);
  }

  /** What the thread knows after its own step. */
  lemma StepOwnThread(s: State, t: nat, call: Call)
    requires Inv(s) && CanStep(s, t, call) && Step(s, t, call).Some?
    ensures ThreadOk(Step(s, t, call).value, Step(s, t, call).value.threads[t])
  {
    var th := s.threads[t];
    if th.Idle? {
      BeginsRead(s, t, call);
    } else if th.Read? {
      ReadsNext(s, t, call);
    } else {
      IncrementsOn(s, t, call);
    }
  }

  lemma IncrementsOn(s: State, t: nat, call: Call)
    requires Inv(s) && CanStep(s, t, call) && !s.threads[t].Idle? && !s.threads[t].Read? && Step(s, t, call).Some?
    ensures ThreadOk(Step(s, t, call).value, Step(s, t, call).value.threads[t])
  {
    hide Sum, CountStored, GlobalLockOk, Shares;
    var th := s.threads[t];
    assert ThreadOk(s, th) && CoreOk(s, th.core);
    assert th.LockCore? || s.coreLock[th.core] == Some(t);
  }

  lemma StepOwnCore(s: State, t: nat, call: Call)
    requires Inv(s) && CanStep(s, t, call) && Step(s, t, call).Some? && HoldsCore(s.threads[t])
    ensures var s', c := Step(s, t, call).value, s.threads[t].core;
            |s'.own| == |s.own| == |s'.coreLock| && CoreOk(s', c)
  {
    hide Sum, CountStored;
    var c := s.threads[t].core;
    assert ThreadOk(s, s.threads[t]) && CoreOk(s, c);
  }

  lemma EffectOnCore(s: State, s': State, t: nat, c: nat)
    requires LocksOk(s) && Effect(s, s', t) && c < |s.own| && CoreOk(s, c)
    requires HoldsCore(s.threads[t]) ==> c != s.threads[t].core
    ensures |s'.own| == |s.own| == |s'.coreLock| && CoreOk(s', c)
  {
  }

  lemma StepReturned(s: State, t: nat, call: Call)
    requires CanStep(s, t, call) && Step(s, t, call).Some?
    ensures var s' := Step(s, t, call).value;
            s'.done - s'.returned - CountStored(s'.threads) == s.done - s.returned - CountStored(s.threads)
  {
    CountUpdated(s.threads, t, Step(s, t, call).value.threads[t]);
    hide CountStored;
  }

  /** Every step of every thread keeps the invariant. */
  lemma StepKeepsInv(s: State, t: nat, call: Call)
    requires Inv(s) && CanStep(s, t, call) && Step(s, t, call).Some?
    ensures Inv(Step(s, t, call).value)
  {
    hide Sum, CountStored, LocksOk, Shares, Effect, Step, ThreadOk, CoreOk;
    var s' := Step(s, t, call).value;
    StepEffect(s, t, call);
    StepShares(s, t, call);
    StepReturned(s, t, call);
    forall u: nat | u < |s'.threads|
      ensures ThreadOk(s', s'.threads[u])
    {
      if u == t {
        StepOwnThread(s, t, call);
      } else {
        EffectSizes(s, s', t);
        EffectKeepsThread(s, s', t, u);
      }
    }
    EffectSizes(s, s', t);
    forall c: nat | c < |s'.own|
      ensures CoreOk(s', c)
    {
      if HoldsCore(s.threads[t]) && c == s.threads[t].core {
        StepOwnCore(s, t, call);
      } else {
        EffectOnCore(s, s', t, c);
      }
    }
  }

  lemma EffectSizes(s: State, s': State, t: nat)
    requires Effect(s, s', t)
    ensures |s'.threads| == |s.threads| && |s'.own| == |s.own| == |s.coreLock| == |s'.coreLock|
  {
  }

  // ----- whole runs -----

  /** Any interleaving: at each turn a thread is tried, and does nothing if it has to wait. */
  function Run(s: State, turns: seq<(nat, Call)>): State {
    if turns == [] then s else Tried(Run(s, turns[..|turns| - 1]), turns[|turns| - 1])
  }

  function Tried(s: State, turn: (nat, Call)): State {
    if CanStep(s, turn.0, turn.1) && Step(s, turn.0, turn.1).Some? then Step(s, turn.0, turn.1).value else s
  }

  /** In every interleaving no increment is lost and none is counted twice. */
  lemma {:induction false} RunKeepsInv(cores: nat, threshold: nat, threads: nat, turns: seq<(nat, Call)>)
    ensures Inv(Run(Start(cores, threshold, threads), turns))
  {
    hide Inv, Step;
    if turns == [] {
      StartInv(cores, threshold, threads);
    } else {
      RunKeepsInv(cores, threshold, threads, turns[..|turns| - 1]);
      var before, turn := Run(Start(cores, threshold, threads), turns[..|turns| - 1]), turns[|turns| - 1];
      if CanStep(before, turn.0, turn.1) && Step(before, turn.0, turn.1).Some? {
        StepKeepsInv(before, turn.0, turn.1);
      }
    }
  }

  // ----- the threshold -----

  /** A step that changes the global counter adds exactly the limit, which is the threshold unless that is 0. */
  lemma StepTransfers(s: State, t: nat, call: Call)
    requires Inv(s) && CanStep(s, t, call) && Step(s, t, call).Some?
    ensures var s' := Step(s, t, call).value;
            s'.threshold == s.threshold && (s'.total == s.total || s'.total == s.total + Limit(s))
  {
    hide Sum, CountStored, Shares, LocksOk;
    assert ThreadOk(s, s.threads[t]);
  }

  /** The turns of a run at which the global counter changes. */
  function Transfers(s: State, turns: seq<(nat, Call)>): nat {
    if turns == [] then 0
    else
      var before := turns[..|turns| - 1];
      Transfers(s, before) + if Run(s, turns).total == Run(s, before).total then 0 else 1
  }

  /** In every interleaving the global counter is the limit times the number of times that it has changed, and that is
  no more than the increments stored: it changes at most once for every threshold's worth of them. */
  lemma {:induction false} TransfersTimesLimit(cores: nat, threshold: nat, threads: nat, turns: seq<(nat, Call)>)
    ensures var s0 := Start(cores, threshold, threads);
            var s := Run(s0, turns);
            Limit(s) == Limit(s0) && s.total == Transfers(s0, turns) * Limit(s0) <= s.done
  {
    hide Inv, Step;
    var s0 := Start(cores, threshold, threads);
    RunKeepsInv(cores, threshold, threads, turns);
    WithinLimits(Run(s0, turns));
    if turns != [] {
      var before, turn := turns[..|turns| - 1], turns[|turns| - 1];
      TransfersTimesLimit(cores, threshold, threads, before);
      RunKeepsInv(cores, threshold, threads, before);
      var s := Run(s0, before);
      if CanStep(s, turn.0, turn.1) && Step(s, turn.0, turn.1).Some? {
        StepTransfers(s, turn.0, turn.1);
      }
      var k := Transfers(s0, before);
      assert (k + 1) * Limit(s0) == k * Limit(s0) + Limit(s0);
    }
  }

  ghost predicate AllIdle(s: State) {
    forall t :: 0 <= t < |s.threads| ==> s.threads[t].Idle?
  }

  predicate AllBelow(s: State) {
    forall c :: 0 <= c < |s.own| ==> s.own[c] < Limit(s)
  }

  /** No counter reaches the threshold in the run. */
  ghost predicate StaysBelow(s: State, turns: seq<(nat, Call)>) {
    forall k :: 0 <= k <= |turns| ==> AllBelow(Run(s, turns[..k]))
  }

  /** Nothing has been passed on since the global counter was total, and no get has read more than there is. */
  ghost predicate NothingPassed(s: State, total: nat) {
    && s.total == total && s.globalLock.None?
    && (forall t :: 0 <= t < |s.threads| ==> !Passing(s.threads[t]) && ReadsBelow(s, s.threads[t]))
  }

  predicate ReadsBelow(s: State, th: Thread) {
    th.Read? ==> th.next <= |s.own| && th.count <= s.total + Sum(s.own[..th.next])
  }

  lemma {:induction false} SumGrows(a: seq<nat>, b: seq<nat>, n: nat)
    requires n <= |a| == |b| && forall c :: 0 <= c < |a| ==> a[c] <= b[c]
    ensures Sum(a[..n]) <= Sum(b[..n])
  {
    SumAtMost(a[..n], b[..n]);
  }

  /** A step that leaves all counters below the threshold only adds to them. */
  lemma StepBelow(s: State, t: nat, call: Call)
    requires Inv(s) && CanStep(s, t, call) && Step(s, t, call).Some? && NothingPassed(s, s.total)
    requires AllBelow(Step(s, t, call).value)
    ensures var s' := Step(s, t, call).value;
            && s'.total == s.total && s'.globalLock.None? && |s'.own| == |s.own| && |s'.threads| == |s.threads|
            && !Passing(s'.threads[t]) && (forall c :: 0 <= c < |s.own| ==> s.own[c] <= s'.own[c])
            && (forall u :: 0 <= u < |s.threads| && u != t ==> s'.threads[u] == s.threads[u])
  {
    hide Sum, CountStored, Shares, LocksOk;
    assert ThreadOk(s, s.threads[t]) && !Passing(s.threads[t]);
  }

  lemma ReadsOn(s: State, t: nat, call: Call)
    requires |s.own| == |s.coreLock| && CanStep(s, t, call) && Step(s, t, call).Some?
    requires ReadsBelow(s, s.threads[t])
    ensures var s' := Step(s, t, call).value;
            t < |s'.threads| && (s'.threads[t].Read? ==> s'.own == s.own && ReadsBelow(s', s'.threads[t]))
  {
    var th := s.threads[t];
    if th.Read? && th.next < |s.own| {
      SumTake(s.own, th.next);
    }
    hide Sum;
    assert s.own[..0] == [];
    assert Sum([]) == 0 by { SumZero(0); assert seq(0, _ => 0) == []; }
  }

  lemma StepPassesNothing(s: State, t: nat, call: Call, total: nat)
    requires Inv(s) && CanStep(s, t, call) && Step(s, t, call).Some? && NothingPassed(s, total)
    requires AllBelow(Step(s, t, call).value)
    ensures NothingPassed(Step(s, t, call).value, total)
  {
    hide Sum, Step, Inv, AllBelow;
    var s' := Step(s, t, call).value;
    StepBelow(s, t, call);
    ReadsOn(s, t, call);
    forall u: nat | u < |s'.threads|
      ensures !Passing(s'.threads[u]) && ReadsBelow(s', s'.threads[u])
    {
      if u != t && s.threads[u].Read? {
        assert ReadsBelow(s, s.threads[u]);
        SumGrows(s.own, s'.own, s.threads[u].next);
      }
    }
  }

  lemma {:induction false} RunPassesNothing(s: State, turns: seq<(nat, Call)>)
    requires Inv(s) && AllIdle(s) && StaysBelow(s, turns)
    ensures Inv(Run(s, turns)) && NothingPassed(Run(s, turns), s.total)
  {
    hide Inv, Step, AllBelow;
    if turns == [] {
      IdleLocks(s);
    } else {
      var before, turn := turns[..|turns| - 1], turns[|turns| - 1];
      assert forall k :: 0 <= k <= |before| ==> turns[..k] == before[..k];
      RunPassesNothing(s, before);
      assert turns[..|turns|] == turns;
      var s' := Run(s, before);
      if CanStep(s', turn.0, turn.1) && Step(s', turn.0, turn.1).Some? {
        StepKeepsInv(s', turn.0, turn.1);
        StepPassesNothing(s', turn.0, turn.1, s.total);
      }
    }
  }

  lemma IdleLocks(s: State)
    requires Inv(s) && AllIdle(s)
    ensures s.globalLock.None?
  {
  }

  /** From any moment at which no call is under way: until some core's counter reaches the threshold, the global
  counter and its lock do not change, and no get returns more than the increments stored. */
  lemma QuietBelowThreshold(s: State, turns: seq<(nat, Call)>, t: nat)
    requires Inv(s) && AllIdle(s) && StaysBelow(s, turns)
    ensures Run(s, turns).total == s.total && Run(s, turns).globalLock == s.globalLock
    ensures var s' := Run(s, turns);
            s'.total + Sum(s'.own) == s'.done && (Returns(s', t).Some? ==> Returns(s', t).value <= s'.done)
  {
    RunPassesNothing(s, turns);
    IdleLocks(s);
    var s' := Run(s, turns);
    hide Run, StaysBelow, Sum;
    SumExactIff(s');
    assert NothingTwice(s') by {
      assert forall u :: 0 <= u < |s'.threads| ==> !Passing(s'.threads[u]);
    }
    assert s'.own[..|s'.own|] == s'.own;
  }

  predicate Quiet(s: State) {
    forall t :: 0 <= t < |s.threads| ==> !HoldsCore(s.threads[t])
  }

  /** No core's counter has been added to the global one and still stands in its own. */
  ghost predicate NothingTwice(s: State)
    requires |s.coreLock| == |s.own|
  {
    forall t :: 0 <= t < |s.threads| && InTransit(s.threads[t]) ==>
      s.threads[t].core < |s.own| && s.own[s.threads[t].core] == 0
  }

  lemma {:induction false} SumAtMost(a: seq<nat>, b: seq<nat>)
    requires |a| == |b| && forall c :: 0 <= c < |a| ==> a[c] <= b[c]
    ensures Sum(a) <= Sum(b) && (Sum(a) == Sum(b) <==> a == b)
  {
    if a != [] {
      var last := |a| - 1;
      SumAtMost(a[..last], b[..last]);
      assert a == a[..last] + [a[last]] && b == b[..last] + [b[last]];
    }
  }

  lemma SharesAreOwnIff(s: State)
    requires LocksOk(s)
    ensures Shares(s) == s.own <==> NothingTwice(s)
  {
    if Shares(s) == s.own {
      forall t | 0 <= t < |s.threads| && InTransit(s.threads[t])
        ensures s.threads[t].core < |s.own| && s.own[s.threads[t].core] == 0
      {
        assert HoldsCore(s.threads[t]);
        assert Shares(s)[s.threads[t].core] == Share(s, s.threads[t].core) == 0;
      }
    }
    if NothingTwice(s) {
      forall c | 0 <= c < |s.own| ensures Share(s, c) == s.own[c] {}
    }
  }

  /** In every state of every run the counters together hold at least the increments stored, and hold exactly
  these if and only if no thread is between adding its core's counter to the global one and clearing it. */
  lemma SumExactIff(s: State)
    requires Inv(s)
    ensures s.total + Sum(s.own) >= s.done
    ensures s.total + Sum(s.own) == s.done <==> NothingTwice(s)
  {
    SharesAreOwnIff(s);
    hide LocksOk, Sum, NothingTwice;
    SumAtMost(Shares(s), s.own);
  }

  /** While no increment is under way, the counters add up to exactly the calls that have returned. */
  lemma QuietExact(s: State)
    requires Inv(s) && Quiet(s)
    ensures s.total + Sum(s.own) == s.returned
  {
    NoneStored(s.threads);
    SumExactIff(s);
  }

  /** What a get returns: the sum it has read when no core is left. */
  function Returns(s: State, t: nat): Option<nat> {
    if t < |s.threads| && s.threads[t].Read? && s.threads[t].next == |s.own| then Some(s.threads[t].count) else None
  }

  /** A get that runs while other threads increment is off by at most the limit per core from the increments stored
  when it read the global counter. */
  lemma GetWithin(s: State, t: nat)
    requires Inv(s) && Returns(s, t).Some?
    ensures var slack := |s.own| * Limit(s);
            s.threads[t].doneThen - slack <= Returns(s, t).value <= s.threads[t].doneThen + slack
  {
    assert ThreadOk(s, s.threads[t]);
  }

  /** The bound is reached: with a threshold of one, a reader that sees an addition twice, once in the global counter
  and once in the core's own, returns 2 after one increment. */
  lemma GetCanOvercount()
    ensures exists turns ::
              var s := Run(Start(1, 1, 2), turns);
              Returns(s, 1) == Some(2) && s.done == s.threads[1].doneThen == 1
  {
    var s0, inc := Start(1, 1, 2), (0, Increment(0));
    var turns := [];
    for k := 0 to 9
      invariant Run(s0, turns) == Incrementing(k)
    {
      hide Incrementing, Tried, Run;
      Extend(s0, turns, inc);
      IncrementNext(k);
      turns := turns + [inc];
    }
    hide Tried, Run;
    Extend(s0, turns, (1, Get));
    Extend(s0, turns + [(1, Get)], (1, Get));
    ReadNext();
  }

  lemma IncrementNext(k: nat)
    requires k < 9
    ensures Tried(Incrementing(k), (0, Increment(0))) == Incrementing(k + 1)
  {
  }

  lemma ReadNext()
    ensures Tried(Tried(Incrementing(9), (1, Get)), (1, Get)) == At(Incrementing(9), 1, Read(1, 2, 1, 1))
  {
  }

  lemma Extend(s: State, turns: seq<(nat, Call)>, turn: (nat, Call))
    ensures Run(s, turns + [turn]) == Tried(Run(s, turns), turn)
  {
    assert (turns + [turn])[..|turns|] == turns;
  }

  /** The state after k steps of one increment that adds its core's counter to the global one. */
  function Incrementing(k: nat): State {
    var th :=
      if k == 0 then Idle else if k == 1 then LockCore(0) else if k == 2 then LoadOwn(0)
      else if k == 3 then StoreOwn(0, 0)
      else if k == 4 then Compare(0) else if k == 5 then LockGlobal(0) else if k == 6 then LoadGlobal(0)
      else if k == 7 then LoadToAdd(0, 0) else if k == 8 then StoreGlobal(0, 0, 1) else UnlockGlobal(0);
    State(1, if k >= 9 then 1 else 0, [if k >= 4 then 1 else 0], if k >= 6 then Some(0) else None,
          [if k >= 2 then Some(0) else None], [th, Idle], if k >= 4 then 1 else 0, 0)
  }

  /** Some call that is under way can always go on. */
  lemma NoDeadlock(s: State, t: nat, call: Call)
    requires Inv(s) && t < |s.threads| && !s.threads[t].Idle? && CanStep(s, t, call)
    ensures exists u :: 0 <= u < |s.threads| && !s.threads[u].Idle? && CanStep(s, u, call) && Step(s, u, call).Some?
  {
    if Step(s, t, call).None? {
      var u := if s.threads[t].LockCore? then s.coreLock[s.threads[t].core].value else t;
      assert ThreadOk(s, s.threads[u]);
      if Step(s, u, call).None? {
        var v := s.globalLock.value;
        assert ThreadOk(s, s.threads[v]);
        assert Step(s, v, call).Some?;
      }
    }
  }

  // ----- get while nobody increments -----

  lemma SumTake(own: seq<nat>, i: nat)
    requires i < |own|
    ensures Sum(own[..i + 1]) == Sum(own[..i]) + own[i]
  {
    assert own[..i + 1][..i] == own[..i];
  }

  predicate Reader(th: Thread) {
    th.Idle? || th.Read?
  }

  /** Every turn goes to a thread that does not increment. */
  ghost predicate OnlyReaders(s: State, turns: seq<(nat, Call)>) {
    forall k :: 0 <= k < |turns| ==> turns[k].1.Get? && (turns[k].0 < |s.threads| ==> Reader(s.threads[turns[k].0]))
  }

  /** How far thread t has got since s with a get that began after s. */
  predicate Reading(s: State, th: Thread) {
    th.Idle? || (th.Read? && th.next <= |s.own| && th.count == s.total + Sum(s.own[..th.next]))
  }

  /** Readers change nothing but where they are. */
  ghost predicate OnlyRead(s: State, s': State, t: nat) {
    && s' == s.(threads := s'.threads) && |s'.threads| == |s.threads|
    && (forall u :: 0 <= u < |s.threads| && Reader(s.threads[u]) ==> Reader(s'.threads[u]))
    && t < |s'.threads| && Reading(s, s'.threads[t])
  }

  lemma ReaderTurn(s: State, s': State, t: nat, u: nat)
    requires |s.own| == |s.coreLock| && OnlyRead(s, s', t)
    requires u < |s.threads| ==> Reader(s.threads[u])
    ensures OnlyRead(s, Tried(s', (u, Get)), t)
  {
    if u < |s.threads| {
      assert Reader(s'.threads[u]);
      var th := s'.threads[u];
      if th.Read? && th.next < |s.own| {
        SumTake(s.own, th.next);
      }
      hide Sum;
      assert s.own[..0] == [];
      assert Sum([]) == 0 by { SumZero(0); assert seq(0, _ => 0) == []; }
    }
  }

  lemma {:induction false} ReadersRun(s: State, turns: seq<(nat, Call)>, t: nat)
    requires |s.own| == |s.coreLock| && t < |s.threads| && s.threads[t].Idle? && OnlyReaders(s, turns)
    ensures OnlyRead(s, Run(s, turns), t)
  {
    if turns != [] {
      var last := |turns| - 1;
      ReadersRun(s, turns[..last], t);
      hide OnlyRead, Tried, Reader;
      ReaderTurn(s, Run(s, turns[..last]), t, turns[last].0);
    }
  }

  /** A get that begins while no increment is under way returns the number of calls of increment that have
  returned, however it is interleaved with other gets, as long as nobody increments. */
  lemma GetExact(s: State, turns: seq<(nat, Call)>, t: nat)
    requires Inv(s) && Quiet(s) && t < |s.threads| && s.threads[t].Idle? && OnlyReaders(s, turns)
    ensures var r := Returns(Run(s, turns), t); r.Some? ==> r.value == s.returned
  {
    hide Inv, Run, OnlyReaders;
    assert |s.own| == |s.coreLock| by { SameCores(s); }
    ReadersRun(s, turns, t);
    QuietExact(s);
    hide Sum;
    assert s.own[..|s.own|] == s.own;
  }

  lemma SameCores(s: State)
    requires Inv(s)
    ensures |s.own| == |s.coreLock|
  {
  }

  /** And one turn to begin and one for each core are enough. */
  lemma {:induction false} GetReaches(s: State, t: nat, k: nat)
    requires |s.own| == |s.coreLock| && t < |s.threads| && s.threads[t].Idle? && k <= |s.own|
    ensures var s' := Run(s, seq(k + 1, _ => (t, Get)));
            t < |s'.threads| && s'.threads[t].Read? && s'.threads[t].next == k && |s'.own| == |s.own|
    ensures |Run(s, seq(k + 1, _ => (t, Get))).coreLock| == |s.coreLock|
  {
    var turns := seq(k + 1, _ => (t, Get));
    assert turns[..k] == seq(k, _ => (t, Get)) && turns[k] == (t, Get);
    if k == 0 {
      assert Run(s, turns[..0]) == s;
    } else {
      GetReaches(s, t, k - 1);
    }
  }

  lemma GetReturns(s: State, t: nat)
    requires Inv(s) && Quiet(s) && t < |s.threads| && s.threads[t].Idle?
    ensures Returns(Run(s, seq(|s.own| + 1, _ => (t, Get))), t) == Some(s.returned)
  {
    SameCores(s);
    GetReaches(s, t, |s.own|);
    hide Inv, Run;
    GetExact(s, seq(|s.own| + 1, _ => (t, Get)), t);
  }

  /** The loop of get run on its own. */
  method GetAlone(s: State) returns (count: nat)
    requires Inv(s) && Quiet(s)
    ensures count == s.returned
  {
    count := s.total;
    for i := 0 to |s.own|
      invariant count == s.total + Sum(s.own[..i])
    {
      SumTake(s.own, i);
      count := count + s.own[i];
    }
    assert s.own[..|s.own|] == s.own;
    QuietExact(s);
  }
}
