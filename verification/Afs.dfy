/** The callback protocol of the distributed file system: a server with the files' contents and one
callback list per client, and the clients' caches. */
module Afs {
  import opened Options

  type Client = string
  type FileName = string

  /** A cached copy of a file. */
  datatype Copy = Copy(data: int, dirty: bool, refcnt: int, valid: bool)

  type Cache = map<FileName, Copy>

  datatype State = State(
    contents: map<FileName, int>,
    callbacks: map<Client, seq<FileName>>,
    caches: map<Client, Cache>,
    nextValue: int)

  /** What a client does next; file descriptors are already resolved to file names. */
  datatype Action = Open(f: FileName) | Read(f: FileName) | Write(f: FileName) | Close(f: FileName)

  predicate WellTyped(s: State) {
    s.callbacks.Keys == s.caches.Keys
  }

  // ----- the server and the caches -----

  function AddCallback(list: seq<FileName>, f: FileName): seq<FileName> {
    if f in list then list else list + [f]
  }

  function Invalidate(cache: Cache, f: FileName): Cache {
    if f in cache then cache[f := cache[f].(valid := false)] else cache
  }

  /** server.get with the client's cache.put. */
  function Fetch(s: State, c: Client, f: FileName): State
    requires WellTyped(s) && c in s.caches && f in s.contents
  {
    s.(callbacks := s.callbacks[c := AddCallback(s.callbacks[c], f)],
       caches := s.caches[c := s.caches[c][f := Copy(s.contents[f], false, 0, true)]])
  }

  /** server.put: store the value and break the callbacks of the other clients. */
  function Store(s: State, c: Client, f: FileName, value: int): State
    requires WellTyped(s)
  {
    s.(contents := s.contents[f := value],
       caches := map d | d in s.caches ::
                   if f in s.callbacks[d] && d != c then Invalidate(s.caches[d], f) else s.caches[d])
  }

  function UpdateCopy(s: State, c: Client, f: FileName, copy: Copy): State
    requires c in s.caches
  {
    s.(caches := s.caches[c := s.caches[c][f := copy]])
  }

  function DropCopy(s: State, c: Client, f: FileName): State
    requires c in s.caches
  {
    s.(caches := s.caches[c := s.caches[c] - {f}])
  }

  // ----- the actions -----

  function OpenFile(s: State, c: Client, f: FileName): Option<State>
    requires WellTyped(s) && c in s.caches
  {
    if f in s.caches[c] && s.caches[c][f].valid then
      Some(UpdateCopy(s, c, f, s.caches[c][f].(refcnt := s.caches[c][f].refcnt + 1)))
    else if f in s.contents then
      var s' := Fetch(s, c, f);
      Some(UpdateCopy(s', c, f, s'.caches[c][f].(refcnt := 1)))
    else None
  }

  function WriteFile(s: State, c: Client, f: FileName): Option<State>
    requires c in s.caches
  {
    if f !in s.caches[c] then None
    else Some(UpdateCopy(s, c, f, s.caches[c][f].(data := s.nextValue, dirty := true)).(nextValue := s.nextValue + 1))
  }

  function PutBack(s: State, c: Client, f: FileName): (r: State)
    requires WellTyped(s) && c in s.caches && f in s.caches[c]
    ensures r.caches.Keys == s.caches.Keys && f in r.caches[c] && WellTyped(r)
  {
    var copy := s.caches[c][f];
    if copy.dirty then UpdateCopy(Store(s, c, f, copy.data), c, f, copy.(dirty := false, valid := true)) else s
  }

  /** Drop the reference; an invalid copy without references goes away. */
  function Release(s: State, c: Client, f: FileName): State
    requires c in s.caches && f in s.caches[c]
  {
    var copy := s.caches[c][f].(refcnt := s.caches[c][f].refcnt - 1);
    if !copy.valid && copy.refcnt == 0 then DropCopy(s, c, f) else UpdateCopy(s, c, f, copy)
  }

  function CloseFile(s: State, c: Client, f: FileName): Option<State>
    requires WellTyped(s) && c in s.caches
  {
    if f !in s.caches[c] || (s.caches[c][f].dirty && f !in s.contents) then None
    else
      Some(Release(PutBack(s, c, f), c, f))
  }

  /** One client does one thing; None where the program's assertions stop it. */
  function Step(s: State, c: Client, a: Action): (r: Option<State>)
    requires WellTyped(s) && c in s.caches
    ensures r.Some? ==> WellTyped(r.value) && r.value.caches.Keys == s.caches.Keys
  {
    match a
    case Open(f) => OpenFile(s, c, f)
    case Read(f) => if f in s.caches[c] then Some(s) else None
    case Write(f) => WriteFile(s, c, f)
    case Close(f) => CloseFile(s, c, f)
  }

  function Start(contents: map<FileName, int>, clients: set<Client>, nextValue: int): (s: State)
    ensures WellTyped(s)
  {
    State(contents, map c | c in clients :: [], map c | c in clients :: map[], nextValue)
  }

  /** A schedule: who does what, one after the other, in any interleaving. */
  type Schedule = seq<(Client, Action)>

  function Run(s: State, schedule: Schedule): (r: Option<State>)
    requires WellTyped(s)
    ensures r.Some? ==> WellTyped(r.value) && r.value.caches.Keys == s.caches.Keys
    decreases |schedule|
  {
    if schedule == [] then Some(s)
    else
      var (c, a) := schedule[0];
      if c !in s.caches then None
      else
        var s' :- Step(s, c, a);
        Run(s', schedule[1..])
  }

  // ----- coherence -----

  /** A cached copy is on the server's callback list, and a valid copy that is not dirty is what the
  server has. */
  ghost predicate Coherent(s: State) {
    WellTyped(s) &&
    forall c, f :: c in s.caches && f in s.caches[c] ==>
      && f in s.contents
      && f in s.callbacks[c]
      && (s.caches[c][f].valid && !s.caches[c][f].dirty ==> s.caches[c][f].data == s.contents[f])
  }

  /** What a step of client c on file f leaves alone: other copies only lose their validity, and only
  if c stored the file. */
  ghost predicate Elsewhere(s: State, s': State, c: Client, f: FileName, stored: bool) {
    && WellTyped(s) && WellTyped(s') && s'.caches.Keys == s.caches.Keys
    && (forall d, g :: d in s.caches && (d, g) != (c, f) ==> (g in s'.caches[d] <==> g in s.caches[d]))
    && (forall d, g :: d in s.caches && g in s.caches[d] && (d, g) != (c, f) ==>
          s'.caches[d][g]
          == if stored && g == f && f in s.callbacks[d] then s.caches[d][g].(valid := false) else s.caches[d][g])
    && (forall d, g :: d in s.caches && g in s.callbacks[d] ==> g in s'.callbacks[d])
    && (forall g :: g != f ==> (g in s'.contents <==> g in s.contents))
    && (forall g :: g != f && g in s.contents ==> s'.contents[g] == s.contents[g])
    && (!stored ==> s'.contents == s.contents)
  }

  lemma OpenEffect(s: State, c: Client, f: FileName)
    requires WellTyped(s) && c in s.caches && OpenFile(s, c, f).Some?
    ensures var s' := OpenFile(s, c, f).value;
            && Elsewhere(s, s', c, f, false)
            && f in s'.caches[c]
            && if f in s.caches[c] && s.caches[c][f].valid then
                 s'.caches[c][f] == s.caches[c][f].(refcnt := s.caches[c][f].refcnt + 1)
               else
                 f in s.contents && f in s'.callbacks[c] && s'.caches[c][f] == Copy(s.contents[f], false, 1, true)
  {
  }

  lemma WriteEffect(s: State, c: Client, f: FileName)
    requires WellTyped(s) && c in s.caches && WriteFile(s, c, f).Some?
    ensures var s' := WriteFile(s, c, f).value;
            && Elsewhere(s, s', c, f, false)
            && f in s.caches[c] && f in s'.caches[c]
            && s'.caches[c][f] == s.caches[c][f].(data := s.nextValue, dirty := true)
  {
  }

  lemma PutBackEffect(s: State, c: Client, f: FileName)
    requires WellTyped(s) && c in s.caches && f in s.caches[c] && (s.caches[c][f].dirty ==> f in s.contents)
    ensures var s', copy := PutBack(s, c, f), s.caches[c][f];
            && Elsewhere(s, s', c, f, copy.dirty)
            && f in s'.caches[c]
            && s'.caches[c][f] == (if copy.dirty then copy.(dirty := false, valid := true) else copy)
            && (copy.dirty ==> f in s'.contents && s'.contents[f] == copy.data)
  {
  }

  lemma CloseEffect(s: State, c: Client, f: FileName)
    requires WellTyped(s) && c in s.caches && CloseFile(s, c, f).Some?
    ensures f in s.caches[c]
    ensures var s', copy := CloseFile(s, c, f).value, s.caches[c][f];
            && Elsewhere(s, s', c, f, copy.dirty)
            && (copy.dirty ==> f in s.contents && f in s'.contents && s'.contents[f] == copy.data)
            && (f !in s'.caches[c] <==> !copy.valid && !copy.dirty && copy.refcnt == 1)
            && (f in s'.caches[c] ==>
                  s'.caches[c][f]
                  == copy.(dirty := false, valid := copy.valid || copy.dirty, refcnt := copy.refcnt - 1))
  {
    hide PutBack, Release, Elsewhere;
    PutBackEffect(s, c, f);
    var s1 := PutBack(s, c, f);
    ReleaseEffect(s1, c, f);
    ElsewhereThen(s, s1, Release(s1, c, f), c, f, s.caches[c][f].dirty);
  }

  lemma ReleaseEffect(s: State, c: Client, f: FileName)
    requires WellTyped(s) && c in s.caches && f in s.caches[c]
    ensures var s', copy := Release(s, c, f), s.caches[c][f];
            && Elsewhere(s, s', c, f, false)
            && s'.contents == s.contents
            && (f !in s'.caches[c] <==> !copy.valid && copy.refcnt == 1)
            && (f in s'.caches[c] ==> s'.caches[c][f] == copy.(refcnt := copy.refcnt - 1))
  {
  }

  lemma ElsewhereThen(s: State, s1: State, s2: State, c: Client, f: FileName, stored: bool)
    requires Elsewhere(s, s1, c, f, stored) && Elsewhere(s1, s2, c, f, false)
    ensures Elsewhere(s, s2, c, f, stored)
    ensures s2.caches.Keys == s.caches.Keys
  {
  }

  /** The effect of any step, seen from everywhere but the copy it works on. */
  lemma StepElsewhere(s: State, c: Client, a: Action)
    requires WellTyped(s) && c in s.caches && Step(s, c, a).Some?
    ensures Elsewhere(s, Step(s, c, a).value, c, a.f, a.Close? && a.f in s.caches[c] && s.caches[c][a.f].dirty)
    ensures a.f in s.contents ==> a.f in Step(s, c, a).value.contents
  {
    hide OpenFile, WriteFile, CloseFile;
    match a
    case Open(f) => OpenEffect(s, c, f);
    case Read(f) =>
    case Write(f) => WriteEffect(s, c, f);
    case Close(f) => CloseEffect(s, c, f);
  }

  /** The copy a step works on stays coherent. */
  lemma OwnCoherent(s: State, c: Client, a: Action)
    requires Coherent(s) && c in s.caches && Step(s, c, a).Some? && a.f in Step(s, c, a).value.caches[c]
    ensures var s', f := Step(s, c, a).value, a.f;
            && f in s'.contents && f in s'.callbacks[c]
            && (s'.caches[c][f].valid && !s'.caches[c][f].dirty ==> s'.caches[c][f].data == s'.contents[f])
  {
    hide OpenFile, WriteFile, CloseFile;
    match a
    case Open(f) => OpenEffect(s, c, f);
    case Read(f) =>
    case Write(f) => WriteEffect(s, c, f);
    case Close(f) => CloseEffect(s, c, f);
  }

  lemma CoherentAt(s: State, c: Client, f: FileName)
    requires Coherent(s) && c in s.caches && f in s.caches[c]
    ensures f in s.contents && f in s.callbacks[c]
    ensures s.caches[c][f].valid && !s.caches[c][f].dirty ==> s.caches[c][f].data == s.contents[f]
  {
  }

  lemma ElsewhereCoherent(s: State, s': State, c: Client, f: FileName, stored: bool, d: Client, g: FileName)
    requires Coherent(s) && Elsewhere(s, s', c, f, stored) && (d, g) != (c, f)
    requires d in s'.caches && g in s'.caches[d]
    requires f in s.contents ==> f in s'.contents
    ensures g in s'.contents && g in s'.callbacks[d]
    ensures s'.caches[d][g].valid && !s'.caches[d][g].dirty ==> s'.caches[d][g].data == s'.contents[g]
  {
    assert d in s.caches && g in s.caches[d];
    CoherentAt(s, d, g);
    hide Coherent;
  }

  lemma StepCoherent(s: State, c: Client, a: Action)
    requires Coherent(s) && c in s.caches && Step(s, c, a).Some?
    ensures Coherent(Step(s, c, a).value)
  {
    hide Step;
    var s' := Step(s, c, a).value;
    StepElsewhere(s, c, a);
    hide Elsewhere;
    forall d, g | d in s'.caches && g in s'.caches[d]
      ensures g in s'.contents && g in s'.callbacks[d]
      ensures s'.caches[d][g].valid && !s'.caches[d][g].dirty ==> s'.caches[d][g].data == s'.contents[g]
    {
      if d == c && g == a.f {
        OwnCoherent(s, c, a);
      } else {
        ElsewhereCoherent(s, s', c, a.f, a.Close? && a.f in s.caches[c] && s.caches[c][a.f].dirty, d, g);
      }
    }
  }

  /** Coherence holds after every schedule, nested opens included. */
  lemma {:induction false} RunCoherent(s: State, schedule: Schedule)
    requires Coherent(s) && Run(s, schedule).Some?
    ensures Coherent(Run(s, schedule).value)
    decreases |schedule|
  {
    if schedule != [] {
      var (c, a) := schedule[0];
      StepCoherent(s, c, a);
      RunCoherent(Step(s, c, a).value, schedule[1..]);
    }
  }

  lemma StartCoherent(contents: map<FileName, int>, clients: set<Client>, nextValue: int)
    ensures Coherent(Start(contents, clients, nextValue))
  {
  }

  // ----- new values -----

  ghost predicate Cached(s: State, c: Client, f: FileName) {
    c in s.caches && f in s.caches[c]
  }

  /** What the client has changed and not stored is nowhere else. */
  ghost predicate Private(s: State, c: Client, f: FileName)
    requires Cached(s, c, f)
  {
    && (forall g :: g in s.contents ==> s.contents[g] != s.caches[c][f].data)
    && (forall d, g :: Cached(s, d, g) && (d, g) != (c, f) ==> s.caches[d][g].data != s.caches[c][f].data)
  }

  /** Every write writes a value that has not been used before. */
  ghost predicate Fresh(s: State) {
    && (forall f :: f in s.contents ==> s.contents[f] < s.nextValue)
    && (forall c, f :: Cached(s, c, f) ==> s.caches[c][f].data < s.nextValue)
    && (forall c, f :: Cached(s, c, f) && s.caches[c][f].dirty ==> Private(s, c, f))
  }

  lemma StartFresh(contents: map<FileName, int>, clients: set<Client>, nextValue: int)
    requires forall f :: f in contents ==> contents[f] < nextValue
    ensures Fresh(Start(contents, clients, nextValue))
  {
  }

  /** The values a step can leave in the copy it works on and in the server's contents. */
  ghost predicate ValuesMove(s: State, s': State, c: Client, f: FileName) {
    && s.nextValue <= s'.nextValue
    && (Cached(s', c, f) ==>
          if s'.caches[c][f].dirty then
            || (s.nextValue == s'.caches[c][f].data < s'.nextValue && s'.contents == s.contents)
            || (Cached(s, c, f) && s.caches[c][f].dirty && s'.caches[c][f].data == s.caches[c][f].data
                && s'.contents == s.contents)
          else
            || (f in s.contents && s'.caches[c][f].data == s.contents[f])
            || (Cached(s, c, f) && s'.caches[c][f].data == s.caches[c][f].data))
    && (s'.contents == s.contents
        || (f in s'.contents && Cached(s, c, f) && s'.contents[f] == s.caches[c][f].data
            && (Cached(s', c, f) ==> !s'.caches[c][f].dirty)))
  }

  lemma StepMovesValues(s: State, c: Client, a: Action)
    requires WellTyped(s) && c in s.caches && Step(s, c, a).Some?
    ensures ValuesMove(s, Step(s, c, a).value, c, a.f)
  {
    StepElsewhere(s, c, a);
    hide OpenFile, WriteFile, CloseFile;
    match a
    case Open(f) => OpenEffect(s, c, f); OpenKeepsNext(s, c, f);
    case Read(f) =>
    case Write(f) => WriteEffect(s, c, f); WriteTakesNext(s, c, f);
    case Close(f) => CloseEffect(s, c, f); CloseKeepsNext(s, c, f);
  }

  lemma OpenKeepsNext(s: State, c: Client, f: FileName)
    requires WellTyped(s) && c in s.caches && OpenFile(s, c, f).Some?
    ensures OpenFile(s, c, f).value.nextValue == s.nextValue
  {
  }

  lemma WriteTakesNext(s: State, c: Client, f: FileName)
    requires c in s.caches && WriteFile(s, c, f).Some?
    ensures WriteFile(s, c, f).value.nextValue == s.nextValue + 1
  {
  }

  lemma CloseKeepsNext(s: State, c: Client, f: FileName)
    requires WellTyped(s) && c in s.caches && CloseFile(s, c, f).Some?
    ensures CloseFile(s, c, f).value.nextValue == s.nextValue
  {
  }

  lemma DataElsewhere(s: State, s': State, c: Client, f: FileName, stored: bool)
    requires Elsewhere(s, s', c, f, stored)
    ensures forall d, g :: (d, g) != (c, f) ==> (Cached(s', d, g) <==> Cached(s, d, g))
    ensures forall d, g :: (d, g) != (c, f) && Cached(s, d, g) ==>
              s'.caches[d][g].data == s.caches[d][g].data && s'.caches[d][g].dirty == s.caches[d][g].dirty
    ensures forall g :: g != f ==> (g in s'.contents <==> g in s.contents)
    ensures forall g :: g != f && g in s.contents ==> s'.contents[g] == s.contents[g]
  {
  }

  lemma BelowKept(s: State, s': State, c: Client, f: FileName, stored: bool)
    requires Fresh(s) && Elsewhere(s, s', c, f, stored) && ValuesMove(s, s', c, f)
    ensures forall g :: g in s'.contents ==> s'.contents[g] < s'.nextValue
    ensures forall d, g :: Cached(s', d, g) ==> s'.caches[d][g].data < s'.nextValue
  {
    DataElsewhere(s, s', c, f, stored);
    hide Elsewhere, Private;
    forall d, g | Cached(s', d, g) ensures s'.caches[d][g].data < s'.nextValue {
      if (d, g) != (c, f) {
        assert Cached(s, d, g);
      }
    }
  }

  /** A dirty copy other than the one the step works on. */
  lemma OtherStaysPrivate(s: State, s': State, c: Client, f: FileName, stored: bool, d: Client, g: FileName)
    requires Fresh(s) && Elsewhere(s, s', c, f, stored) && ValuesMove(s, s', c, f)
    requires (d, g) != (c, f) && Cached(s', d, g) && s'.caches[d][g].dirty
    ensures Private(s', d, g)
  {
    DataElsewhere(s, s', c, f, stored);
    assert Cached(s, d, g) && Private(s, d, g);
    hide Elsewhere, Fresh;
    assert s.caches[d][g].data < s.nextValue by { BelowNext(s, d, g); }
    forall e, h | Cached(s', e, h) && (e, h) != (d, g) ensures s'.caches[e][h].data != s'.caches[d][g].data {
      assert (e, h) != (c, f) ==> Cached(s, e, h);
    }
  }

  lemma BelowNext(s: State, d: Client, g: FileName)
    requires Fresh(s) && Cached(s, d, g)
    ensures s.caches[d][g].data < s.nextValue
  {
  }

  /** The copy the step works on. */
  lemma OwnStaysPrivate(s: State, s': State, c: Client, f: FileName, stored: bool)
    requires Fresh(s) && Elsewhere(s, s', c, f, stored) && ValuesMove(s, s', c, f)
    requires Cached(s', c, f) && s'.caches[c][f].dirty
    ensures Private(s', c, f)
  {
    DataElsewhere(s, s', c, f, stored);
    hide Elsewhere;
    assert s'.contents == s.contents;
    if s'.caches[c][f].data == s.nextValue {
      hide Fresh;
      forall d, g | Cached(s', d, g) && (d, g) != (c, f) ensures s'.caches[d][g].data != s'.caches[c][f].data {
        BelowNext(s, d, g);
      }
      forall g | g in s'.contents ensures s'.contents[g] != s'.caches[c][f].data {
        ContentsBelowNext(s, g);
      }
    } else {
      assert Private(s, c, f);
    }
  }

  lemma ContentsBelowNext(s: State, g: FileName)
    requires Fresh(s) && g in s.contents
    ensures s.contents[g] < s.nextValue
  {
  }

  lemma StepFresh(s: State, c: Client, a: Action)
    requires WellTyped(s) && Fresh(s) && c in s.caches && Step(s, c, a).Some?
    ensures Fresh(Step(s, c, a).value)
  {
    var s', stored := Step(s, c, a).value, a.Close? && a.f in s.caches[c] && s.caches[c][a.f].dirty;
    StepElsewhere(s, c, a);
    StepMovesValues(s, c, a);
    BelowKept(s, s', c, a.f, stored);
    hide Step, Elsewhere, ValuesMove, Private;
    forall d, g | Cached(s', d, g) && s'.caches[d][g].dirty ensures Private(s', d, g) {
      if (d, g) == (c, a.f) {
        OwnStaysPrivate(s, s', c, a.f, stored);
      } else {
        OtherStaysPrivate(s, s', c, a.f, stored, d, g);
      }
    }
  }

  lemma {:induction false} RunFresh(s: State, schedule: Schedule)
    requires WellTyped(s) && Fresh(s) && Run(s, schedule).Some?
    ensures Fresh(Run(s, schedule).value)
    decreases |schedule|
  {
    if schedule != [] {
      var (c, a) := schedule[0];
      StepFresh(s, c, a);
      hide Step, Fresh;
      RunFresh(Step(s, c, a).value, schedule[1..]);
    }
  }

  /** An open shows the server's contents exactly unless it hits a valid copy that the same client has
  changed and not yet closed. */
  lemma OpenShowsServerIff(s: State, c: Client, f: FileName)
    requires Coherent(s) && Fresh(s) && c in s.caches && OpenFile(s, c, f).Some?
    ensures var s' := OpenFile(s, c, f).value;
            && f in s'.caches[c] && f in s'.contents
            && (s'.caches[c][f].data == s'.contents[f] <==>
                !(f in s.caches[c] && s.caches[c][f].valid && s.caches[c][f].dirty))
  {
    if f in s.caches[c] {
      CoherentAt(s, c, f);
      assert Cached(s, c, f);
    }
    OpenEffect(s, c, f);
    hide OpenFile, Coherent;
  }

  /** So it is at any moment of any run from a server whose contents are values already given out. */
  lemma RunShowsServerIff(contents: map<FileName, int>, clients: set<Client>, nextValue: int, schedule: Schedule,
                          c: Client, f: FileName)
    requires forall g :: g in contents ==> contents[g] < nextValue
    requires c in clients && f in contents && Run(Start(contents, clients, nextValue), schedule).Some?
    ensures var s := Run(Start(contents, clients, nextValue), schedule).value;
            c in s.caches && OpenFile(s, c, f).Some?
            && var s' := OpenFile(s, c, f).value;
               && f in s'.caches[c] && f in s'.contents
               && (s'.caches[c][f].data == s'.contents[f] <==>
                   !(f in s.caches[c] && s.caches[c][f].valid && s.caches[c][f].dirty))
  {
    var start := Start(contents, clients, nextValue);
    StartCoherent(contents, clients, nextValue);
    StartFresh(contents, clients, nextValue);
    RunCoherent(start, schedule);
    RunFresh(start, schedule);
    RunKeepsFiles(start, schedule);
    var s := Run(start, schedule).value;
    hide Run, Coherent, Fresh;
    assert OpenFile(s, c, f).Some?;
    OpenShowsServerIff(s, c, f);
  }

  lemma {:induction false} RunKeepsFiles(s: State, schedule: Schedule)
    requires Coherent(s) && Run(s, schedule).Some?
    ensures Run(s, schedule).value.contents.Keys == s.contents.Keys
    decreases |schedule|
  {
    if schedule != [] {
      var (c, a) := schedule[0];
      StepCoherent(s, c, a);
      StepKeepsFiles(s, c, a);
      hide Step, Coherent;
      RunKeepsFiles(Step(s, c, a).value, schedule[1..]);
    }
  }

  // ----- reference counts -----

  /** How many opens of (client, file) are not yet closed. */
  type Opens = map<(Client, FileName), int>

  function OpenCount(o: Opens, c: Client, f: FileName): int {
    if (c, f) in o then o[(c, f)] else 0
  }

  function CountAction(o: Opens, c: Client, a: Action): Opens {
    match a
    case Open(f) => o[(c, f) := OpenCount(o, c, f) + 1]
    case Close(f) => o[(c, f) := OpenCount(o, c, f) - 1]
    case _ => o
  }

  /** The reference counts are the numbers of opens not yet closed. */
  ghost predicate RefcountsOk(s: State, o: Opens) {
    forall c, f :: c in s.caches ==>
      OpenCount(o, c, f) == if f in s.caches[c] then s.caches[c][f].refcnt else 0
  }

  predicate ReopensInvalidated(s: State, c: Client, a: Action)
    requires c in s.caches
  {
    a.Open? && a.f in s.caches[c] && !s.caches[c][a.f].valid && s.caches[c][a.f].refcnt != 0
  }

  /** The reference counts stay right exactly as long as nobody opens a file that he has open and whose
  copy has been invalidated. */
  lemma RefcountsKeptIff(s: State, o: Opens, c: Client, a: Action)
    requires WellTyped(s) && RefcountsOk(s, o) && c in s.caches && Step(s, c, a).Some?
    ensures RefcountsOk(Step(s, c, a).value, CountAction(o, c, a)) <==> !ReopensInvalidated(s, c, a)
  {
    hide Step;
    var s', o' := Step(s, c, a).value, CountAction(o, c, a);
    StepElsewhere(s, c, a);
    OwnCount(s, c, a);
    forall d, g | d in s'.caches && (d, g) != (c, a.f)
      ensures OpenCount(o', d, g) == if g in s'.caches[d] then s'.caches[d][g].refcnt else 0
    {
      assert OpenCount(o', d, g) == OpenCount(o, d, g);
      assert g in s.caches[d] ==> s'.caches[d][g].refcnt == s.caches[d][g].refcnt;
    }
    assert OpenCount(o, c, a.f) == Refcount(s, c, a.f);
    assert RefcountsOk(s', o') ==> OpenCount(o', c, a.f) == Refcount(s', c, a.f);
  }

  function Refcount(s: State, c: Client, f: FileName): int
    requires c in s.caches
  {
    if f in s.caches[c] then s.caches[c][f].refcnt else 0
  }

  /** How a step changes the reference count of its own copy. */
  lemma OwnCount(s: State, c: Client, a: Action)
    requires WellTyped(s) && c in s.caches && Step(s, c, a).Some?
    ensures var s' := Step(s, c, a).value;
            var change := if a.Open? then 1 else if a.Close? then -1 else 0;
            Refcount(s', c, a.f) == Refcount(s, c, a.f) + change
            <==> !(a.Open? && a.f in s.caches[c] && !s.caches[c][a.f].valid && s.caches[c][a.f].refcnt != 0)
  {
    hide OpenFile, WriteFile, CloseFile;
    match a
    case Open(f) => OpenEffect(s, c, f);
    case Read(f) =>
    case Write(f) => WriteEffect(s, c, f);
    case Close(f) => CloseEffect(s, c, f);
  }

  // ----- close-to-open consistency -----

  /** Each client uses files properly: it opens what it does not have open, and reads, writes and
  closes what it has. */
  predicate Proper(open: set<(Client, FileName)>, c: Client, a: Action) {
    if a.Open? then (c, a.f) !in open else (c, a.f) in open
  }

  function OpenAfter(open: set<(Client, FileName)>, c: Client, a: Action): set<(Client, FileName)> {
    if a.Open? then open + {(c, a.f)} else if a.Close? then open - {(c, a.f)} else open
  }

  /** Reference count one exactly while open, and dirty only while open. */
  ghost predicate Counted(s: State, open: set<(Client, FileName)>) {
    && (forall c, f :: (c, f) in open ==> c in s.caches && f in s.caches[c])
    && (forall c, f :: c in s.caches && f in s.caches[c] ==>
          && s.caches[c][f].refcnt == (if (c, f) in open then 1 else 0)
          && (s.caches[c][f].dirty ==> (c, f) in open))
  }

  ghost predicate Disciplined(s: State, open: set<(Client, FileName)>) {
    Coherent(s) && Counted(s, open)
  }

  /** A system that has just started is in order, with nothing open. */
  lemma StartDisciplined(contents: map<FileName, int>, clients: set<Client>, nextValue: int)
    ensures Disciplined(Start(contents, clients, nextValue), {})
  {
  }

  /** Proper use never trips an assertion and keeps the discipline, and each open shows what the server
  has at that moment. */
  lemma ProperStep(s: State, open: set<(Client, FileName)>, c: Client, a: Action)
    requires Disciplined(s, open) && c in s.caches && Proper(open, c, a)
    requires a.Open? ==> a.f in s.contents
    ensures Step(s, c, a).Some?
    ensures Disciplined(Step(s, c, a).value, OpenAfter(open, c, a))
    ensures a.Open? ==> var s' := Step(s, c, a).value;
                        a.f in s'.caches[c] && s'.caches[c][a.f].data == s'.contents[a.f] == s.contents[a.f]
  {
    assert Step(s, c, a).Some? by { ProperRuns(s, open, c, a); }
    hide Step;
    var s', open' := Step(s, c, a).value, OpenAfter(open, c, a);
    StepCoherent(s, c, a);
    StepElsewhere(s, c, a);
    ProperOwn(s, open, c, a);
    hide Coherent, Proper;
    ElsewhereCounts(s, s', open, open', c, a.f);
  }

  /** What holds at the copy used and is unchanged elsewhere holds everywhere. */
  lemma ElsewhereCounts(s: State, s': State, open: set<(Client, FileName)>, open': set<(Client, FileName)>, c: Client,
        f: FileName)
    requires Counted(s, open) && c in s'.caches
    requires forall d, g :: (d, g) != (c, f) ==> ((d, g) in open' <==> (d, g) in open)
    requires s'.caches.Keys == s.caches.Keys
    requires forall d, g :: d in s.caches && (d, g) != (c, f) ==> (g in s'.caches[d] <==> g in s.caches[d])
    requires forall d, g :: d in s.caches && (d, g) != (c, f) && g in s.caches[d] ==>
               s'.caches[d][g].refcnt == s.caches[d][g].refcnt && s'.caches[d][g].dirty == s.caches[d][g].dirty
    requires (c, f) in open' ==> f in s'.caches[c]
    requires f in s'.caches[c] ==>
               && s'.caches[c][f].refcnt == (if (c, f) in open' then 1 else 0)
               && (s'.caches[c][f].dirty ==> (c, f) in open')
    ensures Counted(s', open')
  {
  }

  lemma ProperRuns(s: State, open: set<(Client, FileName)>, c: Client, a: Action)
    requires Disciplined(s, open) && c in s.caches && Proper(open, c, a)
    requires a.Open? ==> a.f in s.contents
    ensures Step(s, c, a).Some?
  {
  }

  /** The copy a proper step works on. */
  lemma ProperOwn(s: State, open: set<(Client, FileName)>, c: Client, a: Action)
    requires Disciplined(s, open) && c in s.caches && Proper(open, c, a) && Step(s, c, a).Some?
    ensures var s', f := Step(s, c, a).value, a.f;
            && (f in s'.caches[c] ==>
                  && s'.caches[c][f].refcnt == (if a.Close? then 0 else 1)
                  && (s'.caches[c][f].dirty ==> !a.Close?))
            && (!a.Close? ==> f in s'.caches[c])
            && (a.Open? ==> f in s'.contents && f in s.contents && s'.contents[f] == s.contents[f]
                            && s'.caches[c][f].data == s.contents[f])
  {
    hide OpenFile, WriteFile, CloseFile;
    assert (c, a.f) in open ==> a.f in s.caches[c];
    assert a.f in s.caches[c] ==> s.caches[c][a.f].refcnt == if (c, a.f) in open then 1 else 0;
    match a
    case Open(f) => OpenEffect(s, c, f);
    case Read(f) =>
    case Write(f) => WriteEffect(s, c, f);
    case Close(f) => CloseEffect(s, c, f);
  }

  ghost predicate ProperSchedule(s: State, open: set<(Client, FileName)>, schedule: Schedule)
    decreases |schedule|
  {
    schedule == [] ||
    (var (c, a) := schedule[0];
     && c in s.caches && a.f in s.contents && Proper(open, c, a)
     && ProperSchedule(s, OpenAfter(open, c, a), schedule[1..]))
  }

  /** Properness looks only at who there is and which files exist. */
  lemma {:induction false} ProperSame(s: State, s': State, open: set<(Client, FileName)>, schedule: Schedule)
    requires s'.caches.Keys == s.caches.Keys && s'.contents.Keys == s.contents.Keys
    requires ProperSchedule(s, open, schedule)
    ensures ProperSchedule(s', open, schedule)
    decreases |schedule|
  {
    if schedule != [] {
      var (c, a) := schedule[0];
      ProperSame(s, s', OpenAfter(open, c, a), schedule[1..]);
    }
  }

  lemma StepKeepsFiles(s: State, c: Client, a: Action)
    requires Coherent(s) && c in s.caches && Step(s, c, a).Some?
    ensures Step(s, c, a).value.contents.Keys == s.contents.Keys
  {
    StepElsewhere(s, c, a);
    hide OpenFile, WriteFile;
  }

  /** Close-to-open consistency in every proper interleaving: no assertion fails, and a final open by
  anybody of a file it does not have open shows the server's contents. */
  lemma {:induction false} CloseToOpen(s: State, open: set<(Client, FileName)>, schedule: Schedule, c: Client,
        f: FileName)
    requires Disciplined(s, open) && ProperSchedule(s, open, schedule + [(c, Open(f))])
    ensures Run(s, schedule).Some?
    ensures var s1 := Run(s, schedule).value;
            c in s1.caches && f in s1.contents && OpenFile(s1, c, f).Some?
            && var s2 := OpenFile(s1, c, f).value;
               f in s2.caches[c] && s2.caches[c][f].refcnt == 1 && s2.caches[c][f].data == s1.contents[f]
    decreases |schedule|
  {
    var all := schedule + [(c, Open(f))];
    var (d, a) := all[0];
    ProperStep(s, open, d, a);
    if schedule == [] {
      assert all[0] == (c, Open(f));
    } else {
      var s' := Step(s, d, a).value;
      assert all[1..] == schedule[1..] + [(c, Open(f))];
      StepKeepsFiles(s, d, a);
      ProperSame(s, s', OpenAfter(open, d, a), all[1..]);
      CloseToOpen(s', OpenAfter(open, d, a), schedule[1..], c, f);
    }
  }

  // ----- and without the discipline -----

  /** Two clients open the file, c1 changes and closes it, and c0, still having it open, opens it again. */
  function NestedOpen(c0: Client, c1: Client, f: FileName): Schedule {
    [(c0, Open(f)), (c1, Open(f)), (c1, Write(f)), (c1, Close(f)), (c0, Open(f))]
  }

  /** After that c0's two opens count as one. */
  lemma NestedOpenResets(s: State, c0: Client, c1: Client, f: FileName)
    requires Disciplined(s, {}) && c0 in s.caches && c1 in s.caches && c0 != c1 && f in s.contents
    ensures var r := Run(s, NestedOpen(c0, c1, f));
            r.Some? && f in r.value.caches[c0] && r.value.caches[c0][f].refcnt == 1
  {
    hide Step, Disciplined, Elsewhere, Run;
    var s1, s2, s3, s4 := NestedStates(s, c0, c1, f);
    Refetched(s4, c0, f);
    RunFive(s, [(c0, Open(f)), (c1, Open(f)), (c1, Write(f)), (c1, Close(f)), (c0, Open(f))], s1, s2, s3, s4);
  }

  lemma NestedStates(s: State, c0: Client, c1: Client, f: FileName) returns (s1: State, s2: State, s3: State, s4: State)
    requires Disciplined(s, {}) && c0 in s.caches && c1 in s.caches && c0 != c1 && f in s.contents
    ensures Step(s, c0, Open(f)) == Some(s1) && s1.caches.Keys == s.caches.Keys && WellTyped(s1)
    ensures Step(s1, c1, Open(f)) == Some(s2) && s2.caches.Keys == s.caches.Keys && WellTyped(s2)
    ensures Step(s2, c1, Write(f)) == Some(s3) && s3.caches.Keys == s.caches.Keys && WellTyped(s3)
    ensures Step(s3, c1, Close(f)) == Some(s4) && s4.caches.Keys == s.caches.Keys && WellTyped(s4)
    ensures f in s4.contents && f in s4.caches[c0] && !s4.caches[c0][f].valid
    ensures WellTyped(s)
  {
    var one, two := {(c0, f)}, {(c0, f), (c1, f)};
    assert WellTyped(s);
    assert OpenAfter({}, c0, Open(f)) == one && OpenAfter(one, c1, Open(f)) == two;
    assert OpenAfter(two, c1, Write(f)) == two;
    hide Step, Disciplined, Elsewhere, OpenAfter;
    s1 := DoProper(s, {}, c0, Open(f));
    s2 := DoProper(s1, one, c1, Open(f));
    s3 := DoProper(s2, two, c1, Write(f));
    WroteDirty(s2, c1, f);
    s4 := DoProper(s3, two, c1, Close(f));
    LosesCopy(s3, two, c0, c1, f);
  }

  /** A copy that another client overwrites is kept, but not valid any more. */
  lemma LosesCopy(s: State, open: set<(Client, FileName)>, c0: Client, c1: Client, f: FileName)
    requires Disciplined(s, open) && (c0, f) in open && (c1, f) in open && c0 != c1
    requires f in s.caches[c1] && s.caches[c1][f].dirty && Step(s, c1, Close(f)).Some?
    ensures var s' := Step(s, c1, Close(f)).value; f in s'.caches[c0] && !s'.caches[c0][f].valid
  {
    hide Step;
    StepElsewhere(s, c1, Close(f));
    CoherentAt(s, c0, f);
    assert (c0, f) != (c1, f);
  }

  lemma RunOn(s: State, schedule: Schedule, s1: State, k: nat, all: Schedule)
    requires k < |all| && schedule == all[k..] && WellTyped(s) && WellTyped(s1)
    requires all[k].0 in s.caches && Step(s, all[k].0, all[k].1) == Some(s1)
    ensures Run(s, schedule) == Run(s1, all[k + 1..])
  {
    hide Step;
  }

  lemma RunFive(s: State, all: Schedule, s1: State, s2: State, s3: State, s4: State)
    requires |all| == 5 && WellTyped(s) && WellTyped(s1) && WellTyped(s2) && WellTyped(s3) && WellTyped(s4)
    requires all[0].0 in s.caches && Step(s, all[0].0, all[0].1) == Some(s1)
    requires all[1].0 in s1.caches && Step(s1, all[1].0, all[1].1) == Some(s2)
    requires all[2].0 in s2.caches && Step(s2, all[2].0, all[2].1) == Some(s3)
    requires all[3].0 in s3.caches && Step(s3, all[3].0, all[3].1) == Some(s4)
    requires all[4].0 in s4.caches
    ensures Run(s, all) == Step(s4, all[4].0, all[4].1)
  {
    hide Step, WellTyped;
    assert Run(s4, all[4..]) == Step(s4, all[4].0, all[4].1) by {
      assert all[4..][1..] == [];
    }
    hide Run;
    RunOn(s3, all[3..], s4, 3, all);
    RunOn(s2, all[2..], s3, 2, all);
    RunOn(s1, all[1..], s2, 1, all);
    RunOn(s, all, s1, 0, all);
  }

  lemma DoProper(s: State, open: set<(Client, FileName)>, c: Client, a: Action) returns (s': State)
    requires Disciplined(s, open) && c in s.caches && Proper(open, c, a) && a.f in s.contents
    ensures Step(s, c, a) == Some(s') && Disciplined(s', OpenAfter(open, c, a))
    ensures s'.caches.Keys == s.caches.Keys && a.f in s'.contents && WellTyped(s')
    ensures forall d, g :: (d, g) in OpenAfter(open, c, a) ==> d in s'.caches && g in s'.caches[d]
  {
    ProperStep(s, open, c, a);
    StepElsewhere(s, c, a);
    s' := Step(s, c, a).value;
  }

  lemma WroteDirty(s: State, c: Client, f: FileName)
    requires WellTyped(s) && c in s.caches && Step(s, c, Write(f)).Some?
    ensures var s' := Step(s, c, Write(f)).value; f in s'.caches[c] && s'.caches[c][f].dirty
  {
    WriteEffect(s, c, f);
  }

  lemma Refetched(s: State, c: Client, f: FileName)
    requires WellTyped(s) && c in s.caches && f in s.contents && f in s.caches[c] && !s.caches[c][f].valid
    ensures Step(s, c, Open(f)).Some?
    ensures var s' := Step(s, c, Open(f)).value; f in s'.caches[c] && s'.caches[c][f].refcnt == 1
  {
    OpenEffect(s, c, f);
  }
}
