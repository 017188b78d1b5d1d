/** The server and the clients' caches as one object that the clients' steps update in place. */
module AfsObject {
  import opened Afs
  import opened Options

  lemma StoreOwn(s: State, c: Client, f: FileName, value: int)
    requires WellTyped(s) && c in s.caches
    ensures Store(s, c, f, value).caches.Keys == s.caches.Keys
    ensures Store(s, c, f, value).caches[c] == s.caches[c]
  {
  }

  lemma PutBackClean(s: State, c: Client, f: FileName)
    requires WellTyped(s) && c in s.caches && f in s.caches[c]
    ensures !s.caches[c][f].dirty ==> PutBack(s, c, f) == s
  {
  }

  lemma InvalidateTwice(cache: Cache, f: FileName)
    ensures Invalidate(Invalidate(cache, f), f) == Invalidate(cache, f)
  {
  }

  class AfsSystem {
    const clients: seq<Client>
    var contents: map<FileName, int>
    var callbacks: map<Client, seq<FileName>>
    var caches: map<Client, Cache>
    var nextValue: int

    ghost function View(): State
      reads this
    {
      State(contents, callbacks, caches, nextValue)
    }

    ghost predicate Valid()
      reads this
    {
      && (forall c :: c in clients <==> c in caches)
      && Coherent(View())
    }

    constructor (clients: seq<Client>, contents: map<FileName, int>, nextValue: int)
      ensures Valid() && View() == Start(contents, (set c | c in clients), nextValue)
      ensures this.clients == clients
    {
      this.clients := clients;
      this.contents := contents;
      this.nextValue := nextValue;
      callbacks := map c | c in clients :: [];
      caches := map c | c in clients :: map[];
    }

    method Get(c: Client, f: FileName) returns (data: int)
      requires WellTyped(View()) && c in caches && f in contents
      modifies this`callbacks
      ensures callbacks == old(callbacks)[c := AddCallback(old(callbacks)[c], f)] && data == contents[f]
    {
      if f !in callbacks[c] {
        callbacks := callbacks[c := callbacks[c] + [f]];
      } else {
        assert callbacks[c := callbacks[c]] == callbacks;
      }
      data := contents[f];
    }

    /** Store the value and scan the other clients for callbacks to break. */
    method Put(c: Client, f: FileName, value: int)
      requires WellTyped(View()) && (forall d :: d in clients <==> d in caches) && f in contents
      modifies this`contents, this`caches
      ensures View() == Store(old(View()), c, f, value)
    {
      ghost var s := View();
      contents := contents[f := value];
      for i := 0 to |clients|
        invariant contents == old(contents)[f := value] && caches.Keys == old(caches).Keys
        invariant forall d :: d in caches ==>
                    caches[d] == if d in clients[..i] && f in callbacks[d] && d != c then Invalidate(old(caches)[d], f)
                                 else old(caches)[d]
      {
        hide Invalidate, Store;
        InvalidateTwice(old(caches)[clients[i]], f);
        var d := clients[i];
        if f in callbacks[d] && d != c {
          caches := caches[d := Invalidate(caches[d], f)];
        }
        assert clients[..i + 1] == clients[..i] + [d];
      }
      assert clients[..|clients|] == clients;
      forall d | d in caches ensures caches[d] == Store(s, c, f, value).caches[d] {
        assert d in clients;
      }
      assert caches == Store(s, c, f, value).caches;
    }

    method OpenFile(c: Client, f: FileName)
      requires Valid() && c in caches && f in contents
      modifies this`callbacks, this`caches
      ensures Some(View()) == Afs.OpenFile(old(View()), c, f)
    {
      if !(f in caches[c] && caches[c][f].valid) {
        var data := Get(c, f);
        caches := caches[c := caches[c][f := Copy(data, false, 0, true)]];
      }
      caches := caches[c := caches[c][f := caches[c][f].(refcnt := caches[c][f].refcnt + 1)]];
    }

    method WriteFile(c: Client, f: FileName)
      requires Valid() && c in caches && f in caches[c]
      modifies this`caches, this`nextValue
      ensures Some(View()) == Afs.WriteFile(old(View()), c, f)
    {
      var v := nextValue;
      nextValue := nextValue + 1;
      caches := caches[c := caches[c][f := caches[c][f].(data := v, dirty := true)]];
    }

    /** Store a dirty copy and mark it clean and valid. */
    method PutFile(c: Client, f: FileName)
      requires Valid() && c in caches && f in caches[c] && caches[c][f].dirty
      modifies this`contents, this`caches
      ensures View() == PutBack(old(View()), c, f)
      ensures forall d :: d in clients <==> d in caches
    {
      ghost var s := View();
      CoherentAt(s, c, f);
      StoreOwn(s, c, f, caches[c][f].data);
      hide Coherent, Store;
      Put(c, f, caches[c][f].data);
      ghost var m, copy := caches, caches[c][f];
      caches := caches[c := caches[c][f := caches[c][f].(dirty := false)]];
      caches := caches[c := caches[c][f := caches[c][f].(valid := true)]];
      assert m[c][f := copy.(dirty := false)][f := copy.(dirty := false, valid := true)]
          == m[c][f := copy.(dirty := false, valid := true)];
      assert caches == m[c := m[c][f := copy.(dirty := false, valid := true)]];
    }

    method CloseFile(c: Client, f: FileName)
      requires Valid() && c in caches && f in caches[c]
      modifies this`contents, this`caches
      ensures Some(View()) == Afs.CloseFile(old(View()), c, f)
    {
      CoherentAt(View(), c, f);
      hide Coherent, Store, PutBack;
      ghost var s := View();
      PutBackClean(s, c, f);
      if caches[c][f].dirty {
        PutFile(c, f);
      }
      ghost var m := caches;
      var copy := caches[c][f].(refcnt := caches[c][f].refcnt - 1);
      caches := caches[c := caches[c][f := copy]];
      if !caches[c][f].valid && caches[c][f].refcnt == 0 {
        assert m[c][f := copy] - {f} == m[c] - {f};
        caches := caches[c := caches[c] - {f}];
        assert caches == m[c := m[c] - {f}];
      }
    }

    /** One step of one client; ok is false where the program would stop with a failed assertion. */
    method Step(c: Client, a: Action) returns (ok: bool)
      requires Valid() && c in caches
      modifies this
      ensures ok <==> Afs.Step(old(View()), c, a).Some?
      ensures ok ==> Valid() && Some(View()) == Afs.Step(old(View()), c, a)
    {
      ghost var s := View();
      ok := if a.Open? then a.f in caches[c] || a.f in contents else a.f in caches[c];
      if !ok {
        return;
      }
      assert a.f in contents by {
        if a.f in caches[c] { CoherentAt(s, c, a.f); }
      }
      assert Afs.Step(s, c, a).Some?;
      StepCoherent(s, c, a);
      hide Coherent;
      match a
      case Open(f) => OpenFile(c, f);
      case Read(f) =>
      case Write(f) => WriteFile(c, f);
      case Close(f) => CloseFile(c, f);
    }
  }
}
