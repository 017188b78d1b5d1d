/** Directory entries, as both file systems have them. */
module Directories {

  datatype Entry = Entry(name: string, inum: int)

  predicate HasName(entries: seq<Entry>, name: string) {
    exists k :: 0 <= k < |entries| && entries[k].name == name
  }

  ghost predicate DistinctNames(entries: seq<Entry>) {
    forall j, k :: 0 <= j < k < |entries| ==> entries[j].name != entries[k].name
  }

  /** The first entry of that name removed. */
  function RemoveName(entries: seq<Entry>, name: string): seq<Entry> {
    if entries == [] then []
    else if entries[0].name == name then entries[1..]
    else [entries[0]] + RemoveName(entries[1..], name)
  }

  /** Removing a name that occurs once takes out its entry. */
  lemma {:induction false} RemoveNameAt(entries: seq<Entry>, name: string, k: nat)
    requires k < |entries| && entries[k].name == name && DistinctNames(entries)
    ensures RemoveName(entries, name) == entries[..k] + entries[k + 1..]
  {
    if k > 0 {
      assert entries[0].name != name;
      assert DistinctNames(entries[1..]);
      RemoveNameAt(entries[1..], name, k - 1);
      assert entries[1..][..k - 1] == entries[1..k];
      assert entries[1..][k..] == entries[k + 1..];
    }
  }

  lemma NameRemoved(entries: seq<Entry>, k: nat)
    requires k < |entries| && DistinctNames(entries)
    ensures forall e :: e in entries[..k] + entries[k + 1..] <==> e in entries && e.name != entries[k].name
  {
    assert entries == entries[..k] + [entries[k]] + entries[k + 1..];
    forall e ensures e in entries[..k] + entries[k + 1..] <==> e in entries && e.name != entries[k].name {
      if e in entries && e.name != entries[k].name {
        var m :| 0 <= m < |entries| && entries[m] == e;
        assert (entries[..k] + entries[k + 1..])[if m < k then m else m - 1] == e;
      }
    }
  }

  lemma WithoutKeepsDistinct(entries: seq<Entry>, k: nat)
    requires k < |entries| && DistinctNames(entries)
    ensures DistinctNames(entries[..k] + entries[k + 1..])
  {
    var rest := entries[..k] + entries[k + 1..];
    assert forall i :: 0 <= i < |rest| ==> rest[i] == entries[if i < k then i else i + 1];
  }
}
