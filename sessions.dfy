/**
 * The session cache of the login command: a list of sessions in which a new
 * session replaces the first entry with the same composite name, in place,
 * or is appended when there is none.
 */
module Sessions {
  import opened ConfigStore

  /**
   * `sessions.findIndex(item => item.name === name)`: the first index whose
   * entry carries `name`, or -1 when no entry does.
   */
  function IndexOfName(ss: seq<Session>, name: string): (r: int)
    ensures -1 <= r < |ss|
    ensures r == -1 <==> forall j :: 0 <= j < |ss| ==> ss[j].name != name
    ensures 0 <= r ==> ss[r].name == name && forall j :: 0 <= j < r ==> ss[j].name != name
    decreases |ss|
  {
    if |ss| == 0 then -1
    else if ss[0].name == name then 0
    else
      var k := IndexOfName(ss[1..], name);
      if k == -1 then -1 else k + 1
  }

  /** The linear scan `findIndex` performs. */
  method FindIndex(ss: seq<Session>, name: string) returns (idx: int)
    ensures idx == IndexOfName(ss, name)
  {
    var i := 0;
    while i < |ss|
      invariant 0 <= i <= |ss|
      invariant forall j :: 0 <= j < i ==> ss[j].name != name
    {
      if ss[i].name == name {
        return i;
      }
      i := i + 1;
    }
    return -1;
  }

  /** No two entries share a name. */
  predicate DistinctNames(ss: seq<Session>) {
    forall i, j :: 0 <= i < j < |ss| ==> ss[i].name != ss[j].name
  }

  /** The names present in the list. */
  function Names(ss: seq<Session>): set<string> {
    set i | 0 <= i < |ss| :: ss[i].name
  }

  /**
   * The list after upserting `s`: when an entry named `s.name` exists, the
   * first one is replaced by `s` and every other position keeps its entry;
   * otherwise `s` is appended after the unchanged old entries.
   */
  function Upserted(ss: seq<Session>, s: Session): (r: seq<Session>)
    ensures var i := IndexOfName(ss, s.name);
      0 <= i ==> |r| == |ss| && r[i] == s && forall j :: 0 <= j < |ss| && j != i ==> r[j] == ss[j]
    ensures IndexOfName(ss, s.name) == -1 ==> |r| == |ss| + 1 && r[..|ss|] == ss && r[|ss|] == s
  {
    var i := IndexOfName(ss, s.name);
    if 0 <= i then ss[i := s] else ss + [s]
  }

  /** The mutable `sessions` array of the login command. */
  class SessionCache {
    var entries: seq<Session>

    constructor (initial: seq<Session>)
      ensures entries == initial
    {
      entries := initial;
    }

    /** `findIndex`, then `splice(idx, 1, s)` when found and `push(s)` otherwise. */
    method Upsert(s: Session)
      modifies this
      ensures entries == Upserted(old(entries), s)
    {
      var idx := FindIndex(entries, s.name);
      if idx > -1 {
        assert entries[..idx] + [s] + entries[idx + 1..] == entries[idx := s];
        entries := entries[..idx] + [s] + entries[idx + 1..];
      } else {
        entries := entries + [s];
      }
    }
  }

  /** The first entry with a given name is found at `i`. */
  lemma IndexOfNameAt(ss: seq<Session>, name: string, i: nat)
    requires i < |ss| && ss[i].name == name
    requires forall j :: 0 <= j < i ==> ss[j].name != name
    ensures IndexOfName(ss, name) == i
  {
  }

  /** After an upsert the new session is the first entry carrying its name. */
  lemma UpsertedFindsNew(ss: seq<Session>, s: Session)
    ensures var r := Upserted(ss, s);
      0 <= IndexOfName(r, s.name) && r[IndexOfName(r, s.name)] == s
    ensures 0 <= IndexOfName(ss, s.name) ==> IndexOfName(Upserted(ss, s), s.name) == IndexOfName(ss, s.name)
    ensures IndexOfName(ss, s.name) == -1 ==> IndexOfName(Upserted(ss, s), s.name) == |ss|
  {
    var r := Upserted(ss, s);
    var i := IndexOfName(ss, s.name);
    if 0 <= i {
      IndexOfNameAt(r, s.name, i);
    } else {
      IndexOfNameAt(r, s.name, |ss|);
    }
  }

  /** Upserting the same session twice is the same as upserting it once. */
  lemma UpsertIdempotent(ss: seq<Session>, s: Session)
    ensures Upserted(Upserted(ss, s), s) == Upserted(ss, s)
  {
    var r := Upserted(ss, s);
    UpsertedFindsNew(ss, s);
    assert r[IndexOfName(r, s.name) := s] == r;
  }

  /**
   * Upserting into a list with distinct names keeps the names distinct, and
   * afterwards exactly one entry carries the new name: the new session.
   */
  lemma UpsertKeepsNamesDistinct(ss: seq<Session>, s: Session)
    requires DistinctNames(ss)
    ensures var r := Upserted(ss, s);
      && DistinctNames(r)
      && (forall j :: 0 <= j < |r| && r[j].name == s.name ==> j == IndexOfName(r, s.name) && r[j] == s)
  {
    var r := Upserted(ss, s);
    var i := IndexOfName(ss, s.name);
    UpsertedFindsNew(ss, s);
    forall a, b | 0 <= a < b < |r|
      ensures r[a].name != r[b].name
    {
      if 0 <= i {
        if a != i && b != i {
          assert r[a] == ss[a] && r[b] == ss[b];
        } else if a == i {
          assert r[b] == ss[b];
        } else {
          assert r[a] == ss[a];
        }
      } else if b == |ss| {
        assert r[a] == ss[a];
      } else {
        assert r[a] == ss[a] && r[b] == ss[b];
      }
    }
  }

  /** Entries under every other name are found where they were, unchanged. */
  lemma UpsertLeavesOtherNames(ss: seq<Session>, s: Session, n: string)
    requires n != s.name
    ensures var r := Upserted(ss, s);
      && IndexOfName(r, n) == IndexOfName(ss, n)
      && (0 <= IndexOfName(ss, n) ==> r[IndexOfName(r, n)] == ss[IndexOfName(ss, n)])
  {
    var r := Upserted(ss, s);
    var i := IndexOfName(ss, s.name);
    var k := IndexOfName(ss, n);
    if 0 <= k {
      assert k != i;
      IndexOfNameAt(r, n, k);
    } else {
      assert forall j :: 0 <= j < |r| ==> r[j].name != n by {
        forall j | 0 <= j < |r| ensures r[j].name != n {
          if j == i || j == |ss| { assert r[j] == s; } else { assert r[j] == ss[j]; }
        }
      }
    }
  }

  /** The set of names grows by exactly the new session's name. */
  lemma UpsertNames(ss: seq<Session>, s: Session)
    ensures Names(Upserted(ss, s)) == Names(ss) + {s.name}
  {
    var r := Upserted(ss, s);
    var i := IndexOfName(ss, s.name);
    forall n | n in Names(r) ensures n in Names(ss) + {s.name} {
      var j :| 0 <= j < |r| && r[j].name == n;
      if j != i && j < |ss| { assert r[j] == ss[j]; }
    }
    forall n | n in Names(ss) + {s.name} ensures n in Names(r) {
      UpsertedFindsNew(ss, s);
      if n != s.name {
        var j :| 0 <= j < |ss| && ss[j].name == n;
        assert j != i;
        assert r[j] == ss[j];
      }
    }
  }

  /** Upserting C named like A into [A, B] gives [C, B]: the position of A is kept. */
  lemma ReplacesInPlace(a: Session, b: Session, c: Session)
    requires a.name == c.name && a.name != b.name
    ensures Upserted([a, b], c) == [c, b]
  {
  }
}
