/** The probing table as a directory: for every log of insertions, what a search answers. */
module DirLookup {
  import opened Wrappers
  import opened DirTable

  /** No stored name properly extends the query. */
  ghost predicate NoneExtends(log: seq<Record>, query: Name) {
    forall i :: 0 <= i < |log| && query <= log[i].name ==> log[i].name == query
  }

  lemma {:induction false} FirstNamedAppend(log: seq<Record>, r: Record, query: Name)
    ensures FirstNamed(log + [r], query) ==
      if FirstNamed(log, query).Some? then FirstNamed(log, query)
      else if r.name == query then Some(r) else None
  {
    if log != [] {
      assert (log + [r])[1..] == log[1..] + [r];
      FirstNamedAppend(log[1..], r, query);
    }
  }

  /** FirstNamed means what its name says. */
  lemma {:induction false} FirstNamedMeaning(log: seq<Record>, query: Name)
    ensures FirstNamed(log, query).None? <==> forall i :: 0 <= i < |log| ==> log[i].name != query
    ensures FirstNamed(log, query).Some? ==>
      exists i :: 0 <= i < |log| && log[i].name == query && FirstNamed(log, query) == Some(log[i])
        && forall j :: 0 <= j < i ==> log[j].name != query
  {
    if log != [] {
      if log[0].name == query {
        assert log[0].name == query && FirstNamed(log, query) == Some(log[0]);
      } else {
        var rest := log[1..];
        FirstNamedMeaning(rest, query);
        if FirstNamed(rest, query).Some? {
          var i :| 0 <= i < |rest| && rest[i].name == query && FirstNamed(rest, query) == Some(rest[i])
            && forall j :: 0 <= j < i ==> rest[j].name != query;
          assert log[i + 1] == rest[i];
          forall j | 0 <= j < i + 1
            ensures log[j].name != query
          {
            assert j > 0 ==> log[j] == rest[j - 1];
          }
        }
      }
    }
  }

  /** While it is not over-full the table has one cell per log entry and keeps its chains, and the
      cells hold exactly the records of the log. */
  lemma {:induction false} TableShape(log: seq<Record>, n: nat)
    requires 0 < n && AllIndexable(log, n) && |log| <= n
    ensures Chained(Table(log, n))
    ensures |Occupied(Table(log, n))| == |log|
    ensures forall j :: 0 <= j < n && Table(log, n)[j].Some? ==> Table(log, n)[j].value in log
  {
    if log == [] {
      assert Occupied(Table(log, n)) == {};
    } else {
      var front, last := log[..|log| - 1], log[|log| - 1];
      TableShape(front, n);
      InsertShape(Table(front, n), last);
      assert log == front + [last];
    }
  }

  /** The answer a directory should give: the earliest record with the name; when there is none,
      "not found", for which the C loop needs one empty cell to run into. */
  function Expected(log: seq<Record>, query: Name, n: nat): Outcome {
    match FirstNamed(log, query)
    case Some(r) => Found(r)
    case None => if |log| == n then Endless else Absent
  }

  /** The probing table refines the log: for every log of at most n insertions and every query that
      no stored name properly extends, the search answers as the log does. */
  lemma {:induction false} LookupRefinesLog(log: seq<Record>, n: nat, query: Name)
    requires 0 < n && AllIndexable(log, n) && |log| <= n
    requires Indexable(query, n) && NoneExtends(log, query)
    ensures Lookup(Table(log, n), query) == Expected(log, query, n)
    decreases |log|
  {
    if log == [] {
      assert Lookup(Table(log, n), query) == Absent;
    } else {
      var front, last := log[..|log| - 1], log[|log| - 1];
      var cells := Table(front, n);
      assert log == front + [last];
      LookupRefinesLog(front, n, query);
      TableShape(front, n);
      TableShape(log, n);
      FirstNamedAppend(front, last, query);
      if FirstNamed(front, query).Some? {
        FoundStays(cells, last, query);
      } else {
        ExtensionFree(log, n, query);
        AbsentThenInsert(cells, last, query);
      }
    }
  }

  lemma ExtensionFree(log: seq<Record>, n: nat, query: Name)
    requires 0 < n && AllIndexable(log, n) && |log| <= n && NoneExtends(log, query)
    ensures NoExtension(Table(log, n), query)
  {
    TableShape(log, n);
  }

  // ---------- the condition on names is exact ----------

  ghost predicate Over(log: seq<Record>, names: set<Name>) {
    forall i :: 0 <= i < |log| ==> log[i].name in names
  }

  /** Searches for this query are right over every log that fits and uses only these names. */
  ghost predicate SearchExact(names: set<Name>, query: Name, n: nat)
    requires 0 < n && Indexable(query, n) && forall m :: m in names ==> Indexable(m, n)
  {
    forall log: seq<Record> :: Over(log, names) && |log| <= n ==>
      AllIndexable(log, n) && Lookup(Table(log, n), query) == Expected(log, query, n)
  }

  function Copies(r: Record, count: nat): seq<Record> {
    seq(count, _ => r)
  }

  /** Copies of one record fill consecutive cells from its home on. */
  lemma {:induction false} CopiesFill(r: Record, count: nat, n: nat)
    requires 0 < n && Indexable(r.name, n) && count <= n
    ensures AllIndexable(Copies(r, count), n)
    ensures forall k :: 0 <= k < n ==>
      Table(Copies(r, count), n)[At(HashIndex(r.name, n), k, n)] == if k < count then Some(r) else None
  {
    var h := HashIndex(r.name, n);
    if count > 0 {
      CopiesFill(r, count - 1, n);
      var front := Copies(r, count)[..count - 1];
      assert front == Copies(r, count - 1);
      var cells := Table(front, n);
      var w := Walk(cells, h, 0, None);
      assert cells[At(h, count - 1, n)].None?;
      assert w == count - 1;
    }
  }

  /** Enough copies of a longer name bury the cell where the search for its prefix begins. */
  lemma PrefixBreaksSearch(query: Name, longer: Name, n: nat) returns (log: seq<Record>)
    requires 0 < n && Indexable(query, n) && Indexable(longer, n)
    requires query <= longer && longer != query
    ensures Over(log, {longer}) && |log| <= n && AllIndexable(log, n)
    ensures Lookup(Table(log, n), query).Found? && !Expected(log, query, n).Found?
  {
    var r := Record(longer, 0, [], 0);
    var h, g := HashIndex(query, n), HashIndex(longer, n);
    var count := Dist(g, h, n) + 1;
    log := Copies(r, count);
    CopiesFill(r, count, n);
    var cells := Table(log, n);
    assert cells[At(g, Dist(g, h, n), n)] == Some(r);
    assert At(h, 0, n) == h;
    FirstNamedMeaning(log, query);
  }

  /** A search is exact over all directories with names from a set exactly when no name of the set
      properly extends the query. */
  lemma SearchExactIff(names: set<Name>, query: Name, n: nat)
    requires 0 < n && Indexable(query, n) && forall m :: m in names ==> Indexable(m, n)
    ensures SearchExact(names, query, n) <==> forall m :: m in names && query <= m ==> m == query
  {
    if m :| m in names && query <= m && m != query {
      var log := PrefixBreaksSearch(query, m, n);
      assert Over(log, names);
    } else {
      forall log: seq<Record> | Over(log, names) && |log| <= n
        ensures AllIndexable(log, n) && Lookup(Table(log, n), query) == Expected(log, query, n)
      {
        LookupRefinesLog(log, n, query);
      }
    }
  }
}
