/**
 The file directory of a super node (p4/src/super_lib.c): a hash table with linear probing and no
 deletion. A file name is a sequence of non-zero bytes. The table is an array of cells changed in
 place; it is proved to behave like the log of accepted insertions, searched for the earliest
 record with the given name.
 */
module DirTable {
  import opened Arithmetic
  import opened Counting
  import opened Wrappers

  type Name = seq<int>

  datatype Record = Record(name: Name, size: nat, ip: Name, port: nat)

  type Cell = Option<Record>

  // ---------- the hash ----------

  /** A byte read through C's signed char. */
  function SignedChar(b: int): int {
    if b < 128 then b else b - 256
  }

  function CharSum(name: Name): int {
    if name == [] then 0 else CharSum(name[..|name| - 1]) + SignedChar(name[|name| - 1])
  }

  /** C's % truncates towards zero. */
  function CRemainder(x: int, n: nat): int
    requires 0 < n
  {
    if x >= 0 then x % n else -((-x) % n)
  }

  function HashIndex(name: Name, n: nat): int
    requires 0 < n
  {
    CRemainder(CharSum(name), n)
  }

  /** The sum is additive, and of a single byte it is that byte read as a signed char. */
  lemma {:induction false} CharSumConcat(a: Name, b: Name)
    ensures CharSum(a + b) == CharSum(a) + CharSum(b)
    decreases |b|
  {
    if b == [] {
      assert a + b == a;
    } else {
      var front, last := b[..|b| - 1], b[|b| - 1];
      CharSumConcat(a, front);
      assert (a + b)[..|a + b| - 1] == a + front && (a + b)[|a + b| - 1] == last;
    }
  }

  lemma CharSumByte(c: int)
    requires 0 <= c < 256
    ensures CharSum([c]) == if c < 128 then c else c - 256
  {
    assert [c][..0] == [];
  }

  /** C's remainder: what is left of x after a whole number of n, smaller than n and with the sign of x. */
  ghost predicate IsCRemainder(x: int, n: int, r: int) {
    && (exists q: int :: x == q * n + r)
    && -n < r < n && (x >= 0 ==> r >= 0) && (x <= 0 ==> r <= 0)
  }

  lemma CRemainderIs(x: int, n: nat)
    requires 0 < n
    ensures IsCRemainder(x, n, CRemainder(x, n))
  {
    if x >= 0 {
      assert x == (x / n) * n + x % n;
    } else {
      var q := (-x) / n;
      assert -x == q * n + (-x) % n;
      assert x == (-q) * n + CRemainder(x, n);
    }
  }

  method HashFunction(key: Name, n: nat) returns (index: int)
    requires 0 < n
    ensures index == HashIndex(key, n) && IsCRemainder(CharSum(key), n, index)
  {
    var sum := 0;
    for i := 0 to |key|
      invariant sum == CharSum(key[..i])
    {
      assert key[..i + 1][..i] == key[..i];
      sum := sum + SignedChar(key[i]);
    }
    assert key[..|key|] == key;
    index := CRemainder(sum, n);
    CRemainderIs(sum, n);
  }

  /** The names whose index lies inside the table. */
  ghost predicate Indexable(name: Name, n: nat)
    requires 0 < n
  {
    0 <= HashIndex(name, n) < n
  }

  /** The index falls outside the table exactly for names whose sum of signed characters is
      negative and no multiple of the table size. */
  lemma IndexableIff(name: Name, n: nat)
    requires 0 < n
    ensures Indexable(name, n) <==> CharSum(name) >= 0 || CharSum(name) % n == 0
  {
    if CharSum(name) < 0 {
      NegativeRemainder(-CharSum(name), n);
    }
  }

  lemma NegativeRemainder(x: int, n: nat)
    requires 0 < n
    ensures x % n == 0 <==> (-x) % n == 0
  {
    var q, r := x / n, x % n;
    assert x == q * n + r;
    NegativeQuotient(x, q, r, n);
  }

  lemma NegativeQuotient(x: int, q: int, r: nat, n: nat)
    requires x == q * n + r && r < n
    ensures (-x) % n == if r == 0 then 0 else n - r
  {
    if r == 0 {
      assert -x == (-q) * n + 0;
      DivMod(-q, 0, n);
    } else {
      assert -x == (-q - 1) * n + (n - r);
      DivMod(-q - 1, n - r, n);
    }
  }

  lemma {:induction false} SevenBitIndexable(name: Name, n: nat)
    requires 0 < n && forall i :: 0 <= i < |name| ==> 0 <= name[i] < 128
    ensures CharSum(name) >= 0 && Indexable(name, n)
    decreases |name|
  {
    if name != [] {
      SevenBitIndexable(name[..|name| - 1], n);
    }
  }

  // ---------- probing ----------

  /** The cell k places after h, cyclically. */
  function At(h: nat, k: nat, n: nat): (j: nat)
    requires h < n && k < n
    ensures j < n
  {
    if h + k < n then h + k else h + k - n
  }

  lemma AtIsRemainder(h: nat, k: nat, n: nat)
    requires h < n && k < n
    ensures At(h, k, n) == (h + k) % n == Visited(h, k, n)
  {
    if h + k < n {
      DivMod(0, h + k, n);
    } else {
      DivMod(1, h + k - n, n);
    }
  }

  /** How many places j lies after h. */
  function Dist(h: nat, j: nat, n: nat): (k: nat)
    requires h < n && j < n
    ensures k < n && At(h, k, n) == j
  {
    if j >= h then j - h else j + n - h
  }

  /** A probe ends at an empty cell; a search also ends where strncmp over the query's length
      succeeds, that is, where the query is a prefix of the stored name. */
  predicate Stops(cell: Cell, query: Option<Name>) {
    cell.None? || (query.Some? && query.value <= cell.value.name)
  }

  /** The offset at which a probe from h ends, counting from k, or the table size if it never does. */
  function Walk(cells: seq<Cell>, h: nat, k: nat, query: Option<Name>): (w: nat)
    requires h < |cells| && k <= |cells|
    ensures k <= w <= |cells|
    ensures w < |cells| ==> Stops(cells[At(h, w, |cells|)], query)
    ensures forall m :: k <= m < w ==> !Stops(cells[At(h, m, |cells|)], query)
    decreases |cells| - k
  {
    if k == |cells| then k
    else if Stops(cells[At(h, k, |cells|)], query) then k
    else Walk(cells, h, k + 1, query)
  }

  /** The cell the C loop looks at in its k-th round; unlike At, k is not bounded. */
  function Visited(h: nat, k: nat, n: nat): (j: nat)
    requires 0 < n
    ensures j < n
  {
    (h + k) % n
  }

  /** The probe visits every cell, over and over: it never ends exactly when no cell stops it. */
  lemma EndlessIff(cells: seq<Cell>, h: nat, query: Option<Name>)
    requires h < |cells|
    ensures Walk(cells, h, 0, query) == |cells|
      <==> forall j :: 0 <= j < |cells| ==> !Stops(cells[j], query)
    ensures Walk(cells, h, 0, query) == |cells|
      <==> forall k: nat :: !Stops(cells[Visited(h, k, |cells|)], query)
  {
    var n := |cells|;
    var w := Walk(cells, h, 0, query);
    if w == n {
      forall j | 0 <= j < n
        ensures !Stops(cells[j], query)
      {
        assert At(h, Dist(h, j, n), n) == j;
      }
    } else {
      AtIsRemainder(h, w, n);
      assert Stops(cells[Visited(h, w, n)], query);
    }
  }

  // ---------- insertion and lookup ----------

  datatype Outcome = Found(record: Record) | Absent | Endless

  /** insertFileInfo on the cells; a full table is left unchanged. */
  function Insert(cells: seq<Cell>, r: Record): (after: seq<Cell>)
    requires 0 < |cells| && Indexable(r.name, |cells|)
    ensures |after| == |cells|
  {
    var h := HashIndex(r.name, |cells|);
    var w := Walk(cells, h, 0, None);
    if w == |cells| then cells else cells[At(h, w, |cells|) := Some(r)]
  }

  /** searchFileInfo on the cells. */
  function Lookup(cells: seq<Cell>, query: Name): Outcome
    requires 0 < |cells| && Indexable(query, |cells|)
  {
    var h := HashIndex(query, |cells|);
    var w := Walk(cells, h, 0, Some(query));
    if w == |cells| then Endless
    else match cells[At(h, w, |cells|)]
      case None => Absent
      case Some(r) => Found(r)
  }

  ghost predicate AllIndexable(log: seq<Record>, n: nat)
    requires 0 < n
  {
    forall i :: 0 <= i < |log| ==> Indexable(log[i].name, n)
  }

  /** The cells after the insertions of a log into an empty table of n cells. */
  function Table(log: seq<Record>, n: nat): (cells: seq<Cell>)
    requires 0 < n && AllIndexable(log, n)
    ensures |cells| == n
  {
    if log == [] then seq(n, _ => None)
    else Insert(Table(log[..|log| - 1], n), log[|log| - 1])
  }

  /** The specification: the earliest record of the log with this name. */
  function FirstNamed(log: seq<Record>, query: Name): Option<Record> {
    if log == [] then None
    else if log[0].name == query then Some(log[0])
    else FirstNamed(log[1..], query)
  }

  // ---------- the table refines the log ----------

  function Occupied(cells: seq<Cell>): set<int> {
    set j | 0 <= j < |cells| && cells[j].Some?
  }

  /** No empty cell lies between a record's home and its cell. */
  ghost predicate Chained(cells: seq<Cell>)
    requires 0 < |cells|
  {
    forall j :: 0 <= j < |cells| && cells[j].Some? ==>
      && Indexable(cells[j].value.name, |cells|)
      && var h := HashIndex(cells[j].value.name, |cells|);
      && forall k :: 0 <= k <= Dist(h, j, |cells|) ==> cells[At(h, k, |cells|)].Some?
  }

  /** The query is not a proper prefix of a stored name. */
  ghost predicate NoExtension(cells: seq<Cell>, query: Name) {
    forall j :: 0 <= j < |cells| && cells[j].Some? && query <= cells[j].value.name ==>
      cells[j].value.name == query
  }

  lemma FullCount(cells: seq<Cell>)
    ensures |Occupied(cells)| <= |cells|
    ensures |Occupied(cells)| == |cells| <==> forall j :: 0 <= j < |cells| ==> cells[j].Some?
  {
    var all := Below(|cells|);
    if j :| 0 <= j < |cells| && cells[j].None? {
      SubsetSize(Occupied(cells), all - {j});
    } else {
      assert Occupied(cells) == all;
    }
  }

  lemma InsertShape(cells: seq<Cell>, r: Record)
    requires 0 < |cells| && Indexable(r.name, |cells|) && Chained(cells)
    requires |Occupied(cells)| < |cells|
    ensures var after := Insert(cells, r);
      && Chained(after)
      && |Occupied(after)| == |Occupied(cells)| + 1
  {
    var n := |cells|;
    var h := HashIndex(r.name, n);
    var w := Walk(cells, h, 0, None);
    FullCount(cells);
    EndlessIff(cells, h, None);
    var p := At(h, w, n);
    var after := Insert(cells, r);
    assert Occupied(after) == Occupied(cells) + {p};
    forall j | 0 <= j < n && after[j].Some?
      ensures Indexable(after[j].value.name, n)
      ensures var g := HashIndex(after[j].value.name, n);
        forall k :: 0 <= k <= Dist(g, j, n) ==> after[At(g, k, n)].Some?
    {
      if j == p {
        assert Dist(h, p, n) == w;
      }
    }
  }

  /** A record goes into the first empty cell from its home on, cyclically; nothing else changes. */
  lemma InsertPlacement(cells: seq<Cell>, r: Record) returns (k: nat)
    requires 0 < |cells| && Indexable(r.name, |cells|) && exists j :: 0 <= j < |cells| && cells[j].None?
    ensures var n, h := |cells|, HashIndex(r.name, |cells|);
      && k < n && cells[Visited(h, k, n)].None?
      && (forall m :: 0 <= m < k ==> cells[Visited(h, m, n)].Some?)
      && Insert(cells, r) == cells[Visited(h, k, n) := Some(r)]
  {
    var n, h := |cells|, HashIndex(r.name, |cells|);
    EndlessIff(cells, h, None);
    k := Walk(cells, h, 0, None);
    AtIsRemainder(h, k, n);
    forall m | 0 <= m < k
      ensures cells[Visited(h, m, n)].Some?
    {
      AtIsRemainder(h, m, n);
      assert !Stops(cells[At(h, m, n)], None);
    }
  }

  /** A search that met a record before an empty cell is not affected by an insertion. */
  lemma FoundStays(cells: seq<Cell>, r: Record, query: Name)
    requires 0 < |cells| && Indexable(r.name, |cells|) && Indexable(query, |cells|)
    requires Lookup(cells, query).Found?
    ensures Lookup(Insert(cells, r), query) == Lookup(cells, query)
  {
    var n := |cells|;
    var h := HashIndex(query, n);
    var w := Walk(cells, h, 0, Some(query));
    var after := Insert(cells, r);
    forall m | 0 <= m <= w
      ensures after[At(h, m, n)] == cells[At(h, m, n)]
    {
      assert m < w ==> !Stops(cells[At(h, m, n)], Some(query));
    }
    var v := Walk(after, h, 0, Some(query));
    assert v == w;
  }

  /** A search that met an empty cell finds the inserted record exactly when it bears its name. */
  lemma AbsentThenInsert(cells: seq<Cell>, r: Record, query: Name)
    requires 0 < |cells| && Indexable(r.name, |cells|) && Indexable(query, |cells|)
    requires Chained(cells) && Lookup(cells, query).Absent?
    requires NoExtension(Insert(cells, r), query)
    ensures var after := Insert(cells, r);
      Lookup(after, query) ==
        if r.name == query then Found(r)
        else if |Occupied(after)| == |cells| then Endless
        else Absent
  {
    var n := |cells|;
    var h, g := HashIndex(query, n), HashIndex(r.name, n);
    var w, e := Walk(cells, h, 0, Some(query)), Walk(cells, g, 0, None);
    var after := Insert(cells, r);
    EndlessIff(cells, g, None);
    var c, p := At(h, w, n), At(g, e, n);
    assert after == cells[p := Some(r)];
    forall m | 0 <= m < w
      ensures after[At(h, m, n)] == cells[At(h, m, n)]
    {
      assert !Stops(cells[At(h, m, n)], Some(query));
    }
    var v := Walk(after, h, 0, Some(query));
    if r.name == query {
      assert e == w;
      assert v == w;
    } else {
      FullCount(after);
      EndlessIff(after, h, Some(query));
      if v < n && after[At(h, v, n)].Some? {
        NoMatchBehindGap(cells, h, w, v, query);
      } else if v == n {
        forall j | 0 <= j < n
          ensures after[j].Some?
        {
          assert !Stops(after[j], Some(query));
        }
      }
    }
  }

  /** A record with the searched name cannot lie behind a cell that was empty. */
  lemma NoMatchBehindGap(cells: seq<Cell>, h: nat, w: nat, v: nat, query: Name)
    requires 0 < |cells| && Chained(cells) && Indexable(query, |cells|) && h == HashIndex(query, |cells|)
    requires w <= v < |cells| && cells[At(h, w, |cells|)].None?
    ensures var cell := cells[At(h, v, |cells|)]; cell.Some? ==> cell.value.name != query
  {
    assert Dist(h, At(h, v, |cells|), |cells|) == v;
  }
}
