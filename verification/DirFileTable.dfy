/** fileInformationTable in its imperative form: the probe loops over the array of cells. */
module DirFileTable {
  import opened Wrappers
  import opened DirTable
  import opened DirLookup

  /** The log after offering more records: what does not fit is dropped. */
  function Accept(log: seq<Record>, more: seq<Record>, n: nat): (after: seq<Record>)
    requires |log| <= n
    ensures |after| <= n && log <= after
    ensures |log| + |more| <= n ==> after == log + more
  {
    if |log| + |more| <= n then log + more else log + more[..n - |log|]
  }

  /** One round of the probe loops' index update. */
  lemma NextIndex(h: nat, k: nat, n: nat)
    requires h < n && k + 1 < n
    ensures (At(h, k, n) + 1) % n == At(h, k + 1, n)
  {
  }

  /** Where an insertion into a table with room goes. */
  lemma InsertPlace(cells: seq<Cell>, log: seq<Record>, h: nat) returns (w: nat)
    requires h < |cells| && |log| < |cells| && AllIndexable(log, |cells|)
    requires cells == Table(log, |cells|)
    ensures w == Walk(cells, h, 0, None) < |cells|
    ensures cells[At(h, w, |cells|)].None?
    ensures forall k :: 0 <= k < w ==> cells[At(h, k, |cells|)].Some?
  {
    w := Walk(cells, h, 0, None);
    TableShape(log, |cells|);
    FullCount(cells);
    EndlessIff(cells, h, None);
  }

  lemma InsertLogged(cells: seq<Cell>, log: seq<Record>, r: Record, p: nat)
    requires 0 < |cells| && |log| < |cells| && AllIndexable(log, |cells|) && Indexable(r.name, |cells|)
    requires cells == Table(log, |cells|)
    requires var w := Walk(cells, HashIndex(r.name, |cells|), 0, None);
      w < |cells| && p == At(HashIndex(r.name, |cells|), w, |cells|)
    ensures AllIndexable(log + [r], |cells|)
    ensures Table(log + [r], |cells|) == cells[p := Some(r)]
  {
    assert (log + [r])[..|log|] == log;
  }

  /** Where a search ends, given that some cell stops it. */
  lemma SearchPlace(cells: seq<Cell>, query: Name) returns (w: nat)
    requires 0 < |cells| && Indexable(query, |cells|)
    requires exists j :: 0 <= j < |cells| && Stops(cells[j], Some(query))
    ensures var n, h := |cells|, HashIndex(query, |cells|);
      && w < n
      && (forall k :: 0 <= k < w ==> cells[At(h, k, n)].Some? && !(query <= cells[At(h, k, n)].value.name))
      && (cells[At(h, w, n)].Some? ==> query <= cells[At(h, w, n)].value.name)
      && Lookup(cells, query) ==
        if cells[At(h, w, n)].Some? then Found(cells[At(h, w, n)].value) else Absent
  {
    EndlessIff(cells, HashIndex(query, |cells|), Some(query));
    w := Walk(cells, HashIndex(query, |cells|), 0, Some(query));
  }

  lemma SearchMeaning(log: seq<Record>, n: nat, query: Name, found: Option<Record>)
    requires 0 < n && AllIndexable(log, n) && |log| <= n && Indexable(query, n)
    requires Lookup(Table(log, n), query) == if found.Some? then Found(found.value) else Absent
    ensures NoneExtends(log, query) ==> found == FirstNamed(log, query)
  {
    if NoneExtends(log, query) {
      LookupRefinesLog(log, n, query);
    }
  }

  class FileInfoTable {
    var len: nat
    const fileInfoList: array<Cell>
    ghost var log: seq<Record>  // the insertions that were accepted, oldest first

    ghost predicate Valid()
      reads this, fileInfoList
    {
      && 0 < fileInfoList.Length
      && AllIndexable(log, fileInfoList.Length)
      && len == |log| <= fileInfoList.Length
      && fileInfoList[..] == Table(log, fileInfoList.Length)
    }

    constructor (tableSize: nat)
      requires 0 < tableSize
      ensures Valid() && log == [] && fileInfoList.Length == tableSize && fresh(fileInfoList)
    {
      fileInfoList := new Cell[tableSize];
      new;
      for i := 0 to tableSize
        invariant forall k :: 0 <= k < i ==> fileInfoList[k] == None
        invariant fresh(fileInfoList)
        modifies fileInfoList
      {
        fileInfoList[i] := None;
      }
      len := 0;
      log := [];
    }

    /** insertFileInfo: -1 and no change when the table is full, otherwise 0 and one more record. */
    method Insert(fileInfo: Record) returns (status: int)
      requires Valid() && Indexable(fileInfo.name, fileInfoList.Length)
      modifies this, fileInfoList
      ensures Valid()
      ensures status == if old(|log|) == fileInfoList.Length then -1 else 0
      ensures log == Accept(old(log), [fileInfo], fileInfoList.Length)
    {
      var n := fileInfoList.Length;
      if len == n {
        return -1;
      }
      ghost var cells := fileInfoList[..];
      var index := HashFunction(fileInfo.name, n);
      ghost var h := index;
      ghost var w := InsertPlace(cells, log, h);
      ghost var k := 0;
      while fileInfoList[index].Some?
        invariant fileInfoList[..] == cells && log == old(log) && len == old(len)
        invariant 0 <= k <= w && index == At(h, k, n)
        decreases w - k
      {
        assert cells[index].Some?;
        NextIndex(h, k, n);
        index := index + 1;
        index := index % n;
        k := k + 1;
      }
      InsertLogged(cells, old(log), fileInfo, index);
      fileInfoList[index] := Some(fileInfo);
      assert fileInfoList[..] == cells[index := Some(fileInfo)];
      len := len + 1;
      log := log + [fileInfo];
      return 0;
    }

    /** searchFileInfo. The loop ends exactly when some cell stops it (EndlessIff). */
    method Search(fileName: Name) returns (found: Option<Record>)
      requires Valid() && Indexable(fileName, fileInfoList.Length)
      requires exists j :: 0 <= j < fileInfoList.Length && Stops(fileInfoList[j], Some(fileName))
      ensures Lookup(fileInfoList[..], fileName) == if found.Some? then Found(found.value) else Absent
      ensures NoneExtends(log, fileName) ==> found == FirstNamed(log, fileName)
    {
      var n := fileInfoList.Length;
      assert fileInfoList[..][..] == fileInfoList[..];
      ghost var w := SearchPlace(fileInfoList[..], fileName);
      var index := HashFunction(fileName, n);
      ghost var h := index;
      ghost var k := 0;
      found := None;
      while fileInfoList[index].Some?
        invariant 0 <= k <= w && index == At(h, k, n)
        invariant found == None
        decreases w - k
      {
        if fileName <= fileInfoList[index].value.name {
          found := fileInfoList[index];
          break;
        }
        NextIndex(h, k, n);
        index := index + 1;
        index := index % n;
        k := k + 1;
      }
      SearchMeaning(log, n, fileName, found);
    }

    /** The loops that store the records of a FILE_INFO or FILE_INFO_SHARE packet; they ignore the
        status of each insertion. */
    method InsertAll(files: seq<Record>)
      requires Valid() && AllIndexable(files, fileInfoList.Length)
      modifies this, fileInfoList
      ensures Valid()
      ensures log == Accept(old(log), files, fileInfoList.Length)
    {
      for i := 0 to |files|
        invariant Valid()
        invariant log == Accept(old(log), files[..i], fileInfoList.Length)
      {
        AcceptOneMore(old(log), files, i, fileInfoList.Length);
        var _ := Insert(files[i]);
      }
      assert files[..|files|] == files;
    }
  }

  lemma AcceptOneMore(log: seq<Record>, files: seq<Record>, i: nat, n: nat)
    requires |log| <= n && i < |files|
    ensures Accept(log, files[..i + 1], n) == Accept(Accept(log, files[..i], n), [files[i]], n)
  {
    assert files[..i + 1] == files[..i] + [files[i]];
  }
}
