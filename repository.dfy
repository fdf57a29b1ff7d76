/** What every in-memory repository of the system does the same way: a map
    from id to record, GetByID with its two errors, and secondary indexes from
    a parent id to the ids created under it, listed in creation order. */
module Repository {
  import opened Errx

  /** The index list under key k; a missing key reads as the empty list. */
  function IdsUnder(index: map<string, seq<string>>, k: string): seq<string>
  {
    if k in index then index[k] else []
  }

  /** GetByID of an in-memory repository. */
  function GetById<T>(byId: map<string, T>, id: string, notFound: string): (r: Result<T>)
    ensures r.Ok? <==> id != "" && id in byId
    ensures r.Ok? ==> r.value == byId[id]
    ensures r.Err? ==> r.error == New(if id == "" then CodeInvalid else CodeNotFound, if id == "" then "missing id" else notFound)
  {
    if id == "" then Err(New(CodeInvalid, "missing id"))
    else if id !in byId then Err(New(CodeNotFound, notFound))
    else Ok(byId[id])
  }

  /** The records an index list names, in list order, skipping ids with no record. */
  function Collect<T>(ids: seq<string>, byId: map<string, T>): (r: seq<T>)
    ensures |r| <= |ids|
    ensures (forall k :: 0 <= k < |ids| ==> ids[k] in byId) ==> |r| == |ids|
  {
    if ids == [] then []
    else Collect(ids[..|ids| - 1], byId) + (if ids[|ids| - 1] in byId then [byId[ids[|ids| - 1]]] else [])
  }

  /** Every record Collect returns is stored under one of the listed ids. */
  lemma {:induction false} CollectFromIndex<T>(ids: seq<string>, byId: map<string, T>, k: int)
    requires 0 <= k < |Collect(ids, byId)|
    ensures exists j :: 0 <= j < |ids| && ids[j] in byId && Collect(ids, byId)[k] == byId[ids[j]]
    decreases |ids|
  {
    var n := |ids| - 1;
    var front := Collect(ids[..n], byId);
    if k < |front| {
      CollectFromIndex(ids[..n], byId, k);
      var j :| 0 <= j < n && ids[..n][j] in byId && front[k] == byId[ids[..n][j]];
      assert ids[j] == ids[..n][j];
    } else {
      assert ids[n] in byId && Collect(ids, byId)[k] == byId[ids[n]];
    }
  }

  /** Every listed id that has a record contributes that record. */
  lemma {:induction false} CollectContains<T>(ids: seq<string>, byId: map<string, T>, j: int)
    requires 0 <= j < |ids| && ids[j] in byId
    ensures byId[ids[j]] in Collect(ids, byId)
    decreases |ids|
  {
    var n := |ids| - 1;
    if j < n {
      CollectContains(ids[..n], byId, j);
    }
  }

  /** Collect distributes over an appended id. */
  lemma CollectAppend<T>(ids: seq<string>, id: string, byId: map<string, T>)
    ensures Collect(ids + [id], byId) == Collect(ids, byId) + (if id in byId then [byId[id]] else [])
  {
    assert (ids + [id])[..|ids|] == ids;
  }

  /** Storing a record under an id the list does not name leaves what the list
      collects unchanged. */
  lemma {:induction false} CollectIgnoresOtherIds<T>(ids: seq<string>, byId: map<string, T>, id: string, v: T)
    requires id !in ids
    ensures Collect(ids, byId[id := v]) == Collect(ids, byId)
    decreases |ids|
  {
    if ids != [] {
      var n := |ids| - 1;
      assert id !in ids[..n];
      CollectIgnoresOtherIds(ids[..n], byId, id, v);
    }
  }

  /** A listing after an insert is the listing before it with the new record
      at the end: listings come out in insertion order. */
  lemma CollectAfterInsert<T>(ids: seq<string>, byId: map<string, T>, id: string, v: T)
    requires id !in ids
    ensures Collect(ids + [id], byId[id := v]) == Collect(ids, byId) + [v]
  {
    CollectAppend(ids, id, byId[id := v]);
    CollectIgnoresOtherIds(ids, byId, id, v);
  }

  predicate NoDuplicates(s: seq<string>)
  {
    forall a, b :: 0 <= a < b < |s| ==> s[a] != s[b]
  }

  /** The secondary index lists, without repeats, exactly the stored records
      under their parent id. */
  ghost predicate IndexedBy<T>(byId: map<string, T>, index: map<string, seq<string>>, parent: T -> string)
  {
    && (forall k :: k in index ==> NoDuplicates(index[k]))
    && (forall k, j :: k in index && 0 <= j < |index[k]| ==> index[k][j] in byId && parent(byId[index[k][j]]) == k)
    && (forall id :: id in byId ==> id in IdsUnder(index, parent(byId[id])))
  }

  /** Adding a new record and appending its id under its parent keeps the
      index consistent. */
  lemma IndexedByInsert<T>(byId: map<string, T>, index: map<string, seq<string>>, parent: T -> string, id: string, v: T)
    requires IndexedBy(byId, index, parent) && id !in byId
    ensures IndexedBy(byId[id := v], index[parent(v) := IdsUnder(index, parent(v)) + [id]], parent)
    ensures id !in IdsUnder(index, parent(v))
  {
    var p := parent(v);
    var index' := index[p := IdsUnder(index, p) + [id]];
    var byId' := byId[id := v];
    forall k, j | k in index' && 0 <= j < |index'[k]|
      ensures index'[k][j] in byId' && parent(byId'[index'[k][j]]) == k
    {
      if k == p && j == |IdsUnder(index, p)| {
        assert index'[k][j] == id;
      } else {
        assert index'[k][j] == index[k][j];
        assert index[k][j] != id;
      }
    }
    forall id2 | id2 in byId'
      ensures id2 in IdsUnder(index', parent(byId'[id2]))
    {
      if id2 != id {
        var l := IdsUnder(index, parent(byId[id2]));
        var j :| 0 <= j < |l| && l[j] == id2;
        if parent(byId[id2]) == p {
          assert IdsUnder(index', p)[j] == id2;
        }
      } else {
        assert IdsUnder(index', p)[|IdsUnder(index, p)|] == id;
      }
    }
  }

  /** The listing loop every repository runs: collect the record of each id
      that has one, in list order. */
  method CollectListed<T>(ids: seq<string>, byId: map<string, T>) returns (out: seq<T>)
    ensures out == Collect(ids, byId)
  {
    out := [];
    var i := 0;
    while i < |ids|
      invariant 0 <= i <= |ids|
      invariant out == Collect(ids[..i], byId)
    {
      assert ids[..i + 1][..i] == ids[..i];
      if ids[i] in byId {
        out := out + [byId[ids[i]]];
      }
      i := i + 1;
    }
    assert ids[..i] == ids;
  }
}
