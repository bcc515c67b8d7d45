/** The download registry (registry.py): the YouTube ids already fetched, and which id each
    successful query or URL resolved to. */
module Registry {
  import opened Wrappers
  import OsPath
  import Config

  /** The JSON document `{"ids": [...], "queries": {...}}`. */
  datatype Data = Data(ids: seq<string>, queries: map<string, string>)

  /** The record `_load` falls back to when the file is missing or unreadable. */
  function Empty(): (d: Data)
    ensures d.ids == [] && d.queries == map[]
  {
    Data([], map[])
  }

  predicate NoDup(s: seq<string>) {
    forall i, j :: 0 <= i < j < |s| ==> s[i] != s[j]
  }

  /** Every recorded query points at a recorded id. */
  predicate Consistent(d: Data) {
    forall q :: q in d.queries ==> d.queries[q] in d.ids
  }

  /** The record after `add(query, ytid)`. */
  function Added(d: Data, query: string, ytid: string): (r: Data)
    ensures r.queries == d.queries[query := ytid]
    ensures ytid in r.ids
    ensures d.ids <= r.ids && |r.ids| <= |d.ids| + 1
    ensures |r.ids| == |d.ids| + 1 <==> ytid !in d.ids
    ensures forall q :: q != query && q in d.queries ==> q in r.queries && r.queries[q] == d.queries[q]
  {
    var ids := if ytid in d.ids then d.ids else d.ids + [ytid];
    Data(ids, d.queries[query := ytid])
  }

  /** The ids of `ids` that are in `existing`, in their original order. */
  function Kept(ids: seq<string>, existing: set<string>): (r: seq<string>)
    ensures |r| <= |ids|
    ensures forall x :: x in r <==> x in ids && x in existing
  {
    if ids == [] then []
    else
      var last := ids[|ids| - 1];
      Kept(ids[..|ids| - 1], existing) + (if last in existing then [last] else [])
  }

  /** The queries whose id is in `existing`. */
  function KeptQueries(queries: map<string, string>, existing: set<string>): (r: map<string, string>)
    ensures forall q :: q in r <==> q in queries && queries[q] in existing
    ensures forall q :: q in r ==> r[q] == queries[q]
  {
    map q | q in queries && queries[q] in existing :: queries[q]
  }

  /** The record after `sync_with_disk(existing)`. */
  function Synced(d: Data, existing: set<string>): Data {
    Data(Kept(d.ids, existing), KeptQueries(d.queries, existing))
  }

  // ---------------------------------------------------------------- properties of the record

  /** Adding the same pair twice is the same as adding it once. */
  lemma AddIdempotent(d: Data, query: string, ytid: string)
    ensures Added(Added(d, query, ytid), query, ytid) == Added(d, query, ytid)
  {
    var once := Added(d, query, ytid);
    assert once.queries[query := ytid] == once.queries;
  }

  /** `add` introduces no duplicate id. */
  lemma AddKeepsNoDup(d: Data, query: string, ytid: string)
    requires NoDup(d.ids)
    ensures NoDup(Added(d, query, ytid).ids)
  {
    var ids := Added(d, query, ytid).ids;
    if ytid !in d.ids {
      forall i, j | 0 <= i < j < |ids|
        ensures ids[i] != ids[j]
      {
        if j == |d.ids| {
          assert ids[i] == d.ids[i];
        }
      }
    }
  }

  lemma AddKeepsConsistent(d: Data, query: string, ytid: string)
    requires Consistent(d)
    ensures Consistent(Added(d, query, ytid))
  {
    var r := Added(d, query, ytid);
    forall q | q in r.queries
      ensures r.queries[q] in r.ids
    {
      if q != query {
        assert d.queries[q] in d.ids;
        assert d.ids <= r.ids;
      }
    }
  }

  /** Filtering twice by the same set filters nothing more. */
  lemma {:induction false} KeptIdempotent(ids: seq<string>, existing: set<string>)
    ensures Kept(Kept(ids, existing), existing) == Kept(ids, existing)
  {
    if ids != [] {
      var init, last := ids[..|ids| - 1], ids[|ids| - 1];
      KeptIdempotent(init, existing);
      var k := Kept(init, existing);
      if last in existing {
        var kk := k + [last];
        assert Kept(ids, existing) == kk;
        assert kk[..|kk| - 1] == k && kk[|kk| - 1] == last;
        assert Kept(kk, existing) == Kept(k, existing) + [last];
      } else {
        assert Kept(ids, existing) == k + [];
        assert k + [] == k;
      }
    }
  }

  /** When every id is still on disk, the id list is untouched (so nothing is saved). */
  lemma {:induction false} KeptAll(ids: seq<string>, existing: set<string>)
    requires forall i :: 0 <= i < |ids| ==> ids[i] in existing
    ensures Kept(ids, existing) == ids
  {
    if ids != [] {
      var init, last := ids[..|ids| - 1], ids[|ids| - 1];
      KeptAll(init, existing);
      assert last in existing;
      assert Kept(ids, existing) == init + [last];
      assert init + [last] == ids;
    }
  }

  /** Some id of `ids` is not on disk. */
  predicate SomeMissing(ids: seq<string>, existing: set<string>) {
    exists i :: 0 <= i < |ids| && ids[i] !in existing
  }

  /** An id is missing from `ids` exactly when it is missing from all but the last, or the last
      one is. */
  lemma SomeMissingSnoc(ids: seq<string>, existing: set<string>)
    requires ids != []
    ensures SomeMissing(ids, existing)
        <==> SomeMissing(ids[..|ids| - 1], existing) || ids[|ids| - 1] !in existing
  {
    var init := ids[..|ids| - 1];
    if SomeMissing(init, existing) {
      var i :| 0 <= i < |init| && init[i] !in existing;
      assert ids[i] !in existing;
    }
    if SomeMissing(ids, existing) {
      var i :| 0 <= i < |ids| && ids[i] !in existing;
      if i < |init| { assert init[i] !in existing; }
    }
  }

  /** The id list shrinks exactly when some id is no longer on disk. */
  lemma {:induction false} KeptShrinks(ids: seq<string>, existing: set<string>)
    ensures |Kept(ids, existing)| < |ids| <==> SomeMissing(ids, existing)
  {
    if ids != [] {
      var init, last := ids[..|ids| - 1], ids[|ids| - 1];
      KeptShrinks(init, existing);
      SomeMissingSnoc(ids, existing);
      assert |Kept(ids, existing)| == |Kept(init, existing)| + (if last in existing then 1 else 0);
    }
  }

  /** Filtering never repeats a survivor. */
  lemma {:induction false} KeptNoDup(ids: seq<string>, existing: set<string>)
    requires NoDup(ids)
    ensures NoDup(Kept(ids, existing))
  {
    if ids != [] {
      var init, last := ids[..|ids| - 1], ids[|ids| - 1];
      assert NoDup(init) by {
        forall i, j | 0 <= i < j < |init| ensures init[i] != init[j] {
          assert init[i] == ids[i] && init[j] == ids[j];
        }
      }
      KeptNoDup(init, existing);
      var k := Kept(init, existing);
      if last in existing {
        assert last !in init by {
          forall i | 0 <= i < |init| ensures init[i] != last {
            assert init[i] == ids[i];
          }
        }
        var kk := k + [last];
        forall i, j | 0 <= i < j < |kk| ensures kk[i] != kk[j] {
          if j == |k| { assert kk[i] in k; }
        }
      }
    }
  }

  /** A second `sync_with_disk` with the same ids on disk changes nothing. */
  lemma SyncIdempotent(d: Data, existing: set<string>)
    ensures Synced(Synced(d, existing), existing) == Synced(d, existing)
  {
    KeptIdempotent(d.ids, existing);
    var once := Synced(d, existing);
    assert KeptQueries(once.queries, existing) == once.queries;
  }

  /** Syncing keeps every surviving query pointing at a surviving id. */
  lemma SyncKeepsConsistent(d: Data, existing: set<string>)
    requires Consistent(d)
    ensures Consistent(Synced(d, existing))
  {
    var r := Synced(d, existing);
    forall q | q in r.queries
      ensures r.queries[q] in r.ids
    {
      assert d.queries[q] in d.ids;
    }
  }

  /** Queries are checked against the ids on disk, not against the recorded ids: a query whose
      id was never recorded survives when that id is on disk. */
  lemma SyncTestsDisk(query: string, ytid: string)
    ensures var r := Synced(Data([], map[query := ytid]), {ytid});
      query in r.queries && ytid !in r.ids
  {
    var d := Data([], map[query := ytid]);
    assert d.queries[query] in {ytid};
  }

  // ---------------------------------------------------------------- the stateful registry

  class Registry {
    /** `DOWNLOAD_DIR/.registry.json`. */
    const path: string
    var data: Data
    /** The records written to `path`, oldest first. */
    var saves: seq<Data>

    /** `Registry()`: `loaded` is the parsed registry file, or `None` when the file is
        missing or cannot be parsed. */
    constructor (loaded: Option<Data>)
      ensures path == OsPath.Join(Config.DownloadDir, Config.RegistryFile)
      ensures data == (if loaded.Some? then loaded.value else Empty())
      ensures saves == []
    {
      path := OsPath.Join(Config.DownloadDir, Config.RegistryFile);
      data := if loaded.Some? then loaded.value else Empty();
      saves := [];
    }

    /** `save()`: the current record is written to `path`. */
    method Save()
      modifies this
      ensures data == old(data)
      ensures saves == old(saves) + [data]
    {
      saves := saves + [data];
    }

    /** `is_downloaded(query, ytid)`: the query succeeded before, or a non-empty `ytid` is
        recorded. A query that only equals a recorded id does not count. */
    function IsDownloaded(query: string, ytid: Option<string>): (r: bool)
      reads this
      ensures r <==> query in data.queries || (Truthy(ytid) && ytid.value in data.ids)
    {
      if query in data.queries then true
      else if ytid.Some? && ytid.value != [] && ytid.value in data.ids then true
      else false
    }

    /** `add(query, ytid)`. */
    method Add(query: string, ytid: string)
      modifies this
      ensures data == Added(old(data), query, ytid)
      ensures saves == old(saves)
      ensures forall y :: IsDownloaded(query, y)
      ensures ytid != [] ==> forall q :: IsDownloaded(q, Some(ytid))
    {
      if ytid !in data.ids {
        data := data.(ids := data.ids + [ytid]);
      }
      data := data.(queries := data.queries[query := ytid]);
    }

    /** `sync_with_disk(existing_ids)`: drops the ids not on disk and the queries whose id is
        not on disk, and saves only when the id list shrank. */
    method SyncWithDisk(existing: set<string>)
      modifies this
      ensures data == Synced(old(data), existing)
      ensures saves == old(saves) + (if |data.ids| < |old(data.ids)| then [data] else [])
    {
      var initialCount := |data.ids|;
      var ids := KeepIds(data.ids, existing);
      data := data.(ids := ids);
      var newQueries := KeepQueries(data.queries, existing);
      data := data.(queries := newQueries);

      if initialCount - |data.ids| > 0 {
        Save();
      }
    }

    /** The first loop of `sync_with_disk`: the ids on disk, in their order. */
    static method KeepIds(ids: seq<string>, existing: set<string>) returns (kept: seq<string>)
      ensures kept == Kept(ids, existing)
    {
      kept := [];
      for k := 0 to |ids|
        invariant kept == Kept(ids[..k], existing)
      {
        assert ids[..k + 1][..k] == ids[..k];
        if ids[k] in existing {
          kept := kept + [ids[k]];
        }
      }
      assert ids[..|ids|] == ids;
    }

    /** The second loop of `sync_with_disk`: the queries whose id is on disk. */
    static method KeepQueries(queries: map<string, string>, existing: set<string>)
      returns (kept: map<string, string>)
      ensures kept == KeptQueries(queries, existing)
    {
      kept := map[];
      var pending := queries.Keys;
      while pending != {}
        invariant pending <= queries.Keys
        invariant kept == KeptQueries(queries, existing) - pending
        decreases pending
      {
        var query :| query in pending;
        if queries[query] in existing {
          kept := kept[query := queries[query]];
        }
        pending := pending - {query};
      }
    }
  }
}
