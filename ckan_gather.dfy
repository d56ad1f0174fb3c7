/**
 * The CKAN harvester's stages: `gather_stage` reconciles the remote listing
 * with this source's current harvest objects (one `delete` object per guid
 * that disappeared, one `update` object per listed dataset);
 * `_last_error_free_job` picks the latest clean earlier job; `fetch_stage`
 * has nothing to do; and the first guards of `import_stage` decide whether
 * an object gets as far as the per-source field remapping.
 */
module CkanGather {
  import opened Text
  import opened Store
  import opened PyJson
  import opened CkanConfig
  import opened CkanSearch
  import Currency

  // ---------------------------------------------------------------------------
  // _last_error_free_job

  /**
   * A job the query of `_last_error_free_job` returns for job `jobId`: same
   * source, gather started, Finished, another job, and no gather error.
   */
  predicate Candidate(jobs: seq<Job>, gatherErrors: seq<GatherError>, jobId: nat, i: nat)
    requires jobId < |jobs|
  {
    && i < |jobs|
    && jobs[i].sourceId == jobs[jobId].sourceId
    && jobs[i].gatherStarted.Some?
    && jobs[i].status == Finished
    && i != jobId
    && forall e :: 0 <= e < |gatherErrors| ==> gatherErrors[e].jobId != i
  }

  /** No object of job `i` has `current is False` with a report status other than 'not modified'. */
  predicate Clean(objects: seq<HarvestObject>, i: nat) {
    forall k :: 0 <= k < |objects| && objects[k].jobId == i ==>
      objects[k].current || objects[k].reportStatus == Some("not modified")
  }

  predicate ErrorFree(jobs: seq<Job>, objects: seq<HarvestObject>, gatherErrors: seq<GatherError>, jobId: nat, i: nat)
    requires jobId < |jobs|
  {
    Candidate(jobs, gatherErrors, jobId, i) && Clean(objects, i)
  }

  /**
   * `_last_error_free_job(harvest_job)` over the first `n` jobs: the first
   * clean job in order of `gather_started`, latest first; None when there is
   * none. Among jobs started at the same instant the query order is not
   * fixed; this model takes the one created last.
   */
  function LastErrorFreeJob(jobs: seq<Job>, objects: seq<HarvestObject>, gatherErrors: seq<GatherError>,
                            jobId: nat, n: nat): (r: Option<nat>)
    requires jobId < |jobs| && n <= |jobs|
    ensures r.Some? ==> r.value < n && ErrorFree(jobs, objects, gatherErrors, jobId, r.value)
    ensures r.Some? ==> forall i :: 0 <= i < n && ErrorFree(jobs, objects, gatherErrors, jobId, i) ==>
      jobs[i].gatherStarted.value <= jobs[r.value].gatherStarted.value
    ensures r.None? <==> forall i :: 0 <= i < n ==> !ErrorFree(jobs, objects, gatherErrors, jobId, i)
  {
    if n == 0 then None
    else
      var best := LastErrorFreeJob(jobs, objects, gatherErrors, jobId, n - 1);
      if ErrorFree(jobs, objects, gatherErrors, jobId, n - 1) &&
         (best.None? || jobs[best.value].gatherStarted.value <= jobs[n - 1].gatherStarted.value)
      then Some(n - 1)
      else best
  }

  // ---------------------------------------------------------------------------
  // gather_stage: the reconciliation

  /** `guids_in_db`: the guids of the source's current objects. */
  function CurrentGuids(objs: seq<HarvestObject>, sourceId: string): set<string> {
    set i | 0 <= i < |objs| && objs[i].current && objs[i].sourceId == sourceId :: objs[i].guid
  }

  /**
   * The bulk `update({'current': False})` for each guid of `guids`: every
   * object with that guid, of any source, stops being current.
   */
  function ClearCurrent(objs: seq<HarvestObject>, guids: set<string>): (r: seq<HarvestObject>)
    ensures |r| == |objs|
    ensures forall i :: 0 <= i < |r| ==> r[i] == if objs[i].guid in guids then objs[i].(current := false) else objs[i]
  {
    seq(|objs|, i requires 0 <= i < |objs| =>
      if objs[i].guid in guids then objs[i].(current := false) else objs[i])
  }

  function DeleteObject(guid: string, jobId: nat, sourceId: string): HarvestObject {
    HarvestObject(guid, jobId, sourceId, None, false, None, Some("delete"), None)
  }

  function DeleteObjects(guids: seq<string>, jobId: nat, sourceId: string): (r: seq<HarvestObject>)
    ensures |r| == |guids| && forall i :: 0 <= i < |r| ==> r[i] == DeleteObject(guids[i], jobId, sourceId)
  {
    seq(|guids|, i requires 0 <= i < |guids| => DeleteObject(guids[i], jobId, sourceId))
  }

  /** One `update` object per listing entry, in listing order, with the entry as content. */
  function UpdateObjects(ds: seq<Dataset>, jobId: nat, sourceId: string): (r: seq<HarvestObject>)
    ensures |r| == |ds|
  {
    if ds == [] then []
    else
      var last := ds[|ds| - 1];
      UpdateObjects(ds[..|ds| - 1], jobId, sourceId) +
      [HarvestObject(last.id, jobId, sourceId, None, false, Some(last.dump), Some("update"), None)]
  }

  function Elems(s: seq<string>): set<string> {
    set i | 0 <= i < |s| :: s[i]
  }

  /**
   * The objects after the reconciliation: the old ones with the deleted
   * guids no longer current, then one delete object per guid of
   * `toDelete` (in the set's iteration order, `guids`), then the update objects.
   */
  function Reconciled(before: seq<HarvestObject>, toDelete: set<string>, guids: seq<string>, ds: seq<Dataset>,
                      jobId: nat, sourceId: string): seq<HarvestObject> {
    ClearCurrent(before, toDelete) + DeleteObjects(guids, jobId, sourceId) + UpdateObjects(ds, jobId, sourceId)
  }

  lemma ElemsAppend(s: seq<string>, x: string)
    ensures Elems(s + [x]) == Elems(s) + {x}
  {
    var t := s + [x];
    forall y | y in Elems(t) ensures y in Elems(s) + {x} {
      var i :| 0 <= i < |t| && t[i] == y;
      if i < |s| { assert t[i] == s[i]; }
    }
    forall y | y in Elems(s) ensures y in Elems(t) {
      var i :| 0 <= i < |s| && s[i] == y;
      assert t[i] == y;
    }
    assert t[|s|] == x;
  }

  /** `package_ids`: the ids of the listing, skipping those already added. */
  method ListingIds(ds: seq<Dataset>) returns (ids: set<string>)
    ensures ids == Ids(ds)
  {
    ids := {};
    var i := 0;
    while i < |ds|
      invariant 0 <= i <= |ds|
      invariant ids == Ids(ds[..i])
    {
      if ds[i].id !in ids {
        ids := ids + {ds[i].id};
      }
      assert Ids(ds[..i + 1]) == Ids(ds[..i]) + {ds[i].id} by {
        assert ds[..i + 1] == ds[..i] + [ds[i]];
        IdsOfPrefix(ds[..i + 1]);
      }
      i := i + 1;
    }
    assert ds[..i] == ds;
  }

  /** Clearing objects that are not current changes nothing. */
  lemma ClearCurrentOfIdle(objs: seq<HarvestObject>, guids: set<string>)
    requires forall i :: 0 <= i < |objs| ==> !objs[i].current
    ensures ClearCurrent(objs, guids) == objs
  {
  }

  lemma ClearCurrentTwice(objs: seq<HarvestObject>, a: set<string>, b: set<string>)
    ensures ClearCurrent(ClearCurrent(objs, a), b) == ClearCurrent(objs, a + b)
  {
  }

  lemma ClearCurrentOfAppend(objs: seq<HarvestObject>, more: seq<HarvestObject>, guids: set<string>)
    ensures ClearCurrent(objs + more, guids) == ClearCurrent(objs, guids) + ClearCurrent(more, guids)
  {
  }

  /**
   * The deletion loop of `gather_stage`: for each guid of `toDelete`, in some
   * order, every object with that guid stops being current and a delete
   * object is appended. Returns the new objects and the order taken.
   */
  method EmitDeletes(objs0: seq<HarvestObject>, toDelete: set<string>, jobId: nat, sourceId: string)
    returns (objs: seq<HarvestObject>, guids: seq<string>)
    ensures Elems(guids) == toDelete && |guids| == |toDelete|
    ensures objs == ClearCurrent(objs0, toDelete) + DeleteObjects(guids, jobId, sourceId)
  {
    objs, guids := objs0, [];
    var remaining := toDelete;
    while remaining != {}
      invariant remaining <= toDelete
      invariant Elems(guids) == toDelete - remaining && |guids| + |remaining| == |toDelete|
      invariant objs == ClearCurrent(objs0, toDelete - remaining) + DeleteObjects(guids, jobId, sourceId)
      decreases remaining
    {
      var g :| g in remaining;
      ghost var done := toDelete - remaining;
      ClearCurrentOfAppend(ClearCurrent(objs0, done), DeleteObjects(guids, jobId, sourceId), {g});
      ClearCurrentTwice(objs0, done, {g});
      ClearCurrentOfIdle(DeleteObjects(guids, jobId, sourceId), {g});
      assert done + {g} == toDelete - (remaining - {g});
      objs := ClearCurrent(objs, {g}) + [DeleteObject(g, jobId, sourceId)];
      ElemsAppend(guids, g);
      assert DeleteObjects(guids + [g], jobId, sourceId) == DeleteObjects(guids, jobId, sourceId) + [DeleteObject(g, jobId, sourceId)];
      guids := guids + [g];
      remaining := remaining - {g};
    }
  }

  /**
   * How many listing entries get an update object: the log call before each
   * one reads `pkg_dict['name']`, so the first entry without a name raises
   * KeyError and ends the loop.
   */
  function NamedPrefix(ds: seq<Dataset>): (n: nat)
    ensures n <= |ds|
    ensures forall i :: 0 <= i < n ==> ds[i].name.Some?
    ensures n < |ds| ==> ds[n].name.None?
  {
    if ds == [] || ds[0].name.None? then 0 else 1 + NamedPrefix(ds[1..])
  }

  /**
   * The update loop of `gather_stage`: one update object appended per listing
   * entry, up to the first entry without a name; `complete` is false when
   * that entry stopped the loop.
   */
  method EmitUpdates(objs0: seq<HarvestObject>, ds: seq<Dataset>, jobId: nat, sourceId: string)
    returns (objs: seq<HarvestObject>, complete: bool)
    ensures complete <==> NamedPrefix(ds) == |ds|
    ensures objs == objs0 + UpdateObjects(ds[..NamedPrefix(ds)], jobId, sourceId)
  {
    objs := objs0;
    var i := 0;
    while i < |ds|
      invariant 0 <= i <= NamedPrefix(ds)
      invariant objs == objs0 + UpdateObjects(ds[..i], jobId, sourceId)
    {
      if ds[i].name.None? {
        return objs, false;
      }
      objs := objs + [HarvestObject(ds[i].id, jobId, sourceId, None, false, Some(ds[i].dump), Some("update"), None)];
      assert ds[..i + 1][..i] == ds[..i];
      i := i + 1;
    }
    assert ds[..i] == ds;
    complete := true;
  }

  /**
   * After the reconciliation the source's current guids are exactly those it
   * had that are still listed: the ones that disappeared are no longer
   * current and the new objects are not current yet.
   */
  lemma ReconciledCurrentGuids(before: seq<HarvestObject>, listed: set<string>, guids: seq<string>,
                               ds: seq<Dataset>, jobId: nat, sourceId: string)
    ensures var toDelete := CurrentGuids(before, sourceId) - listed;
      CurrentGuids(Reconciled(before, toDelete, guids, ds, jobId, sourceId), sourceId) ==
      CurrentGuids(before, sourceId) * listed
  {
    var toDelete := CurrentGuids(before, sourceId) - listed;
    var after := Reconciled(before, toDelete, guids, ds, jobId, sourceId);
    var tail := DeleteObjects(guids, jobId, sourceId) + UpdateObjects(ds, jobId, sourceId);
    UpdateObjectsIdle(ds, jobId, sourceId);
    assert after == ClearCurrent(before, toDelete) + tail;
    forall g | g in CurrentGuids(after, sourceId) ensures g in CurrentGuids(before, sourceId) * listed {
      var i :| 0 <= i < |after| && after[i].current && after[i].sourceId == sourceId && after[i].guid == g;
      assert before[i].current && before[i].guid !in toDelete;
    }
    forall g | g in CurrentGuids(before, sourceId) * listed ensures g in CurrentGuids(after, sourceId) {
      var i :| 0 <= i < |before| && before[i].current && before[i].sourceId == sourceId && before[i].guid == g;
      assert after[i] == before[i];
    }
  }

  lemma {:induction false} UpdateObjectsIdle(ds: seq<Dataset>, jobId: nat, sourceId: string)
    ensures forall i :: 0 <= i < |ds| ==> !UpdateObjects(ds, jobId, sourceId)[i].current
    ensures forall i :: 0 <= i < |ds| ==> UpdateObjects(ds, jobId, sourceId)[i].content == Some(ds[i].dump)
    ensures forall i :: 0 <= i < |ds| ==> UpdateObjects(ds, jobId, sourceId)[i].guid == ds[i].id
    ensures forall i :: 0 <= i < |ds| ==> UpdateObjects(ds, jobId, sourceId)[i].status == Some("update")
  {
    if ds != [] {
      UpdateObjectsIdle(ds[..|ds| - 1], jobId, sourceId);
    }
  }

  /**
   * The flag clearing is not limited to the gathering source: an object of
   * any source whose guid disappeared from this source's listing stops being
   * current; nothing else of the old objects changes.
   */
  lemma ReconciledClearsEverySource(before: seq<HarvestObject>, toDelete: set<string>, guids: seq<string>,
                                    ds: seq<Dataset>, jobId: nat, sourceId: string, i: nat)
    requires i < |before|
    ensures var after := Reconciled(before, toDelete, guids, ds, jobId, sourceId);
      && (before[i].guid in toDelete ==> !after[i].current)
      && after[i].(current := before[i].current) == before[i]
      && (before[i].guid !in toDelete ==> after[i] == before[i])
  {
  }

  /** The reconciliation keeps at most one current object per dataset. */
  lemma ReconciledKeepsOneCurrent(before: seq<HarvestObject>, toDelete: set<string>, guids: seq<string>,
                                  ds: seq<Dataset>, jobId: nat, sourceId: string)
    requires Currency.OneCurrentPerPackage(before)
    ensures Currency.OneCurrentPerPackage(Reconciled(before, toDelete, guids, ds, jobId, sourceId))
  {
    var after := Reconciled(before, toDelete, guids, ds, jobId, sourceId);
    var tail := DeleteObjects(guids, jobId, sourceId) + UpdateObjects(ds, jobId, sourceId);
    UpdateObjectsIdle(ds, jobId, sourceId);
    assert after == ClearCurrent(before, toDelete) + tail;
    forall i, j | 0 <= i < |after| && 0 <= j < |after| && i != j && after[i].current && after[j].current &&
                  after[i].packageId.Some?
      ensures after[i].packageId != after[j].packageId
    {
      assert before[i].current && before[j].current;
    }
  }

  // ---------------------------------------------------------------------------
  // gather_stage

  datatype GatherOutcome =
    | Gathered(objectIds: seq<nat>)  // the ids of the objects created
    | GatherEnded                    // returned None
    | GatherCrashed                  // an exception escaped

  /** How `gather_stage` goes on once the configuration is loaded and the remote searched. */
  datatype GatherPlan =
    | Abort                          // the configuration raised, is not a dict, has a filter that cannot be iterated, or the search raised
    | Stop(failure: GatherFailure)   // a gather error is saved and None returned
    | Reconcile(ds: seq<Dataset>)    // objects are created for this listing

  /** `self.config.get(key, [])` on a dict configuration. */
  function FilterOf(fields: map<string, Json>, key: string): Json {
    if key in fields then fields[key] else JArray([])
  }

  /**
   * The organisation filters raise TypeError: the include filter, or when it
   * is falsy the exclude filter, is truthy but cannot be iterated to build
   * the `fq` terms. Nothing catches it.
   */
  predicate FilterRaises(fields: map<string, Json>) {
    var inFilter := FilterOf(fields, "organizations_filter_include");
    var outFilter := FilterOf(fields, "organizations_filter_exclude");
    if PyTruth(inFilter) then !Iterable(inFilter) else PyTruth(outFilter) && !Iterable(outFilter)
  }

  /** The loaded configuration gets `gather_stage` as far as the search. */
  predicate ReachesSearch(loaded: Loaded) {
    loaded.raised.None? && loaded.settings.config.JObject? && !FilterRaises(loaded.settings.config.fields)
  }

  function PlanGather(loaded: Loaded, search: SearchResult): (p: GatherPlan)
    ensures p == Abort <==> !ReachesSearch(loaded) || search.Unhandled?
    ensures p.Reconcile? <==> ReachesSearch(loaded) && search.Found? && Flatten(search.pages) != []
    ensures p.Reconcile? ==> p.ds == Flatten(search.pages)
    ensures p == Stop(SearchFailed) <==> ReachesSearch(loaded) && search.Failed?
    ensures p == Stop(NoDatasetsFound) <==> ReachesSearch(loaded) && search.Found? && Flatten(search.pages) == []
  {
    if !ReachesSearch(loaded) then Abort
    else match search
      case Unhandled => Abort
      case Failed(_) => Stop(SearchFailed)
      case Found(pages) => if Flatten(pages) == [] then Stop(NoDatasetsFound) else Reconcile(Flatten(pages))
  }

  /**
   * A number as the include filter, which `validate_config` does not check,
   * makes the gather stage raise whatever the remote holds; an exclude filter
   * is then not looked at.
   */
  lemma NumericFilterAborts(apiVersion: int, outFilter: Json, search: SearchResult)
    ensures var fields := map["organizations_filter_include" := JInt(5), "organizations_filter_exclude" := outFilter];
      PlanGather(Loaded(Settings(JObject(fields), apiVersion), None), search) == Abort
  {
  }

  /** Filters given as lists of organisation names, or left out, never stop the gather stage. */
  lemma ListFiltersReachSearch(fields: map<string, Json>)
    requires forall key :: key in fields && key in {"organizations_filter_include", "organizations_filter_exclude"} ==>
      fields[key].JArray?
    ensures !FilterRaises(fields)
  {
  }

  /**
   * The object writes of `gather_stage` for a non-empty listing `ds`: deletes
   * for the source's current guids that are no longer listed, in some order,
   * then updates for the entries before the first one without a name.
   */
  ghost predicate Wrote(before: seq<HarvestObject>, after: seq<HarvestObject>, ds: seq<Dataset>,
                        jobId: nat, sourceId: string)
  {
    var toDelete := CurrentGuids(before, sourceId) - Ids(ds);
    exists guids :: Elems(guids) == toDelete && |guids| == |toDelete| &&
      after == Reconciled(before, toDelete, guids, ds[..NamedPrefix(ds)], jobId, sourceId)
  }

  /** `object_ids`: the ids of the objects appended after `before`, one per deleted guid and one per update. */
  function Created(before: seq<HarvestObject>, ds: seq<Dataset>, sourceId: string): seq<nat> {
    Currency.Range(|before|, |CurrentGuids(before, sourceId) - Ids(ds)| + NamedPrefix(ds))
  }

  /** The writes, with `complete` false when an entry without a name stopped them. */
  method ReconcileObjects(db: Db, ds: seq<Dataset>, jobId: nat, sourceId: string)
    returns (created: seq<nat>, complete: bool)
    modifies db`objects
    ensures Wrote(old(db.objects), db.objects, ds, jobId, sourceId)
    ensures created == Created(old(db.objects), ds, sourceId)
    ensures complete <==> NamedPrefix(ds) == |ds|
  {
    var before := db.objects;
    var guidsInDb := CurrentGuids(before, sourceId);
    var packageIds := ListingIds(ds);
    var toDelete := guidsInDb - packageIds;
    var objs, guids := EmitDeletes(before, toDelete, jobId, sourceId);
    objs, complete := EmitUpdates(objs, ds, jobId, sourceId);
    db.objects := objs;
    created := Currency.Range(|before|, |toDelete| + NamedPrefix(ds));
  }

  /**
   * After the gather stage's writes, the source's current guids are those it
   * had that are still listed, whether or not an entry without a name
   * stopped the updates.
   */
  lemma WroteCurrentGuids(before: seq<HarvestObject>, after: seq<HarvestObject>, ds: seq<Dataset>,
                          jobId: nat, sourceId: string)
    requires Wrote(before, after, ds, jobId, sourceId)
    ensures CurrentGuids(after, sourceId) == CurrentGuids(before, sourceId) * Ids(ds)
  {
    var toDelete := CurrentGuids(before, sourceId) - Ids(ds);
    var guids :| Elems(guids) == toDelete && |guids| == |toDelete| &&
      after == Reconciled(before, toDelete, guids, ds[..NamedPrefix(ds)], jobId, sourceId);
    ReconciledCurrentGuids(before, Ids(ds), guids, ds[..NamedPrefix(ds)], jobId, sourceId);
  }

  /** The gather stage's writes keep at most one current object per dataset. */
  lemma WroteKeepsOneCurrent(before: seq<HarvestObject>, after: seq<HarvestObject>, ds: seq<Dataset>,
                             jobId: nat, sourceId: string)
    requires Wrote(before, after, ds, jobId, sourceId)
    requires Currency.OneCurrentPerPackage(before)
    ensures Currency.OneCurrentPerPackage(after)
  {
    var toDelete := CurrentGuids(before, sourceId) - Ids(ds);
    var guids :| Elems(guids) == toDelete && |guids| == |toDelete| &&
      after == Reconciled(before, toDelete, guids, ds[..NamedPrefix(ds)], jobId, sourceId);
    ReconciledKeepsOneCurrent(before, toDelete, guids, ds[..NamedPrefix(ds)], jobId, sourceId);
  }

  /**
   * The gather stage only appends: one object per deleted guid and one per
   * entry before the first without a name, at the positions `Created` lists.
   */
  lemma WroteAppends(before: seq<HarvestObject>, after: seq<HarvestObject>, ds: seq<Dataset>,
                     jobId: nat, sourceId: string)
    requires Wrote(before, after, ds, jobId, sourceId)
    ensures |after| == |before| + |CurrentGuids(before, sourceId) - Ids(ds)| + NamedPrefix(ds)
    ensures Created(before, ds, sourceId) == Currency.Range(|before|, |after| - |before|)
  {
    var toDelete := CurrentGuids(before, sourceId) - Ids(ds);
    var guids :| Elems(guids) == toDelete && |guids| == |toDelete| &&
      after == Reconciled(before, toDelete, guids, ds[..NamedPrefix(ds)], jobId, sourceId);
  }

  /**
   * What each appended object is: first a delete object, without content,
   * for a guid that disappeared; then an update object per listing entry, in
   * order, carrying the entry's id and dump.
   */
  lemma WroteNewObject(before: seq<HarvestObject>, after: seq<HarvestObject>, ds: seq<Dataset>,
                       jobId: nat, sourceId: string, k: nat)
    requires Wrote(before, after, ds, jobId, sourceId)
    requires |before| <= k < |before| + |CurrentGuids(before, sourceId) - Ids(ds)| + NamedPrefix(ds)
    ensures k < |after|
    ensures var d := |before| + |CurrentGuids(before, sourceId) - Ids(ds)|;
      && (k < d ==> after[k].status == Some("delete") && after[k].content.None? &&
                    after[k].guid in CurrentGuids(before, sourceId) - Ids(ds))
      && (d <= k ==> after[k].status == Some("update") && after[k].guid == ds[k - d].id &&
                     after[k].content == Some(ds[k - d].dump))
  {
    var toDelete := CurrentGuids(before, sourceId) - Ids(ds);
    var guids :| Elems(guids) == toDelete && |guids| == |toDelete| &&
      after == Reconciled(before, toDelete, guids, ds[..NamedPrefix(ds)], jobId, sourceId);
    ReconciledAppended(before, toDelete, guids, ds[..NamedPrefix(ds)], jobId, sourceId, k);
    if k < |before| + |toDelete| {
      assert guids[k - |before|] in Elems(guids);
    }
  }

  lemma ReconciledAppended(before: seq<HarvestObject>, toDelete: set<string>, guids: seq<string>,
                           ds: seq<Dataset>, jobId: nat, sourceId: string, k: nat)
    requires |before| <= k < |before| + |guids| + |ds|
    ensures var o := Reconciled(before, toDelete, guids, ds, jobId, sourceId)[k];
      var d := |before| + |guids|;
      && (k < d ==> o == DeleteObject(guids[k - |before|], jobId, sourceId))
      && (d <= k ==> o.status == Some("update") && o.guid == ds[k - d].id && o.content == Some(ds[k - d].dump))
  {
    var updates := UpdateObjects(ds, jobId, sourceId);
    assert Reconciled(before, toDelete, guids, ds, jobId, sourceId)
      == ClearCurrent(before, toDelete) + DeleteObjects(guids, jobId, sourceId) + updates;
    if |before| + |guids| <= k {
      UpdateObjectsIdle(ds, jobId, sourceId);
    }
  }

  /** Every object the gather stage appends belongs to this job and source and is not current yet. */
  lemma WroteOwnsNewObjects(before: seq<HarvestObject>, after: seq<HarvestObject>, ds: seq<Dataset>,
                            jobId: nat, sourceId: string)
    requires Wrote(before, after, ds, jobId, sourceId)
    ensures |after| >= |before|
    ensures forall k :: |before| <= k < |after| ==>
      after[k].jobId == jobId && after[k].sourceId == sourceId && !after[k].current
  {
    var toDelete := CurrentGuids(before, sourceId) - Ids(ds);
    var guids :| Elems(guids) == toDelete && |guids| == |toDelete| &&
      after == Reconciled(before, toDelete, guids, ds[..NamedPrefix(ds)], jobId, sourceId);
    forall k | |before| <= k < |after|
      ensures after[k].jobId == jobId && after[k].sourceId == sourceId && !after[k].current
    {
      ReconciledNewObject(before, toDelete, guids, ds[..NamedPrefix(ds)], jobId, sourceId, k);
    }
  }

  lemma ReconciledNewObject(before: seq<HarvestObject>, toDelete: set<string>, guids: seq<string>,
                            ds: seq<Dataset>, jobId: nat, sourceId: string, k: nat)
    requires |before| <= k < |before| + |guids| + |ds|
    ensures var o := Reconciled(before, toDelete, guids, ds, jobId, sourceId)[k];
      o.jobId == jobId && o.sourceId == sourceId && !o.current
  {
    var tail := DeleteObjects(guids, jobId, sourceId) + UpdateObjects(ds, jobId, sourceId);
    assert Reconciled(before, toDelete, guids, ds, jobId, sourceId) == ClearCurrent(before, toDelete) + tail;
    NewObjectOwned(guids, ds, jobId, sourceId, k - |before|);
  }

  lemma NewObjectOwned(guids: seq<string>, ds: seq<Dataset>, jobId: nat, sourceId: string, k: nat)
    requires k < |guids| + |ds|
    ensures var o := (DeleteObjects(guids, jobId, sourceId) + UpdateObjects(ds, jobId, sourceId))[k];
      o.jobId == jobId && o.sourceId == sourceId && !o.current
  {
    UpdateObjectsIdle(ds, jobId, sourceId);
    UpdateObjectsOwned(ds, jobId, sourceId);
  }

  lemma {:induction false} UpdateObjectsOwned(ds: seq<Dataset>, jobId: nat, sourceId: string)
    ensures forall i :: 0 <= i < |ds| ==>
      UpdateObjects(ds, jobId, sourceId)[i].jobId == jobId && UpdateObjects(ds, jobId, sourceId)[i].sourceId == sourceId
  {
    if ds != [] {
      UpdateObjectsOwned(ds[..|ds| - 1], jobId, sourceId);
    }
  }

  /**
   * `gather_stage(harvest_job)` for the CKAN harvester. The configuration is
   * loaded; a configuration that is not a dict makes `self.config.get`
   * raise, and so does an organisation filter that cannot be iterated. `force_all` is then set to True, so the incremental search after
   * `_last_error_free_job` is never taken and the whole catalog is listed.
   */
  method GatherStage(h: Harvester, db: Db, jobId: nat, remote: Remote, ghost universe: set<string>,
                     parse: string -> Option<Json>) returns (r: GatherOutcome)
    requires jobId < |db.jobs| && db.jobs[jobId].sourceId in db.sources
    requires Bounded(remote, universe)
    modifies h, db`objects, db`gatherErrors
    ensures var sourceId := db.jobs[jobId].sourceId;
      var loaded := LoadConfig(old(h.Current()), db.sources[sourceId].config, parse);
      var plan := PlanGather(loaded, SearchFrom(remote, universe, 0, {}, None, false));
      && (plan.Abort? ==> r == GatherCrashed && db.objects == old(db.objects) && db.gatherErrors == old(db.gatherErrors))
      && (plan.Stop? ==>
            r == GatherEnded && db.objects == old(db.objects) &&
            db.gatherErrors == old(db.gatherErrors) + [GatherError(jobId, plan.failure)])
      && (plan.Reconcile? ==>
            && Wrote(old(db.objects), db.objects, plan.ds, jobId, sourceId)
            && if NamedPrefix(plan.ds) == |plan.ds|
               then r == Gathered(Created(old(db.objects), plan.ds, sourceId)) && db.gatherErrors == old(db.gatherErrors)
               else r == GatherEnded && db.gatherErrors == old(db.gatherErrors) + [GatherError(jobId, ListingEntryFailed)])
    ensures var loaded := LoadConfig(old(h.Current()), db.sources[db.jobs[jobId].sourceId].config, parse);
      if ReachesSearch(loaded)
      then h.Current() == Settings(JObject(loaded.settings.config.fields["force_all" := JBool(true)]),
                                   loaded.settings.apiVersion)
      else h.Current() == loaded.settings
  {
    var sourceId := db.jobs[jobId].sourceId;
    ghost var loaded := LoadConfig(h.Current(), db.sources[sourceId].config, parse);
    var raised := h.SetConfig(db.sources[sourceId].config, parse);
    if raised.Some? || !h.config.JObject? || FilterRaises(h.config.fields) {
      return GatherCrashed;
    }
    h.config := JObject(h.config.fields["force_all" := JBool(true)]);
    var search := SearchForDatasets(remote, universe);
    assert PlanGather(loaded, search) == PlanGather(loaded, SearchFrom(remote, universe, 0, {}, None, false));
    if search.Unhandled? {
      return GatherCrashed;
    }
    if search.Failed? {
      db.gatherErrors := db.gatherErrors + [GatherError(jobId, SearchFailed)];
      return GatherEnded;
    }
    var ds := Flatten(search.pages);
    if ds == [] {
      db.gatherErrors := db.gatherErrors + [GatherError(jobId, NoDatasetsFound)];
      return GatherEnded;
    }
    var created, complete := ReconcileObjects(db, ds, jobId, sourceId);
    if !complete {
      db.gatherErrors := db.gatherErrors + [GatherError(jobId, ListingEntryFailed)];
      return GatherEnded;
    }
    return Gathered(created);
  }


  // ---------------------------------------------------------------------------
  // fetch_stage

  /** `fetch_stage`: the content was stored by the gather stage, so fetching always succeeds. */
  function FetchStage(obj: HarvestObject): (ok: bool)
    ensures ok
  {
    true
  }

  // ---------------------------------------------------------------------------
  // import_stage, up to the per-source remapping

  datatype ImportResult =
    | Returned(value: Option<bool>)          // `return True`/`return False`, or None after the handler
    | Proceed(package: map<string, Json>)    // on to the remapping and `_create_or_update_package`
    | ImportCrashed                          // an exception escaped

  /** What an import step returns, and the object error it records. */
  datatype Handling = Handling(result: ImportResult, error: Option<ObjectFailure>)

  /**
   * The `try` block's first statements as written: `json.loads` of the
   * content, then `package_dict.get('type')`. Their exceptions reach the
   * handler, whose first line reads `package_dict['name']`: unbound after a
   * failed `json.loads`, not a dict otherwise. The handler raises, and no
   * object error is recorded.
   */
  function ReadPackageAsWritten(content: string, parse: string -> Option<Json>): Handling {
    var decoded := parse(content);
    if decoded.Some? && decoded.value.JObject? then
      var fields := decoded.value.fields;
      if "type" in fields && fields["type"] == JString("harvest") then Handling(Returned(Some(true)), None)
      else Handling(Proceed(fields), None)
    else Handling(ImportCrashed, None)
  }

  /** The same steps with a handler that records the exception as an object error and returns None. */
  function ReadPackage(content: string, parse: string -> Option<Json>): Handling {
    var decoded := parse(content);
    if decoded.Some? && decoded.value.JObject? then
      var fields := decoded.value.fields;
      if "type" in fields && fields["type"] == JString("harvest") then Handling(Returned(Some(true)), None)
      else Handling(Proceed(fields), None)
    else Handling(Returned(None), Some(ImportException))
  }

  /**
   * As written, content that is not JSON, or JSON that is not a dict, makes
   * the import raise with no object error recorded.
   */
  lemma ReadPackageAsWrittenLosesError(content: string, parse: string -> Option<Json>)
    requires parse(content).None? || !parse(content).value.JObject?
    ensures ReadPackageAsWritten(content, parse) == Handling(ImportCrashed, None)
  {
  }

  /** The content `[]`, a JSON list, as the import stage reads it, as written and with the handler corrected. */
  lemma ListContentImport()
    ensures ReadPackageAsWritten("[]", (s: string) => Some(JArray([]))) == Handling(ImportCrashed, None)
    ensures ReadPackage("[]", (s: string) => Some(JArray([]))) == Handling(Returned(None), Some(ImportException))
  {
  }

  /**
   * With the handler corrected, reading the package never raises; it fails
   * exactly when it records an object error; and on content that decodes to
   * a dict it does what the code as written does.
   */
  lemma ReadPackageSpec(content: string, parse: string -> Option<Json>)
    ensures !ReadPackage(content, parse).result.ImportCrashed?
    ensures ReadPackage(content, parse).result == Returned(None) <==> ReadPackage(content, parse).error.Some?
    ensures ReadPackage(content, parse).error.Some? <==> parse(content).None? || !parse(content).value.JObject?
    ensures parse(content).Some? && parse(content).value.JObject? ==>
      ReadPackage(content, parse) == ReadPackageAsWritten(content, parse)
  {
  }

  /**
   * The guards of `import_stage` for an object: no content records
   * EmptyContent and returns False; then the configuration is loaded; a
   * `delete` object reaches `p.toolkit`, and `p` is not defined in the
   * module; otherwise the package is read, with the handler as written.
   */
  function ImportGuards(obj: HarvestObject, configRaised: bool, parse: string -> Option<Json>): Handling {
    if obj.content.None? then Handling(Returned(Some(false)), Some(EmptyContent))
    else if configRaised then Handling(ImportCrashed, None)
    else if obj.status == Some("delete") then Handling(ImportCrashed, None)
    else ReadPackageAsWritten(obj.content.value, parse)
  }

  /**
   * The delete objects of the gather stage have no content, so the import
   * stage rejects each of them with EmptyContent before its delete branch.
   */
  lemma DeleteObjectsNeverDelete(guid: string, jobId: nat, sourceId: string, configRaised: bool,
                                 parse: string -> Option<Json>)
    ensures ImportGuards(DeleteObject(guid, jobId, sourceId), configRaised, parse) ==
      Handling(Returned(Some(false)), Some(EmptyContent))
  {
  }

  /** An update object of the gather stage reaches the package reading, with its listing entry as content. */
  lemma UpdateObjectsReachPackage(ds: seq<Dataset>, jobId: nat, sourceId: string, i: nat,
                                  parse: string -> Option<Json>)
    requires i < |ds|
    ensures ImportGuards(UpdateObjects(ds, jobId, sourceId)[i], false, parse) == ReadPackageAsWritten(ds[i].dump, parse)
  {
    UpdateObjectsIdle(ds, jobId, sourceId);
  }

  /**
   * `import_stage(harvest_object)` up to the remapping; `objectId` None is a
   * missing object.
   */
  method ImportStage(h: Harvester, db: Db, objectId: Option<nat>, parse: string -> Option<Json>)
    returns (r: ImportResult)
    requires objectId.Some? ==> objectId.value < |db.objects|
    requires objectId.Some? ==> db.objects[objectId.value].jobId < |db.jobs|
    requires objectId.Some? ==> db.jobs[db.objects[objectId.value].jobId].sourceId in db.sources
    modifies h, db`objectErrors
    ensures objectId.None? ==> r == Returned(Some(false)) && db.objectErrors == old(db.objectErrors)
    ensures objectId.Some? ==>
      var k := objectId.value;
      var obj := db.objects[k];
      var loaded := LoadConfig(old(h.Current()), db.sources[db.jobs[obj.jobId].sourceId].config, parse);
      var step := ImportGuards(obj, loaded.raised.Some?, parse);
      && r == step.result
      && db.objectErrors == old(db.objectErrors) + (if step.error.Some? then [ObjectError(k, step.error.value)] else [])
      && h.Current() == (if obj.content.None? then old(h.Current()) else loaded.settings)
  {
    if objectId.None? {
      return Returned(Some(false));
    }
    var k := objectId.value;
    var obj := db.objects[k];
    if obj.content.None? {
      db.objectErrors := db.objectErrors + [ObjectError(k, EmptyContent)];
      return Returned(Some(false));
    }
    var raised := h.SetConfig(db.sources[db.jobs[obj.jobId].sourceId].config, parse);
    if raised.Some? {
      return ImportCrashed;
    }
    if obj.status == Some("delete") {
      return ImportCrashed;
    }
    var step := ReadPackageAsWritten(obj.content.value, parse);
    return step.result;
  }
}
