/**
 * The `current` flag of harvest objects, as the harvester base keeps it:
 * `_transfer_current`, the update-or-skip decision and the flag updates of
 * `_create_or_update_package`, and `_create_harvest_objects`.
 *
 * A harvest object is `current` when it is the latest successful import of
 * the dataset it links to; the flag logic aims at one current object per
 * dataset.
 */
module Currency {
  import opened Text
  import opened Store

  /** At most one current harvest object links to each dataset. */
  predicate OneCurrentPerPackage(objs: seq<HarvestObject>) {
    forall i, j :: (0 <= i < |objs| && 0 <= j < |objs| && i != j && objs[i].current && objs[j].current
      && objs[i].packageId.Some?) ==> objs[i].packageId != objs[j].packageId
  }

  // ---------------------------------------------------------------------------
  // _transfer_current

  /**
   * The objects after `_transfer_current(previous_object, harvest_object)`:
   * the previous object (if any) loses the flag and hands its dataset link
   * to the new object, which becomes current. A harvest object is always
   * truthy, so the test on `previous_object` is a test for `None`.
   */
  function Transferred(objs: seq<HarvestObject>, previous: Option<nat>, k: nat): (r: seq<HarvestObject>)
    requires k < |objs| && (previous.Some? ==> previous.value < |objs|)
    ensures |r| == |objs|
  {
    match previous
    case None => objs[k := objs[k].(current := true)]
    case Some(p) =>
      var demoted := objs[p := objs[p].(current := false)];
      demoted[k := demoted[k].(packageId := objs[p].packageId, current := true)]
  }

  method TransferCurrent(db: Db, previous: Option<nat>, k: nat)
    requires k < |db.objects| && (previous.Some? ==> previous.value < |db.objects|)
    modifies db
    ensures db.objects == Transferred(old(db.objects), previous, k)
    ensures db.sources == old(db.sources) && db.jobs == old(db.jobs) && db.packages == old(db.packages)
    ensures db.gatherErrors == old(db.gatherErrors) && db.objectErrors == old(db.objectErrors)
    ensures db.gatherQueue == old(db.gatherQueue)
  {
    if previous.Some? {
      var p := previous.value;
      db.objects := db.objects[p := db.objects[p].(current := false)];
      db.objects := db.objects[k := db.objects[k].(packageId := db.objects[p].packageId)];
    }
    db.objects := db.objects[k := db.objects[k].(current := true)];
  }

  /**
   * After the transfer the new object is current and linked to the previous
   * object's dataset; the previous object, if a different one, is no longer
   * current; nothing else changes.
   */
  lemma TransferredSpec(objs: seq<HarvestObject>, previous: Option<nat>, k: nat)
    requires k < |objs| && (previous.Some? ==> previous.value < |objs|)
    ensures var r := Transferred(objs, previous, k);
      r[k].current
      && r[k].guid == objs[k].guid && r[k].jobId == objs[k].jobId && r[k].content == objs[k].content
      && (previous.None? ==> r[k].packageId == objs[k].packageId)
      && (previous.Some? ==> r[k].packageId == objs[previous.value].packageId)
      && (previous.Some? && previous.value != k ==>
            r[previous.value] == objs[previous.value].(current := false))
      && (forall i :: 0 <= i < |objs| && i != k && (previous.None? || i != previous.value) ==> r[i] == objs[i])
  {
  }

  /**
   * Handing the flag on from the dataset's current object keeps one current
   * object per dataset; without a previous object the new one must not
   * share a dataset with a current object.
   */
  lemma {:induction false} TransferKeepsOneCurrent(objs: seq<HarvestObject>, previous: Option<nat>, k: nat)
    requires k < |objs| && (previous.Some? ==> previous.value < |objs|)
    requires OneCurrentPerPackage(objs)
    requires previous.Some? ==> objs[previous.value].current
    requires previous.None? && objs[k].packageId.Some? ==>
      forall i :: 0 <= i < |objs| && i != k && objs[i].current ==> objs[i].packageId != objs[k].packageId
    ensures OneCurrentPerPackage(Transferred(objs, previous, k))
  {
    var r := Transferred(objs, previous, k);
    TransferredSpec(objs, previous, k);
    forall i, j | 0 <= i < |r| && 0 <= j < |r| && i != j && r[i].current && r[j].current && r[i].packageId.Some?
      ensures r[i].packageId != r[j].packageId
    {
      if previous.Some? {
        var p := previous.value;
        if i == k {
          assert j != p || p == k;
          if p != k {
            assert r[j] == objs[j];
          }
        } else if j == k {
          if p != k {
            assert r[i] == objs[i];
          }
        } else {
          assert r[i] == objs[i] && r[j] == objs[j];
        }
      }
    }
  }

  // ---------------------------------------------------------------------------
  // _create_or_update_package: update or skip

  /**
   * Python 2's `a > b` on two unicode strings: code point by code point,
   * a proper prefix being the smaller.
   */
  predicate Later(a: string, b: string)
    decreases |b|
  {
    if b == [] then a != []
    else if a == [] then false
    else if a[0] != b[0] then a[0] > b[0]
    else Later(a[1..], b[1..])
  }

  /** Python 2's `a > b` where either side may be `None`, which is below every string. */
  predicate LaterOrNone(a: Option<string>, b: Option<string>) {
    a.Some? && (b.None? || Later(a.value, b.value))
  }

  /** The remote `metadata_modified`: a key absent from the package dict, or its value. */
  datatype Stamp = Absent | Given(value: Option<string>)

  /**
   * The test at the head of the update branch: update when the dict has no
   * `metadata_modified`, or when it is greater than the existing dataset's
   * (the `.get` of a missing key being `None`).
   */
  predicate NeedsUpdate(remote: Stamp, existing: Option<string>) {
    remote.Absent? || LaterOrNone(remote.value, existing)
  }

  lemma {:induction false} LaterIrreflexive(a: string)
    ensures !Later(a, a)
    decreases |a|
  {
    if a != [] {
      LaterIrreflexive(a[1..]);
    }
  }

  lemma {:induction false} LaterTotal(a: string, b: string)
    ensures a == b || Later(a, b) || Later(b, a)
    ensures !(Later(a, b) && Later(b, a))
    decreases |b|
  {
    if a != [] && b != [] && a[0] == b[0] {
      LaterTotal(a[1..], b[1..]);
      if a[1..] == b[1..] {
        assert a == [a[0]] + a[1..] && b == [b[0]] + b[1..];
      }
    }
  }

  /**
   * A dict without a stamp always updates; an unchanged stamp, or a `None`
   * one, never does; a stamp against a dataset without one always does; of
   * two different stamps exactly one direction updates.
   */
  lemma NeedsUpdateSpec(s: string, t: string, existing: Option<string>)
    ensures NeedsUpdate(Absent, existing)
    ensures !NeedsUpdate(Given(existing), existing)
    ensures !NeedsUpdate(Given(None), existing)
    ensures NeedsUpdate(Given(Some(s)), None)
    ensures s != t ==> (NeedsUpdate(Given(Some(s)), Some(t)) <==> !NeedsUpdate(Given(Some(t)), Some(s)))
  {
    if existing.Some? {
      LaterIrreflexive(existing.value);
    }
    LaterTotal(s, t);
  }

  /**
   * Stamps that agree up to position `n` compare by their characters at `n`;
   * so ISO 8601 stamps written in one layout compare as their instants do.
   */
  lemma {:induction false} LaterOnSameLengthPrefix(a: string, b: string, n: nat)
    requires n < |a| && n < |b| && a[..n] == b[..n] && a[n] > b[n]
    ensures Later(a, b)
    decreases n
  {
    if n > 0 {
      assert a[0] == a[..n][0] == b[..n][0] == b[0];
      assert a[1..][..n - 1] == a[..n][1..] && b[1..][..n - 1] == b[..n][1..];
      LaterOnSameLengthPrefix(a[1..], b[1..], n - 1);
    }
  }

  // ---------------------------------------------------------------------------
  // _create_or_update_package: the flags

  /** Every object linked to dataset `pkgId` loses its flag (the bulk `update` on the object table). */
  function Uncurrent(objs: seq<HarvestObject>, pkgId: string): (r: seq<HarvestObject>)
    ensures |r| == |objs|
  {
    seq(|objs|, i requires 0 <= i < |objs| => if objs[i].packageId == Some(pkgId) then objs[i].(current := false) else objs[i])
  }

  /** Object `k` links to `pkgId` and becomes current. */
  function MarkCurrent(objs: seq<HarvestObject>, k: nat, pkgId: string): (r: seq<HarvestObject>)
    requires k < |objs|
    ensures |r| == |objs|
  {
    objs[k := objs[k].(packageId := Some(pkgId), current := true)]
  }

  /** How `_create_or_update_package` ends: `None` on a skip or a handled exception, `True` otherwise. */
  datatype Outcome = Skipped | Updated | Created | Failed

  /**
   * The call of `_create_or_update_package` that raises, if the path taken
   * reaches it:
   * - `LookupRaises`: before the update/skip decision, which covers the
   *   `api_version` check, a dict without `id`, and `package_show` failing
   *   other than with NotFound (base.py:212-241);
   * - `UpdateRaises`: `package_update_rest` (base.py:254);
   * - `NamingRaises`: `_gen_new_name`, for example on a new dict without
   *   `title` (base.py:282);
   * - `CreateRaises`: `package_create_rest` (base.py:295).
   */
  datatype StoreFault = NoFault | LookupRaises | UpdateRaises | NamingRaises | CreateRaises

  /**
   * The update/skip decision and the flag logic of
   * `_create_or_update_package` for harvest object `k` and the package dict
   * with id `pkgId` and stamp `stamp`. `existingStamp` is the existing
   * dataset's `metadata_modified`, `newName` the name `_gen_new_name` gives a
   * new dataset and `fault` the call that raises; creating and updating the
   * dataset's content is the record store's business. A raised exception is
   * caught, saved as an object error of `k`, and ends the call.
   */
  method CreateOrUpdatePackage(db: Db, k: nat, pkgId: string, stamp: Stamp, existingStamp: Option<string>,
                               newName: string, fault: StoreFault) returns (outcome: Outcome)
    requires k < |db.objects|
    modifies db
    ensures fault == LookupRaises ==> outcome == Failed
    ensures fault != LookupRaises && pkgId in old(db.packages) ==>
      outcome == if !NeedsUpdate(stamp, existingStamp) then Skipped
                 else if fault == UpdateRaises then Failed
                 else Updated
    ensures fault != LookupRaises && pkgId !in old(db.packages) ==>
      outcome == if fault == NamingRaises || fault == CreateRaises then Failed else Created
    ensures outcome == Skipped ==> db.objects == old(db.objects)
    ensures outcome == Updated ==> db.objects == MarkCurrent(Uncurrent(old(db.objects), pkgId), k, pkgId)
    ensures outcome == Created ==> db.objects == MarkCurrent(old(db.objects), k, pkgId)
    ensures outcome == Failed && fault == CreateRaises ==> db.objects == MarkCurrent(old(db.objects), k, pkgId)
    ensures outcome == Failed && fault != CreateRaises ==> db.objects == old(db.objects)
    ensures db.packages == if outcome == Created then old(db.packages)[pkgId := Package(newName, true)] else old(db.packages)
    ensures db.objectErrors == if outcome == Failed then old(db.objectErrors) + [ObjectError(k, ImportException)] else old(db.objectErrors)
    ensures db.sources == old(db.sources) && db.jobs == old(db.jobs)
    ensures db.gatherErrors == old(db.gatherErrors) && db.gatherQueue == old(db.gatherQueue)
  {
    if fault == LookupRaises {
      db.objectErrors := db.objectErrors + [ObjectError(k, ImportException)];
      return Failed;
    }
    if pkgId in db.packages {
      if !NeedsUpdate(stamp, existingStamp) {
        return Skipped;
      }
      if fault == UpdateRaises {
        db.objectErrors := db.objectErrors + [ObjectError(k, ImportException)];
        return Failed;
      }
      db.objects := Uncurrent(db.objects, pkgId);
      db.objects := MarkCurrent(db.objects, k, pkgId);
      return Updated;
    }
    if fault == NamingRaises {
      db.objectErrors := db.objectErrors + [ObjectError(k, ImportException)];
      return Failed;
    }
    // the object is flagged and flushed before `package_create_rest` runs
    db.objects := MarkCurrent(db.objects, k, pkgId);
    if fault == CreateRaises {
      db.objectErrors := db.objectErrors + [ObjectError(k, ImportException)];
      return Failed;
    }
    db.packages := db.packages[pkgId := Package(newName, true)];
    return Created;
  }

  /**
   * After an update the object is the one and only current object of the
   * dataset; objects of other datasets keep their flags and every object
   * but this one keeps its link.
   */
  lemma AfterUpdateSoleCurrent(objs: seq<HarvestObject>, k: nat, pkgId: string)
    requires k < |objs|
    ensures var r := MarkCurrent(Uncurrent(objs, pkgId), k, pkgId);
      (forall i :: 0 <= i < |r| ==> (r[i].current && r[i].packageId == Some(pkgId) <==> i == k))
      && (forall i :: 0 <= i < |r| && i != k ==> r[i].packageId == objs[i].packageId && r[i].guid == objs[i].guid)
      && (forall i :: 0 <= i < |r| && i != k && objs[i].packageId != Some(pkgId) ==> r[i] == objs[i])
  {
  }

  /** The update keeps one current object per dataset. */
  lemma {:induction false} UpdateKeepsOneCurrent(objs: seq<HarvestObject>, k: nat, pkgId: string)
    requires k < |objs| && OneCurrentPerPackage(objs)
    ensures OneCurrentPerPackage(MarkCurrent(Uncurrent(objs, pkgId), k, pkgId))
  {
    var u := Uncurrent(objs, pkgId);
    var r := MarkCurrent(u, k, pkgId);
    forall i, j | 0 <= i < |r| && 0 <= j < |r| && i != j && r[i].current && r[j].current && r[i].packageId.Some?
      ensures r[i].packageId != r[j].packageId
    {
      if i == k {
        assert r[j] == u[j] && u[j].packageId != Some(pkgId);
      } else if j == k {
        assert r[i] == u[i] && u[i].packageId != Some(pkgId);
      } else {
        assert r[i] == u[i] && r[j] == u[j];
        assert objs[i].current && objs[j].current;
      }
    }
  }

  /**
   * Creating a dataset flags the object without clearing others: one current
   * object per dataset holds afterwards exactly when no other current object
   * was already linked to the new dataset's id.
   */
  lemma {:induction false} CreateKeepsOneCurrent(objs: seq<HarvestObject>, k: nat, pkgId: string)
    requires k < |objs| && OneCurrentPerPackage(objs)
    ensures OneCurrentPerPackage(MarkCurrent(objs, k, pkgId)) <==>
      forall i :: 0 <= i < |objs| && i != k && objs[i].current ==> objs[i].packageId != Some(pkgId)
  {
    var r := MarkCurrent(objs, k, pkgId);
    if forall i :: 0 <= i < |objs| && i != k && objs[i].current ==> objs[i].packageId != Some(pkgId) {
      forall i, j | 0 <= i < |r| && 0 <= j < |r| && i != j && r[i].current && r[j].current && r[i].packageId.Some?
        ensures r[i].packageId != r[j].packageId
      {
        if i != k && j != k {
          assert r[i] == objs[i] && r[j] == objs[j];
        }
      }
    } else {
      var i :| 0 <= i < |objs| && i != k && objs[i].current && objs[i].packageId == Some(pkgId);
      assert r[i] == objs[i] && r[k].current && r[k].packageId == Some(pkgId);
    }
  }

  // ---------------------------------------------------------------------------
  // _create_harvest_objects

  /** The fresh objects for `remoteIds` in job `jobId` of source `sourceId`, in order. */
  function NewObjects(remoteIds: seq<string>, jobId: nat, sourceId: string): (r: seq<HarvestObject>)
    ensures |r| == |remoteIds|
    ensures forall i :: 0 <= i < |r| ==>
      r[i] == HarvestObject(remoteIds[i], jobId, sourceId, None, false, None, None, None)
  {
    seq(|remoteIds|, i requires 0 <= i < |remoteIds| => HarvestObject(remoteIds[i], jobId, sourceId, None, false, None, None, None))
  }

  function Range(from: nat, n: nat): (r: seq<nat>)
    ensures |r| == n && forall i :: 0 <= i < n ==> r[i] == from + i
  {
    seq(n, i requires 0 <= i < n => from + i)
  }

  /**
   * `_create_harvest_objects(remote_ids, harvest_job)`: one new object per
   * remote id, whose ids are returned in order; with no remote ids, a
   * gather error and `None`.
   */
  method CreateHarvestObjects(db: Db, remoteIds: seq<string>, jobId: nat) returns (ids: Option<seq<nat>>)
    requires jobId < |db.jobs|
    modifies db
    ensures db.jobs == old(db.jobs)
    ensures remoteIds == [] ==> ids.None? && db.objects == old(db.objects)
    ensures remoteIds == [] ==> db.gatherErrors == old(db.gatherErrors) + [GatherError(jobId, NoRemoteDatasets)]
    ensures remoteIds != [] ==> ids == Some(Range(|old(db.objects)|, |remoteIds|))
    ensures remoteIds != [] ==> db.objects == old(db.objects) + NewObjects(remoteIds, jobId, db.jobs[jobId].sourceId)
    ensures remoteIds != [] ==> db.gatherErrors == old(db.gatherErrors)
    ensures db.sources == old(db.sources) && db.jobs == old(db.jobs) && db.packages == old(db.packages)
    ensures db.objectErrors == old(db.objectErrors) && db.gatherQueue == old(db.gatherQueue)
  {
    if |remoteIds| == 0 {
      db.gatherErrors := db.gatherErrors + [GatherError(jobId, NoRemoteDatasets)];
      return None;
    }
    var sourceId := db.jobs[jobId].sourceId;
    var objectIds: seq<nat> := [];
    var i := 0;
    while i < |remoteIds|
      invariant 0 <= i <= |remoteIds|
      invariant db.objects == old(db.objects) + NewObjects(remoteIds[..i], jobId, sourceId)
      invariant objectIds == Range(|old(db.objects)|, i)
      invariant db.sources == old(db.sources) && db.jobs == old(db.jobs) && db.packages == old(db.packages)
      invariant db.gatherErrors == old(db.gatherErrors) && db.objectErrors == old(db.objectErrors)
      invariant db.gatherQueue == old(db.gatherQueue)
    {
      objectIds := objectIds + [|db.objects|];
      db.objects := db.objects + [HarvestObject(remoteIds[i], jobId, sourceId, None, false, None, None, None)];
      assert remoteIds[..i + 1] == remoteIds[..i] + [remoteIds[i]];
      i := i + 1;
    }
    assert remoteIds[..i] == remoteIds;
    return Some(objectIds);
  }

  /** The new objects are neither current nor linked to a dataset, so they keep one current object per dataset. */
  lemma {:induction false} NewObjectsKeepOneCurrent(objs: seq<HarvestObject>, remoteIds: seq<string>, jobId: nat, sourceId: string)
    requires OneCurrentPerPackage(objs)
    ensures OneCurrentPerPackage(objs + NewObjects(remoteIds, jobId, sourceId))
  {
    var r := objs + NewObjects(remoteIds, jobId, sourceId);
    forall i, j | 0 <= i < |r| && 0 <= j < |r| && i != j && r[i].current && r[j].current && r[i].packageId.Some?
      ensures r[i].packageId != r[j].packageId
    {
      assert i < |objs| && j < |objs|;
      assert r[i] == objs[i] && r[j] == objs[j];
    }
  }
}
