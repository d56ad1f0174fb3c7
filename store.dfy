/**
 * The harvest tables the core reads and writes: sources, jobs, harvest
 * objects, the packages of the record store they link to, the error logs
 * and the messages published on the gather queue.
 *
 * Jobs and harvest objects live in append-only tables; a job's or an
 * object's id is its position in its table.
 */
module Store {
  import opened Text

  datatype JobStatus = New | Running | Finished | Aborted

  /** A configured remote catalog. `nextRun` is an instant in microseconds. */
  datatype Source = Source(
    id: string, name: string, url: string, title: string, sourceType: string,
    description: string, userId: string, publisherId: string, frequency: string,
    active: bool, config: Option<string>, nextRun: Option<int>)

  /** One harvesting run of a source; `gatherStarted` is an instant, if the gather began. */
  datatype Job = Job(sourceId: string, status: JobStatus, gatherStarted: Option<int>)

  /**
   * One remote record's attempt within a job. `status` is the object's
   * `status` extra (`update` or `delete`); `content` is the fetched text.
   */
  datatype HarvestObject = HarvestObject(
    guid: string, jobId: nat, sourceId: string, packageId: Option<string>,
    current: bool, content: Option<string>, status: Option<string>,
    reportStatus: Option<string>)

  /** A dataset of the record store; `active` is its `state == 'active'`. */
  datatype Package = Package(name: string, active: bool)

  /** Why a gather stage recorded a `HarvestGatherError`. */
  datatype GatherFailure =
    | NoRemoteDatasets      // `_create_harvest_objects` got no ids
    | SearchFailed          // `_search_for_datasets` raised `SearchError`
    | NoDatasetsFound       // the listing was empty
    | ListingEntryFailed    // a listing entry without `name` made the object creation raise KeyError

  datatype GatherError = GatherError(jobId: nat, failure: GatherFailure)

  /** Why an import recorded a `HarvestObjectError`. */
  datatype ObjectFailure =
    | EmptyContent          // the object reached the import stage without content
    | ImportException       // an exception handler of the import stage or of `_create_or_update_package` ran

  datatype ObjectError = ObjectError(objectId: nat, failure: ObjectFailure)

  class Db {
    var sources: map<string, Source>
    var jobs: seq<Job>
    var objects: seq<HarvestObject>
    var packages: map<string, Package>
    var gatherErrors: seq<GatherError>
    var objectErrors: seq<ObjectError>
    /** The `{'harvest_job_id': id}` messages sent to the gather queue, in order. */
    var gatherQueue: seq<nat>

    constructor (sources: map<string, Source>, packages: map<string, Package>)
      ensures this.sources == sources && this.packages == packages
      ensures jobs == [] && objects == [] && gatherErrors == [] && objectErrors == [] && gatherQueue == []
    {
      this.sources := sources;
      this.packages := packages;
      jobs, objects := [], [];
      gatherErrors, objectErrors, gatherQueue := [], [], [];
    }
  }

  /** A New or Running job of `sourceId` exists (the condition of `HarvestJobExists`). */
  predicate HasActiveJob(jobs: seq<Job>, sourceId: string) {
    exists i :: 0 <= i < |jobs| && jobs[i].sourceId == sourceId && jobs[i].status in {New, Running}
  }

  /** The scheduling invariant: no source has two New-or-Running jobs. */
  predicate AtMostOneActiveJobPerSource(jobs: seq<Job>) {
    forall i, j :: 0 <= i < j < |jobs| && jobs[i].sourceId == jobs[j].sourceId ==>
      !(jobs[i].status in {New, Running} && jobs[j].status in {New, Running})
  }
}
