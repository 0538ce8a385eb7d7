/** The job seeker's applications page (src/pages/AppliedJobsPage/AppliedJobsPage.jsx):
    the user's applications with the title of each job, a job dialog, and deletion of
    an application after confirmation. */
module AppliedJobsPage {
  import opened Common
  import opened Text
  import opened Entities

  /** The text shown while a job's title is unknown. */
  const TitlePlaceholder := "Loading..."

  /** `{jobId, title}` of one title request. */
  datatype TitleResult = TitleResult(jobId: int, title: string)

  /** `Promise.all` over the title requests, one per application in order: every
      title, or nothing when any request fails. `titleFor` is `GET /jobs/{jobId}`. */
  function AllTitles(apps: seq<Application>, titleFor: int -> Result<string, ()>): (r: Option<seq<TitleResult>>)
    ensures r.None? <==> exists i :: 0 <= i < |apps| && titleFor(apps[i].jobId).Err?
    ensures r.Some? ==> |r.value| == |apps|
    ensures r.Some? ==> forall i :: 0 <= i < |apps| ==>
      r.value[i] == TitleResult(apps[i].jobId, titleFor(apps[i].jobId).value)
  {
    if apps == [] then Some([])
    else
      var head := titleFor(apps[0].jobId);
      var rest := AllTitles(apps[1..], titleFor);
      if head.Err? then None
      else if rest.None? then
        assert exists i :: 0 <= i < |apps| && titleFor(apps[i].jobId).Err? by {
          var i :| 0 <= i < |apps[1..]| && titleFor(apps[1..][i].jobId).Err?;
          assert apps[i + 1] == apps[1..][i];
        }
        None
      else Some([TitleResult(apps[0].jobId, head.value)] + rest.value)
  }

  /** The reference title map: the `reduce` writes `acc[String(jobId)] = title` in
      order, so a later result for the same job overwrites an earlier one. */
  function TitleMapOf(results: seq<TitleResult>): map<string, string>
  {
    if results == [] then map[]
    else
      var last := results[|results| - 1];
      TitleMapOf(results[..|results| - 1])[ResultKey(last) := last.title]
  }

  /** The key `acc[job.jobId]` writes. */
  function ResultKey(r: TitleResult): string
  {
    IdKey(r.jobId)
  }

  /** Result `i` is the last one for the job stored under `k`. */
  ghost predicate LastFor(results: seq<TitleResult>, k: string, i: int)
  {
    0 <= i < |results| && ResultKey(results[i]) == k &&
    forall j :: i < j < |results| ==> ResultKey(results[j]) != k
  }

  /** A key is in the map exactly when some result is for that job. */
  lemma {:induction false} TitleMapKeys(results: seq<TitleResult>, k: string)
    ensures k in TitleMapOf(results) <==> exists i :: 0 <= i < |results| && ResultKey(results[i]) == k
  {
    if results != [] {
      var init := results[..|results| - 1];
      TitleMapKeys(init, k);
      if exists i :: 0 <= i < |results| && ResultKey(results[i]) == k {
        var i :| 0 <= i < |results| && ResultKey(results[i]) == k;
        if i < |init| {
          assert init[i] == results[i];
        }
      }
      if k in TitleMapOf(init) {
        var i :| 0 <= i < |init| && ResultKey(init[i]) == k;
        assert results[i] == init[i];
      }
    }
  }

  /** A present key holds the title of the last result for that job. */
  lemma {:induction false} TitleMapLastWins(results: seq<TitleResult>, k: string)
    requires k in TitleMapOf(results)
    ensures exists i :: LastFor(results, k, i) && TitleMapOf(results)[k] == results[i].title
  {
    var init := results[..|results| - 1];
    var n := |results| - 1;
    if ResultKey(results[n]) == k {
      assert LastFor(results, k, n);
    } else {
      TitleMapLastWins(init, k);
      var i :| LastFor(init, k, i) && TitleMapOf(init)[k] == init[i].title;
      assert results[i] == init[i];
      forall j | i < j < |results|
        ensures ResultKey(results[j]) != k
      {
        if j < n {
          assert results[j] == init[j];
        }
      }
      assert LastFor(results, k, i);
    }
  }

  /** The job title cell: `jobTitles[job.jobId] || 'Loading...'`; an unknown job and
      an empty title both show the placeholder. */
  function TitleCell(jobTitles: map<string, string>, jobId: int): (r: string)
    ensures IdKey(jobId) in jobTitles && jobTitles[IdKey(jobId)] != "" ==> r == jobTitles[IdKey(jobId)]
    ensures IdKey(jobId) !in jobTitles || jobTitles[IdKey(jobId)] == "" ==> r == TitlePlaceholder
  {
    OrElse(Get(jobTitles, IdKey(jobId)), TitlePlaceholder)
  }

  /** The applications `handleDeleteJob` keeps: all but those with the confirmed id
      (none match when no id was confirmed). */
  function WithoutApplication(apps: seq<Application>, deleteJobId: Option<int>): (r: seq<Application>)
    ensures IsSubsequence(r, apps)
    ensures forall i :: 0 <= i < |r| ==> deleteJobId != Some(r[i].applicationId)
    ensures forall i :: 0 <= i < |apps| && deleteJobId != Some(apps[i].applicationId) ==> apps[i] in r
  {
    FilterIsSubsequence((a: Application) => deleteJobId != Some(a.applicationId), apps);
    Filter((a: Application) => deleteJobId != Some(a.applicationId), apps)
  }

  /** With no confirmed id, deletion keeps every application. */
  lemma DeleteWithoutIdKeepsAll(apps: seq<Application>)
    ensures WithoutApplication(apps, None) == apps
  {
    FilterKeepsAll((a: Application) => None != Some(a.applicationId), apps);
  }

  /** The `reduce` building the title map from the title results, in order. */
  method BuildTitleMap(results: seq<TitleResult>) returns (acc: map<string, string>)
    ensures acc == TitleMapOf(results)
  {
    acc := map[];
    var i := 0;
    while i < |results|
      invariant 0 <= i <= |results|
      invariant acc == TitleMapOf(results[..i])
    {
      assert results[..i + 1][..i] == results[..i];
      acc := acc[ResultKey(results[i]) := results[i].title];
      i := i + 1;
    }
    assert results[..i] == results;
  }

  class AppliedJobsView {
    var appliedJobs: seq<Application>
    var loading: bool
    var selectedJob: Option<Job>
    var openModal: bool
    var jobTitles: map<string, string>
    var deleteConfirmOpen: bool
    var deleteJobId: Option<int>

    /** The first render: loading, nothing fetched. */
    constructor ()
      ensures appliedJobs == [] && loading && selectedJob == None && !openModal
      ensures jobTitles == map[] && !deleteConfirmOpen && deleteJobId == None
    {
      appliedJobs := [];
      loading := true;
      selectedJob := None;
      openModal := false;
      jobTitles := map[];
      deleteConfirmOpen := false;
      deleteJobId := None;
    }

    /** `fetchAppliedJobs`: the applications are stored as soon as they arrive; the
        titles replace the map only when every title request succeeds; loading ends
        whatever happens. */
    method FetchAppliedJobs(response: Result<seq<Application>, ()>, titleFor: int -> Result<string, ()>)
      modifies this
      ensures response.Ok? ==> appliedJobs == response.value
      ensures response.Err? ==> appliedJobs == old(appliedJobs)
      ensures response.Ok? && AllTitles(response.value, titleFor).Some? ==>
        jobTitles == TitleMapOf(AllTitles(response.value, titleFor).value)
      ensures response.Err? || AllTitles(response.value, titleFor).None? ==> jobTitles == old(jobTitles)
      ensures !loading
      ensures selectedJob == old(selectedJob) && openModal == old(openModal)
      ensures deleteConfirmOpen == old(deleteConfirmOpen) && deleteJobId == old(deleteJobId)
    {
      if response.Ok? {
        appliedJobs := response.value;
        var titles := AllTitles(response.value, titleFor);
        if titles.Some? {
          jobTitles := BuildTitleMap(titles.value);
        }
      }
      loading := false;
    }

    /** `handleViewJob`: the dialog opens on the fetched job; a failure changes nothing. */
    method ViewJob(jobResponse: Result<Job, ()>)
      modifies this
      ensures jobResponse.Ok? ==> selectedJob == Some(jobResponse.value) && openModal
      ensures jobResponse.Err? ==> selectedJob == old(selectedJob) && openModal == old(openModal)
      ensures appliedJobs == old(appliedJobs) && loading == old(loading) && jobTitles == old(jobTitles)
      ensures deleteConfirmOpen == old(deleteConfirmOpen) && deleteJobId == old(deleteJobId)
    {
      if jobResponse.Ok? {
        selectedJob := Some(jobResponse.value);
        openModal := true;
      }
    }

    /** `handleDeleteConfirm`: remember the application and ask. */
    method DeleteConfirm(applicationId: int)
      modifies this
      ensures deleteJobId == Some(applicationId) && deleteConfirmOpen
      ensures appliedJobs == old(appliedJobs) && loading == old(loading) && jobTitles == old(jobTitles)
      ensures selectedJob == old(selectedJob) && openModal == old(openModal)
    {
      deleteJobId := Some(applicationId);
      deleteConfirmOpen := true;
    }

    /** `handleDeleteJob`: the confirmed application leaves the list only when the
        server deleted it; the dialog closes either way. */
    method DeleteJob(response: Result<(), ()>)
      modifies this
      ensures response.Ok? ==> appliedJobs == WithoutApplication(old(appliedJobs), deleteJobId)
      ensures response.Err? ==> appliedJobs == old(appliedJobs)
      ensures !deleteConfirmOpen
      ensures deleteJobId == old(deleteJobId) && loading == old(loading) && jobTitles == old(jobTitles)
      ensures selectedJob == old(selectedJob) && openModal == old(openModal)
    {
      if response.Ok? {
        appliedJobs := WithoutApplication(appliedJobs, deleteJobId);
      }
      deleteConfirmOpen := false;
    }
  }

  /** A job applied for twice, with the title changed in between, shows the later title. */
  lemma RepeatedJobShowsLaterTitle(jobId: int, first: string, second: string)
    requires second != ""
    ensures TitleCell(TitleMapOf([TitleResult(jobId, first), TitleResult(jobId, second)]), jobId) == second
  {
    var rs := [TitleResult(jobId, first), TitleResult(jobId, second)];
    assert rs[..1] == [TitleResult(jobId, first)];
    assert [TitleResult(jobId, first)][..0] == [];
  }
}
