/** The `jobs` slice of the Redux store (src/store/jobsSlice.js): the job list, the
    list after filtering, today's jobs, the résumé-based suggestions, and the state
    of the "apply" flow. Each reducer is a method that updates the store's fields;
    each thunk is a method that runs the `pending` reducer and then the `fulfilled`
    or `rejected` one, given the HTTP outcome as a parameter. */
module JobsSlice {
  import opened Common
  import opened Text
  import opened Entities
  import opened JobFilter

  const FetchJobsFailed := "Failed to fetch jobs"
  const FetchSuggestionsFailed := "Failed to fetch job suggestions"
  const CheckApplicationFailed := "Failed to check application"
  const ApplySucceeded := "Application submitted successfully!"
  const ApplyFailed := "Failed to submit application!"

  /** The body `/jobs/match-jobs` answers with: `Array.isArray` tells the two apart. */
  datatype SuggestionPayload = ArrayPayload(jobs: seq<Job>) | OtherPayload

  /** A snapshot of every field of the slice. */
  datatype JobsState = JobsState(
    jobs: seq<Job>,
    latestJobs: seq<Job>,
    latestJobsCount: int,
    suggestedJobs: seq<Job>,
    filteredJobs: seq<Job>,
    filters: Filters,
    loading: bool,
    error: Option<string>,
    hasApplied: bool,
    applicationStatus: Option<string>)

  /** `applications.some(app => app.jobId === jobId && app.applicantId === userId)`. */
  function HasApplied(apps: seq<Application>, jobId: int, userId: int): (r: bool)
    ensures r <==> exists i :: 0 <= i < |apps| && apps[i].jobId == jobId && apps[i].applicantId == userId
  {
    Any((app: Application) => app.jobId == jobId && app.applicantId == userId, apps)
  }

  /** The jobs published on the calendar day of the ISO timestamp `nowIso`. */
  function LatestJobs(jobs: seq<Job>, nowIso: string): (r: seq<Job>)
    ensures IsSubsequence(r, jobs)
    ensures forall i :: 0 <= i < |r| ==> r[i].publishDate == DatePart(nowIso)
    ensures forall i :: 0 <= i < |jobs| && jobs[i].publishDate == DatePart(nowIso) ==> jobs[i] in r
  {
    FilterIsSubsequence((job: Job) => job.publishDate == DatePart(nowIso), jobs);
    Filter((job: Job) => job.publishDate == DatePart(nowIso), jobs)
  }

  /** `Array.isArray(payload) ? payload : []`. */
  function SuggestionsOf(payload: SuggestionPayload): (r: seq<Job>)
    ensures payload.ArrayPayload? ==> r == payload.jobs
    ensures payload.OtherPayload? ==> r == []
  {
    if payload.ArrayPayload? then payload.jobs else []
  }

  class JobsStore {
    var jobs: seq<Job>
    var latestJobs: seq<Job>
    var latestJobsCount: int
    var suggestedJobs: seq<Job>
    var filteredJobs: seq<Job>
    var filters: Filters
    var loading: bool
    var error: Option<string>
    var hasApplied: bool
    var applicationStatus: Option<string>

    function State(): JobsState
      reads this
    {
      JobsState(jobs, latestJobs, latestJobsCount, suggestedJobs, filteredJobs, filters,
                loading, error, hasApplied, applicationStatus)
    }

    /** What every reducer keeps: the count matches today's list, today's jobs and the
        filtered jobs are drawn, in order, from the job list. */
    ghost predicate Valid()
      reads this
    {
      && latestJobsCount == |latestJobs|
      && IsSubsequence(latestJobs, jobs)
      && IsSubsequence(filteredJobs, jobs)
    }

    /** The initial state. */
    constructor ()
      ensures State() == JobsState([], [], 0, [], [], NoFilters, false, None, false, None)
      ensures Valid()
    {
      jobs, latestJobs, latestJobsCount, suggestedJobs, filteredJobs := [], [], 0, [], [];
      filters := NoFilters;
      loading, error, hasApplied, applicationStatus := false, None, false, None;
    }

    // ------------------------------------------------------------ reducers

    method ClearApplicationStatus()
      requires Valid()
      modifies this
      ensures State() == old(State()).(applicationStatus := None)
      ensures Valid()
    {
      applicationStatus := None;
    }

    method SetLocationFilter(v: string)
      requires Valid()
      modifies this
      ensures State() == old(State()).(filters := old(filters).(location := v))
      ensures Valid()
    {
      filters := filters.(location := v);
    }

    method SetIndustryFilter(v: string)
      requires Valid()
      modifies this
      ensures State() == old(State()).(filters := old(filters).(industry := v))
      ensures Valid()
    {
      filters := filters.(industry := v);
    }

    method SetMinSalaryFilter(v: string)
      requires Valid()
      modifies this
      ensures State() == old(State()).(filters := old(filters).(minSalary := v))
      ensures Valid()
    {
      filters := filters.(minSalary := v);
    }

    method SetMaxSalaryFilter(v: string)
      requires Valid()
      modifies this
      ensures State() == old(State()).(filters := old(filters).(maxSalary := v))
      ensures Valid()
    {
      filters := filters.(maxSalary := v);
    }

    method SetSearchTerm(v: string)
      requires Valid()
      modifies this
      ensures State() == old(State()).(filters := old(filters).(searchTerm := v))
      ensures Valid()
    {
      filters := filters.(searchTerm := v);
    }

    /** `applyFilters`: the filtered list becomes the jobs that pass the current filters. */
    method ApplyFilters()
      requires Valid()
      modifies this
      ensures State() == old(State()).(filteredJobs := FilterJobs(old(jobs), old(filters)))
      ensures Valid()
    {
      var filtered := RunFilterStages(jobs, filters);
      FilterJobsIsSubsequence(jobs, filters);
      filteredJobs := filtered;
    }

    // ------------------------------------------------------------ extra reducers

    /** The `pending` case shared by `fetchJobs`, `fetchJobSuggestions` and
        `checkApplication`. */
    method Pending()
      requires Valid()
      modifies this
      ensures State() == old(State()).(loading := true, error := None)
      ensures Valid()
    {
      loading := true;
      error := None;
    }

    method FetchJobsFulfilled(payload: seq<Job>, nowIso: string)
      requires Valid()
      modifies this
      ensures State() == old(State()).(loading := false, jobs := payload, filteredJobs := payload,
                                       latestJobs := LatestJobs(payload, nowIso),
                                       latestJobsCount := |LatestJobs(payload, nowIso)|)
      ensures Valid()
    {
      loading := false;
      jobs := payload;
      filteredJobs := payload;
      SubsequenceRefl(payload);
      latestJobs := LatestJobs(payload, nowIso);
      latestJobsCount := |latestJobs|;
    }

    /** The `rejected` case shared by the three fetch thunks: `payload || fallback`. */
    method Rejected(payload: Option<string>, fallback: string)
      requires Valid()
      modifies this
      ensures State() == old(State()).(loading := false, error := Some(OrElse(payload, fallback)))
      ensures Valid()
    {
      loading := false;
      error := Some(OrElse(payload, fallback));
    }

    method FetchSuggestionsFulfilled(payload: SuggestionPayload)
      requires Valid()
      modifies this
      ensures State() == old(State()).(loading := false, suggestedJobs := SuggestionsOf(payload))
      ensures Valid()
    {
      loading := false;
      suggestedJobs := SuggestionsOf(payload);
    }

    method CheckApplicationFulfilled(applied: bool)
      requires Valid()
      modifies this
      ensures State() == old(State()).(loading := false, hasApplied := applied)
      ensures Valid()
    {
      loading := false;
      hasApplied := applied;
    }

    method ApplyPending()
      requires Valid()
      modifies this
      ensures State() == old(State()).(loading := true, error := None, applicationStatus := None)
      ensures Valid()
    {
      loading := true;
      error := None;
      applicationStatus := None;
    }

    method ApplyFulfilled()
      requires Valid()
      modifies this
      ensures State() == old(State()).(loading := false, hasApplied := true,
                                       applicationStatus := Some(ApplySucceeded))
      ensures Valid()
    {
      loading := false;
      hasApplied := true;
      applicationStatus := Some(ApplySucceeded);
    }

    /** A failed submission leaves `error` alone and reports through the status. */
    method ApplyRejected(payload: Option<string>)
      requires Valid()
      modifies this
      ensures State() == old(State()).(loading := false,
                                       applicationStatus := Some(OrElse(payload, ApplyFailed)))
      ensures Valid()
    {
      loading := false;
      applicationStatus := Some(OrElse(payload, ApplyFailed));
    }

    // ------------------------------------------------------------ thunks

    /** `dispatch(fetchJobs())`, with the response of `GET /jobs/all` and the clock. */
    method FetchJobs(response: Result<seq<Job>, Option<string>>, nowIso: string)
      requires Valid()
      modifies this
      ensures response.Ok? ==> State() == old(State()).(
        loading := false, error := None, jobs := response.value, filteredJobs := response.value,
        latestJobs := LatestJobs(response.value, nowIso),
        latestJobsCount := |LatestJobs(response.value, nowIso)|)
      ensures response.Err? ==> State() == old(State()).(
        loading := false, error := Some(OrElse(response.error, FetchJobsFailed)))
      ensures Valid()
    {
      Pending();
      if response.Ok? {
        FetchJobsFulfilled(response.value, nowIso);
      } else {
        Rejected(response.error, FetchJobsFailed);
      }
    }

    /** `dispatch(fetchJobSuggestions(resumeUrl))`, with the response of
        `POST /jobs/match-jobs`. */
    method FetchJobSuggestions(response: Result<SuggestionPayload, Option<string>>)
      requires Valid()
      modifies this
      ensures response.Ok? ==> State() == old(State()).(
        loading := false, error := None, suggestedJobs := SuggestionsOf(response.value))
      ensures response.Err? ==> State() == old(State()).(
        loading := false, error := Some(OrElse(response.error, FetchSuggestionsFailed)))
      ensures Valid()
    {
      Pending();
      if response.Ok? {
        FetchSuggestionsFulfilled(response.value);
      } else {
        Rejected(response.error, FetchSuggestionsFailed);
      }
    }

    /** `dispatch(checkApplication({jobId, userId}))`, with the response of
        `GET /applications`. */
    method CheckApplication(response: Result<seq<Application>, Option<string>>, jobId: int, userId: int)
      requires Valid()
      modifies this
      ensures response.Ok? ==> State() == old(State()).(
        loading := false, error := None, hasApplied := HasApplied(response.value, jobId, userId))
      ensures response.Err? ==> State() == old(State()).(
        loading := false, error := Some(OrElse(response.error, CheckApplicationFailed)))
      ensures Valid()
    {
      Pending();
      if response.Ok? {
        CheckApplicationFulfilled(HasApplied(response.value, jobId, userId));
      } else {
        Rejected(response.error, CheckApplicationFailed);
      }
    }

    /** `dispatch(applyForJob(application))`, with the outcome of
        `POST /applications/upload`. */
    method ApplyForJob(response: Result<(), Option<string>>)
      requires Valid()
      modifies this
      ensures response.Ok? ==> State() == old(State()).(
        loading := false, error := None, hasApplied := true,
        applicationStatus := Some(ApplySucceeded))
      ensures response.Err? ==> State() == old(State()).(
        loading := false, error := None,
        applicationStatus := Some(OrElse(response.error, ApplyFailed)))
      ensures Valid()
    {
      ApplyPending();
      if response.Ok? {
        ApplyFulfilled();
      } else {
        ApplyRejected(response.error);
      }
    }
  }

  // ---------------------------------------------------------------- properties

  lemma {:induction false} SubsequenceRefl<T>(s: seq<T>)
    ensures IsSubsequence(s, s)
  {
    if s != [] {
      SubsequenceRefl(s[1..]);
    }
  }

  /** Whoever applied is found: an application with the job and the applicant makes
      `hasApplied` true whatever else the list holds. */
  lemma AppliedAfterAppend(apps: seq<Application>, a: Application)
    ensures HasApplied(apps + [a], a.jobId, a.applicantId)
  {
    assert (apps + [a])[|apps|] == a;
  }

  /** An application for another job, or by another applicant, does not count. */
  lemma OtherApplicationsIgnored(apps: seq<Application>, a: Application, jobId: int, userId: int)
    requires a.jobId != jobId || a.applicantId != userId
    ensures HasApplied(apps + [a], jobId, userId) == HasApplied(apps, jobId, userId)
  {
    if HasApplied(apps + [a], jobId, userId) {
      var i :| 0 <= i < |apps + [a]| && (apps + [a])[i].jobId == jobId && (apps + [a])[i].applicantId == userId;
      assert i < |apps| && apps[i] == (apps + [a])[i];
    }
    if HasApplied(apps, jobId, userId) {
      var i :| 0 <= i < |apps| && apps[i].jobId == jobId && apps[i].applicantId == userId;
      assert (apps + [a])[i] == apps[i];
    }
  }

  /** A job published at the date part of `nowIso` is among today's jobs; one
      published on another day is not. */
  lemma LatestJobsToday(jobs: seq<Job>, date: string, time: string, k: int)
    requires 'T' !in date
    requires 0 <= k < |jobs|
    ensures jobs[k] in LatestJobs(jobs, date + ['T'] + time) <==> jobs[k].publishDate == date
  {
    DatePartOf(date, time);
    var r := LatestJobs(jobs, date + ['T'] + time);
    if jobs[k] in r {
      var i :| 0 <= i < |r| && r[i] == jobs[k];
    }
  }
}
