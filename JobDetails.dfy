/** The job details page (src/pages/JobDetails/JobDetails.jsx): it asks the store
    whether the signed-in user has applied, builds and submits an application, and
    chooses what to show in place of the Apply button. */
module JobDetails {
  import opened Common
  import opened Text
  import opened Entities
  import opened JobsSlice

  const PendingStatus := "Pending"

  /** The `(jobId, userId)` the mount effect sends to `checkApplication`, when it
      sends anything: both the user and the job must be present. */
  function CheckRequest(user: Option<User>, job: Option<Job>): (r: Option<(int, int)>)
    ensures r.Some? <==> user.Some? && job.Some?
    ensures r.Some? ==> r.value == (job.value.id, user.value.id)
  {
    if user.Some? && job.Some? then Some((job.value.id, user.value.id)) else None
  }

  /** The record `handleApplyJob` submits; `nowIso` is the current ISO timestamp. */
  function BuildApplication(job: Job, user: User, resume: Option<string>, nowIso: string): (r: Application)
    ensures r.applicationId == 0 && r.jobId == job.id && r.applicantId == user.id
    ensures r.resumeUrl == resume && r.applicationStatus == PendingStatus
    ensures 'T' !in r.appliedDate
    ensures IsPrefix(r.appliedDate, nowIso)
  {
    DatePartIsPrefix(nowIso);
    Application(0, job.id, user.id, resume, PendingStatus, DatePart(nowIso))
  }

  /** The date part of a timestamp is what precedes its first 'T'. */
  lemma DatePartIsPrefix(iso: string)
    ensures 'T' !in DatePart(iso)
    ensures IsPrefix(DatePart(iso), iso)
  {
    JoinSplit(iso, 'T');
    PrefixOfJoin(Split(iso, 'T'), 'T');
  }

  lemma {:induction false} PrefixOfJoin(xs: seq<string>, sep: char)
    requires |xs| >= 1
    ensures IsPrefix(xs[0], Join(xs, sep))
  {
    if |xs| > 1 {
      assert Join(xs, sep) == xs[0] + ([sep] + Join(xs[1..], sep));
    }
  }

  /** What the page shows below the job, in the order the conditional tests it. */
  datatype ApplyArea = ShowLoading | ShowError(message: string) | ShowAlreadyApplied | ShowApplyButton

  function ApplyAreaOf(loading: bool, error: Option<string>, hasApplied: bool): (r: ApplyArea)
    ensures r == ShowApplyButton <==> !loading && !Truthy(error) && !hasApplied
    ensures loading ==> r == ShowLoading
    ensures !loading && Truthy(error) ==> r == ShowError(error.value)
    ensures !loading && !Truthy(error) && hasApplied ==> r == ShowAlreadyApplied
  {
    if loading then ShowLoading
    else if Truthy(error) then ShowError(error.value)
    else if hasApplied then ShowAlreadyApplied
    else ShowApplyButton
  }

  /** The snackbar is open while the application status is a non-empty message. */
  predicate SnackbarOpen(status: Option<string>)
  {
    Truthy(status)
  }

  /** `job.skillsRequired?.split(',')`: one chip per comma-separated piece, untrimmed;
      no chips when the field is missing. */
  function SkillChips(skills: Option<string>): (r: seq<string>)
    ensures skills.None? ==> r == []
    ensures skills.Some? ==> |r| == CountChar(skills.value, ',') + 1
    ensures forall i :: 0 <= i < |r| ==> ',' !in r[i]
  {
    if skills.None? then []
    else
      SplitCount(skills.value, ',');
      Split(skills.value, ',')
  }

  /** The chips, joined back with commas, are the field as stored: nothing is trimmed
      or dropped. */
  lemma SkillChipsRoundTrip(skills: string)
    ensures Join(SkillChips(Some(skills)), ',') == skills
  {
    JoinSplit(skills, ',');
  }

  /** Skills stored as the comma-join of comma-free names come back as those names. */
  lemma SkillChipsOfList(names: seq<string>)
    requires |names| >= 1
    requires forall i :: 0 <= i < |names| ==> ',' !in names[i]
    ensures SkillChips(Some(Join(names, ','))) == names
  {
    SplitJoin(names, ',');
  }

  /** The mount effect: with a user and a job, `checkApplication` runs against the
      response of `GET /applications`; otherwise nothing is dispatched. */
  method CheckOnMount(store: JobsStore, user: Option<User>, job: Option<Job>,
                      response: Result<seq<Application>, Option<string>>)
    requires store.Valid()
    modifies store
    ensures CheckRequest(user, job).None? ==> store.State() == old(store.State())
    ensures CheckRequest(user, job).Some? && response.Ok? ==>
      store.State() == old(store.State()).(loading := false, error := None,
        hasApplied := HasApplied(response.value, job.value.id, user.value.id))
    ensures CheckRequest(user, job).Some? && response.Err? ==>
      store.State() == old(store.State()).(loading := false,
        error := Some(OrElse(response.error, CheckApplicationFailed)))
    ensures store.Valid()
  {
    var request := CheckRequest(user, job);
    if request.Some? {
      store.CheckApplication(response, request.value.0, request.value.1);
    }
  }

  /** The effect's cleanup, on unmount or when the user or the job changes. */
  method CleanupOnLeave(store: JobsStore)
    requires store.Valid()
    modifies store
    ensures store.State() == old(store.State()).(applicationStatus := None)
    ensures !SnackbarOpen(store.applicationStatus)
    ensures store.Valid()
  {
    store.ClearApplicationStatus();
  }

  /** Closing the snackbar clears the status, which closes it. */
  method CloseSnackbar(store: JobsStore)
    requires store.Valid()
    modifies store
    ensures store.State() == old(store.State()).(applicationStatus := None)
    ensures !SnackbarOpen(store.applicationStatus)
    ensures store.Valid()
  {
    store.ClearApplicationStatus();
  }

  /** `handleApplyJob`: builds the record and dispatches `applyForJob`, whose request
      ends in `response`. With no signed-in user, reading `user.id` throws and nothing
      is dispatched. A successful submission leaves the page saying the user has
      applied; the record sent is returned in `sent`. */
  method HandleApplyJob(store: JobsStore, job: Job, user: Option<User>, resume: Option<string>,
                        nowIso: string, response: Result<(), Option<string>>)
    returns (sent: Option<Application>)
    requires store.Valid()
    modifies store
    ensures user.None? ==> sent.None? && store.State() == old(store.State())
    ensures user.Some? ==> sent == Some(BuildApplication(job, user.value, resume, nowIso))
    ensures user.Some? && response.Ok? ==> store.State() == old(store.State()).(
      loading := false, error := None, hasApplied := true,
      applicationStatus := Some(ApplySucceeded))
    ensures user.Some? && response.Err? ==> store.State() == old(store.State()).(
      loading := false, error := None,
      applicationStatus := Some(OrElse(response.error, ApplyFailed)))
    ensures user.Some? && response.Ok? ==>
      store.hasApplied && store.applicationStatus == Some(ApplySucceeded) &&
      ApplyAreaOf(store.loading, store.error, store.hasApplied) == ShowAlreadyApplied &&
      SnackbarOpen(store.applicationStatus)
    ensures user.Some? && response.Err? ==>
      store.hasApplied == old(store.hasApplied) && SnackbarOpen(store.applicationStatus)
    ensures store.Valid()
  {
    if user.None? {
      return None;
    }
    var application := BuildApplication(job, user.value, resume, nowIso);
    store.ApplyForJob(response);
    sent := Some(application);
  }

  /** While the submission is pending the Apply button is gone: the pending reducer
      sets `loading`, which takes precedence over every other branch. */
  method ButtonHiddenWhilePending(store: JobsStore) returns (area: ApplyArea)
    requires store.Valid()
    modifies store
    ensures area == ShowLoading
    ensures store.Valid()
  {
    store.ApplyPending();
    area := ApplyAreaOf(store.loading, store.error, store.hasApplied);
  }

  /** The record the page submits is the one `checkApplication` looks for: once it is
      in the application list, the user counts as having applied to the job. */
  lemma SubmittedRecordIsFound(apps: seq<Application>, job: Job, user: User, resume: Option<string>, nowIso: string)
    ensures HasApplied(apps + [BuildApplication(job, user, resume, nowIso)], job.id, user.id)
  {
    AppliedAfterAppend(apps, BuildApplication(job, user, resume, nowIso));
  }

  /** With a timestamp `date + "T" + time`, the applied date is `date`. */
  lemma AppliedDateIsToday(job: Job, user: User, resume: Option<string>, date: string, time: string)
    requires 'T' !in date
    ensures BuildApplication(job, user, resume, date + ['T'] + time).appliedDate == date
  {
    DatePartOf(date, time);
  }
}
