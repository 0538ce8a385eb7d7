/** The employer's applications page (src/pages/ApplicaionsPage/ApplicationsPage.jsx):
    a vacancy selector fed from the shared job list, the applications to the selected
    vacancy, and approve/reject buttons that write an application's status. */
module ApplicationsPage {
  import opened Common
  import opened Entities

  /** `{id, title}` of a job, as the vacancy selector lists it. */
  datatype JobOption = JobOption(id: int, title: string)

  /** The two buttons of an application row. */
  datatype Decision = Approve | Reject

  /** The status text each button sends. */
  function StatusText(d: Decision): (r: string)
    ensures r == "Approved" || r == "Rejected"
    ensures d.Approve? <==> r == "Approved"
  {
    match d
    case Approve => "Approved"
    case Reject => "Rejected"
  }

  /** `jobs.map(job => ({id, title}))`. */
  function JobOptions(jobs: seq<Job>): (r: seq<JobOption>)
    ensures |r| == |jobs|
    ensures forall i :: 0 <= i < |r| ==> r[i] == JobOption(jobs[i].id, jobs[i].title)
  {
    seq(|jobs|, i requires 0 <= i < |jobs| => JobOption(jobs[i].id, jobs[i].title))
  }

  /** The status updater: the entries with that application id take the new status;
      the list keeps its length and order. */
  function WithStatus(apps: seq<Application>, applicationId: int, status: string): (r: seq<Application>)
    ensures |r| == |apps|
    ensures forall i :: 0 <= i < |apps| ==>
      r[i] == if apps[i].applicationId == applicationId then apps[i].(applicationStatus := status) else apps[i]
  {
    MapWhere((a: Application) => a.applicationId == applicationId,
             (a: Application) => a.(applicationStatus := status), apps)
  }

  /** A second decision on the same application replaces the first. */
  lemma LastDecisionWins(apps: seq<Application>, applicationId: int, s1: string, s2: string)
    ensures WithStatus(WithStatus(apps, applicationId, s1), applicationId, s2) == WithStatus(apps, applicationId, s2)
  {
    var once := WithStatus(apps, applicationId, s1);
    assert forall i :: 0 <= i < |apps| ==> once[i].applicationId == apps[i].applicationId;
  }

  /** Only the application acted on changes status, and it takes the text of the
      button pressed; every status on the page is one that was there or one of the
      two button texts. */
  lemma DecisionStatuses(apps: seq<Application>, applicationId: int, d: Decision, i: int)
    requires 0 <= i < |apps|
    ensures var r := WithStatus(apps, applicationId, StatusText(d));
      r[i].applicationStatus == apps[i].applicationStatus ||
      r[i].applicationStatus in {"Approved", "Rejected"}
    ensures WithStatus(apps, applicationId, StatusText(d))[i].applicationId == apps[i].applicationId
  {
  }

  /** `if (!jobId) return`: the empty selection, or an id of 0, fetches nothing. */
  predicate JobSelected(jobId: Option<int>)
  {
    jobId.Some? && jobId.value != 0
  }

  class ApplicationsView {
    var jobId: Option<int>
    var applications: seq<Application>
    var loading: bool
    var jobList: seq<JobOption>

    /** The first render: nothing selected. */
    constructor ()
      ensures jobId == None && applications == [] && !loading && jobList == []
    {
      jobId := None;
      applications := [];
      loading := false;
      jobList := [];
    }

    /** The applications table shows once a vacancy is selected. */
    predicate TableShown()
      reads this
    {
      JobSelected(jobId)
    }

    /** The effect on the shared job list: the selector is rebuilt only from a
        non-empty list, so an emptied list leaves the old entries. */
    method JobsChanged(jobs: seq<Job>)
      modifies this
      ensures jobs != [] ==> jobList == JobOptions(jobs)
      ensures jobs == [] ==> jobList == old(jobList)
      ensures jobId == old(jobId) && applications == old(applications) && loading == old(loading)
    {
      if |jobs| > 0 {
        jobList := JobOptions(jobs);
      }
    }

    /** The effect on `jobId`: with a selection, `GET /applications/job/{jobId}`;
        success replaces the list, failure keeps it, and loading ends either way.
        Without a selection nothing is requested (`requested`). */
    method FetchApplications(response: Result<seq<Application>, ()>) returns (requested: bool)
      modifies this
      ensures requested <==> JobSelected(jobId)
      ensures requested ==> !loading
      ensures !requested ==> loading == old(loading)
      ensures requested && response.Ok? ==> applications == response.value
      ensures !requested || response.Err? ==> applications == old(applications)
      ensures jobId == old(jobId) && jobList == old(jobList)
    {
      if !JobSelected(jobId) {
        return false;
      }
      loading := true;
      if response.Ok? {
        applications := response.value;
      }
      loading := false;
      requested := true;
    }

    /** Choosing a vacancy in the selector; its fetch follows. */
    method SelectJob(id: int, response: Result<seq<Application>, ()>) returns (requested: bool)
      modifies this
      ensures jobId == Some(id)
      ensures requested <==> id != 0
      ensures requested && response.Ok? ==> applications == response.value
      ensures !requested || response.Err? ==> applications == old(applications)
      ensures jobList == old(jobList)
    {
      jobId := Some(id);
      requested := FetchApplications(response);
    }

    /** `handleStatusChange`: the button's status is written into the list only when
        the server answers with status code 200; loading ends either way. */
    method StatusChange(applicationId: int, d: Decision, response: Result<int, ()>)
      modifies this
      ensures response == Ok(200) ==> applications == WithStatus(old(applications), applicationId, StatusText(d))
      ensures response != Ok(200) ==> applications == old(applications)
      ensures !loading
      ensures jobId == old(jobId) && jobList == old(jobList)
    {
      loading := true;
      if response == Ok(200) {
        applications := WithStatus(applications, applicationId, StatusText(d));
      }
      loading := false;
    }
  }
}
