/** The employer's vacancy page (src/pages/VacancyPage/VacancyPage.jsx): the jobs of
    the employer's companies, a three-step form that creates or updates a job, and a
    read-only dialog for one job. The form state is a record keyed by field name, as
    `handleChange` writes `jobData[e.target.name]`. */
module VacancyPage {
  import opened Common
  import opened Text
  import opened Entities

  /** The stepper's labels: "Job Details", "Requirements", "Publish". */
  const StepCount := 3

  /** A value held in the form record. */
  datatype FieldValue = Text(s: string) | Number(n: int) | Flag(b: bool) | Absent

  type JobForm = map<string, FieldValue>

  /** The fields of a new vacancy, all empty, `active` set, dated today. */
  const TextFields := ["title", "companyId", "location", "description", "skillsRequired",
                       "experienceRequired", "industry", "salary"]

  /** The fields of the form record. */
  const FormKeys: set<string> := {"title", "companyId", "location", "description", "skillsRequired",
                                  "experienceRequired", "industry", "salary", "active", "publishDate"}

  /** The empty form; `nowIso` is `new Date().toISOString()`. */
  function EmptyForm(nowIso: string): (r: JobForm)
    ensures forall i :: 0 <= i < |TextFields| ==> TextFields[i] in r && r[TextFields[i]] == Text("")
    ensures r.Keys == FormKeys
    ensures "active" in r && r["active"] == Flag(true)
    ensures "publishDate" in r && r["publishDate"] == Text(DatePart(nowIso)) && 'T' !in r["publishDate"].s
  {
    DatePartHasNoT(nowIso);
    map["title" := Text(""), "companyId" := Text(""), "location" := Text(""),
        "description" := Text(""), "skillsRequired" := Text(""), "experienceRequired" := Text(""),
        "industry" := Text(""), "salary" := Text(""), "active" := Flag(true),
        "publishDate" := Text(DatePart(nowIso))]
  }

  lemma DatePartHasNoT(iso: string)
    ensures 'T' !in DatePart(iso)
  {
    assert DatePart(iso) == Split(iso, 'T')[0];
  }

  /** `{...job, publishDate: job.publishDate.split("T")[0]}`: every field of the job,
      the date cut at 'T'. */
  function FormOf(job: Job): (r: JobForm)
    ensures r.Keys == FormKeys + {"id", "company"}
    ensures r["id"] == Number(job.id) && r["companyId"] == Number(job.companyId)
    ensures r["title"] == Text(job.title) && r["location"] == Text(job.location)
    ensures r["industry"] == Text(job.industry) && r["salary"] == Text(job.salary)
    ensures r["description"] == Text(job.description) && r["experienceRequired"] == Text(job.experienceRequired)
    ensures r["company"] == Text(job.company)
    ensures r["skillsRequired"] == (if job.skillsRequired.Some? then Text(job.skillsRequired.value) else Absent)
    ensures r["publishDate"] == Text(DatePart(job.publishDate)) && 'T' !in r["publishDate"].s
    ensures r["active"] == Flag(job.active)
  {
    DatePartHasNoT(job.publishDate);
    map["id" := Number(job.id), "title" := Text(job.title), "company" := Text(job.company),
        "companyId" := Number(job.companyId), "location" := Text(job.location),
        "industry" := Text(job.industry), "salary" := Text(job.salary),
        "skillsRequired" := (if job.skillsRequired.Some? then Text(job.skillsRequired.value) else Absent),
        "experienceRequired" := Text(job.experienceRequired), "description" := Text(job.description),
        "publishDate" := Text(DatePart(job.publishDate)), "active" := Flag(job.active)]
  }

  /** A timestamp's date survives into the edit form unchanged. */
  lemma EditFormKeepsDate(job: Job, date: string, time: string)
    requires job.publishDate == date + ['T'] + time && 'T' !in date
    ensures FormOf(job)["publishDate"] == Text(date)
  {
    DatePartOf(date, time);
  }

  // ---------------------------------------------------------------- the stepper

  datatype StepClick = NextClick | BackClick

  /** `handleNext` adds one, `handleBack` takes one away; neither checks bounds. */
  function StepAfter(step: int, click: StepClick): int
  {
    match click
    case NextClick => step + 1
    case BackClick => step - 1
  }

  /** Back is disabled on the first step; on the last step Submit replaces Next. */
  predicate ClickAvailable(step: int, click: StepClick)
  {
    match click
    case NextClick => step != StepCount - 1
    case BackClick => step != 0
  }

  /** Clicking only the buttons on offer keeps the step among the three. */
  lemma StepStaysInRange(step: int, click: StepClick)
    requires 0 <= step < StepCount && ClickAvailable(step, click)
    ensures 0 <= StepAfter(step, click) < StepCount
  {
  }

  /** Two clicks on Next from the first step reach the step where Submit shows. */
  lemma TwoNextsReachPublish()
    ensures StepAfter(StepAfter(0, NextClick), NextClick) == StepCount - 1
    ensures !ClickAvailable(StepCount - 1, NextClick)
  {
  }

  // ---------------------------------------------------------------- companies

  /** `{id, name}` of a company, as the company selector lists it. */
  datatype CompanyOption = CompanyOption(id: int, name: string)

  /** `response.data.data?.map(...) || []`: absent data gives no companies. */
  function CompanyOptions(data: Option<seq<Company>>): (r: seq<CompanyOption>)
    ensures data.None? ==> r == []
    ensures data.Some? ==> |r| == |data.value|
    ensures data.Some? ==> forall i :: 0 <= i < |r| ==>
      r[i] == CompanyOption(data.value[i].id, data.value[i].name)
  {
    if data.None? then []
    else seq(|data.value|, i requires 0 <= i < |data.value| => CompanyOption(data.value[i].id, data.value[i].name))
  }

  /** The ids, one `String(id)` each. */
  function IdTexts(companies: seq<CompanyOption>): (r: seq<string>)
    ensures |r| == |companies| && forall i :: 0 <= i < |r| ==> r[i] == IdKey(companies[i].id)
  {
    seq(|companies|, i requires 0 <= i < |companies| => IdKey(companies[i].id))
  }

  /** The `ids` query parameter: `companyIds.join(",")`. */
  function IdsParam(companies: seq<CompanyOption>): string
  {
    Join(IdTexts(companies), ',')
  }

  /** The server can recover every id from the parameter: split on commas, each piece
      parses back to its company's id, in order. */
  lemma IdsRoundTrip(companies: seq<CompanyOption>)
    requires |companies| >= 1
    ensures |Split(IdsParam(companies), ',')| == |companies|
    ensures forall i :: 0 <= i < |companies| ==>
      ParseNumber(Split(IdsParam(companies), ',')[i]) == Some(companies[i].id)
  {
    var texts := IdTexts(companies);
    SplitJoin(texts, ',');
    forall i | 0 <= i < |companies|
      ensures ParseNumber(texts[i]) == Some(companies[i].id)
    {
      ParseIdKey(companies[i].id);
    }
  }

  /** An employer without companies sends an empty parameter. */
  lemma NoCompaniesEmptyParam()
    ensures IdsParam([]) == ""
  {
  }

  // ---------------------------------------------------------------- the page

  /** The request `handleSubmit` sends. */
  datatype JobRequest = UpdateJob(id: int, form: JobForm) | CreateJob(form: JobForm)

  /** `if (editingJobId)`: a present, non-zero id. */
  predicate Editing(editingJobId: Option<int>)
  {
    editingJobId.Some? && editingJobId.value != 0
  }

  /** The request for a form, by whether a job is being edited. */
  function RequestFor(editingJobId: Option<int>, form: JobForm): (r: JobRequest)
    ensures r.UpdateJob? <==> Editing(editingJobId)
    ensures r.form == form
    ensures r.UpdateJob? ==> r.id == editingJobId.value
  {
    if Editing(editingJobId) then UpdateJob(editingJobId.value, form) else CreateJob(form)
  }

  /** An id of 0 is falsy: editing such a job sends a create request. */
  lemma ZeroIdCreates(form: JobForm)
    ensures RequestFor(Some(0), form) == CreateJob(form)
  {
  }

  class VacancyEditor {
    var activeStep: int
    var jobData: JobForm
    var editingJobId: Option<int>
    var openModal: bool
    var selectedJob: Option<Job>
    var openDataModal: bool
    var jobs: seq<Job>
    var companies: seq<CompanyOption>

    /** The first render, with the shared job list as it is. */
    constructor (nowIso: string, shared: seq<Job>)
      ensures activeStep == 0 && jobData == EmptyForm(nowIso) && editingJobId == None
      ensures !openModal && selectedJob == None && !openDataModal
      ensures jobs == shared && companies == []
    {
      activeStep := 0;
      jobData := EmptyForm(nowIso);
      editingJobId := None;
      openModal := false;
      selectedJob := None;
      openDataModal := false;
      jobs := shared;
      companies := [];
    }

    /** Submit replaces Next on the last step. */
    predicate SubmitShown()
      reads this
    {
      activeStep == StepCount - 1
    }

    method Next()
      modifies this
      ensures activeStep == StepAfter(old(activeStep), NextClick)
      ensures jobData == old(jobData) && editingJobId == old(editingJobId) && openModal == old(openModal)
      ensures selectedJob == old(selectedJob) && openDataModal == old(openDataModal)
      ensures jobs == old(jobs) && companies == old(companies)
    {
      activeStep := activeStep + 1;
    }

    method Back()
      modifies this
      ensures activeStep == StepAfter(old(activeStep), BackClick)
      ensures jobData == old(jobData) && editingJobId == old(editingJobId) && openModal == old(openModal)
      ensures selectedJob == old(selectedJob) && openDataModal == old(openDataModal)
      ensures jobs == old(jobs) && companies == old(companies)
    {
      activeStep := activeStep - 1;
    }

    /** `handleChange`: the named field takes the control's value, the typed text for
        a text field and the chosen `company.id`, a number, for the company select;
        every other field keeps its value. */
    method Change(name: string, value: FieldValue)
      modifies this
      ensures jobData == old(jobData)[name := value]
      ensures forall k :: k in old(jobData) && k != name ==> k in jobData && jobData[k] == old(jobData)[k]
      ensures activeStep == old(activeStep) && editingJobId == old(editingJobId) && openModal == old(openModal)
      ensures selectedJob == old(selectedJob) && openDataModal == old(openDataModal)
      ensures jobs == old(jobs) && companies == old(companies)
    {
      jobData := jobData[name := value];
    }

    /** `handleOpenModal(job)`: with a job, edit a copy of it from the first step;
        without one, start an empty form and leave the step where it was. */
    method OpenModal(job: Option<Job>, nowIso: string)
      modifies this
      ensures job.Some? ==> editingJobId == Some(job.value.id) && jobData == FormOf(job.value) && activeStep == 0
      ensures job.None? ==> editingJobId == None && jobData == EmptyForm(nowIso) && activeStep == old(activeStep)
      ensures openModal
      ensures selectedJob == old(selectedJob) && openDataModal == old(openDataModal)
      ensures jobs == old(jobs) && companies == old(companies)
    {
      if job.Some? {
        editingJobId := Some(job.value.id);
        jobData := FormOf(job.value);
        activeStep := 0;
      } else {
        editingJobId := None;
        jobData := EmptyForm(nowIso);
      }
      openModal := true;
    }

    method CloseModal()
      modifies this
      ensures !openModal
      ensures activeStep == old(activeStep) && jobData == old(jobData) && editingJobId == old(editingJobId)
      ensures selectedJob == old(selectedJob) && openDataModal == old(openDataModal)
      ensures jobs == old(jobs) && companies == old(companies)
    {
      openModal := false;
    }

    /** `handleSubmit`: PUT for an edited job, POST otherwise. On success the form is
        emptied, the stepper returns to the first step, the modal closes and the
        companies and jobs are fetched again (`refetch`); on failure nothing changes. */
    method Submit(response: Result<(), ()>, nowIso: string) returns (request: JobRequest, refetch: bool)
      modifies this
      ensures request == RequestFor(old(editingJobId), old(jobData))
      ensures refetch <==> response.Ok?
      ensures response.Ok? ==> jobData == EmptyForm(nowIso) && activeStep == 0 && !openModal
      ensures response.Err? ==> jobData == old(jobData) && activeStep == old(activeStep) && openModal == old(openModal)
      ensures editingJobId == old(editingJobId)
      ensures selectedJob == old(selectedJob) && openDataModal == old(openDataModal)
      ensures jobs == old(jobs) && companies == old(companies)
    {
      request := RequestFor(editingJobId, jobData);
      if response.Err? {
        return request, false;
      }
      jobData := EmptyForm(nowIso);
      activeStep := 0;
      openModal := false;
      refetch := true;
    }

    /** `handleDelete`: on success the lists are fetched again. */
    method Delete(response: Result<(), ()>) returns (refetch: bool)
      ensures refetch <==> response.Ok?
    {
      refetch := response.Ok?;
    }

    /** `handleViewJob`: the dialog opens on the first job with that id, and only when
        there is one. */
    method ViewJob(jobId: int)
      modifies this
      ensures selectedJob == (if Find((j: Job) => j.id == jobId, jobs).Some? then Find((j: Job) => j.id == jobId, jobs) else old(selectedJob))
      ensures openDataModal <==> old(openDataModal) || exists i :: 0 <= i < |jobs| && jobs[i].id == jobId
      ensures activeStep == old(activeStep) && jobData == old(jobData) && editingJobId == old(editingJobId)
      ensures openModal == old(openModal) && jobs == old(jobs) && companies == old(companies)
    {
      var job := Find((j: Job) => j.id == jobId, jobs);
      if job.Some? {
        selectedJob := job;
        openDataModal := true;
      }
    }

    method CloseDataModal()
      modifies this
      ensures !openDataModal
      ensures activeStep == old(activeStep) && jobData == old(jobData) && editingJobId == old(editingJobId)
      ensures openModal == old(openModal) && selectedJob == old(selectedJob)
      ensures jobs == old(jobs) && companies == old(companies)
    {
      openDataModal := false;
    }

    /** `fetchCompanies` and the `fetchJobs` it starts: the employer's companies are
        projected and stored, their ids are sent comma-joined (`ids`), and the jobs
        the server returns for them replace the shared list. A failure of either
        request changes nothing further. */
    method FetchCompanies(companyResponse: Result<Option<seq<Company>>, ()>,
                          jobsFor: string -> Result<seq<Job>, ()>)
      returns (ids: Option<string>)
      modifies this
      ensures companyResponse.Err? ==> ids == None && companies == old(companies) && jobs == old(jobs)
      ensures companyResponse.Ok? ==>
        companies == CompanyOptions(companyResponse.value) &&
        ids == Some(IdsParam(companies)) &&
        jobs == (if jobsFor(ids.value).Ok? then jobsFor(ids.value).value else old(jobs))
      ensures activeStep == old(activeStep) && jobData == old(jobData) && editingJobId == old(editingJobId)
      ensures openModal == old(openModal) && selectedJob == old(selectedJob) && openDataModal == old(openDataModal)
    {
      if companyResponse.Err? {
        return None;
      }
      companies := CompanyOptions(companyResponse.value);
      var param := IdsParam(companies);
      ids := Some(param);
      var fetched := jobsFor(param);
      if fetched.Ok? {
        jobs := fetched.value;
      }
    }

    /** The mount effect: the companies are fetched only for a signed-in user. */
    method Mount(user: Option<User>, companyResponse: Result<Option<seq<Company>>, ()>,
                 jobsFor: string -> Result<seq<Job>, ()>)
      returns (ids: Option<string>)
      modifies this
      ensures user.None? || user.value.id == 0 ==> ids == None && companies == old(companies) && jobs == old(jobs)
      ensures user.Some? && user.value.id != 0 && companyResponse.Err? ==>
        ids == None && companies == old(companies) && jobs == old(jobs)
      ensures user.Some? && user.value.id != 0 && companyResponse.Ok? ==>
        companies == CompanyOptions(companyResponse.value) &&
        ids == Some(IdsParam(companies)) &&
        jobs == (if jobsFor(ids.value).Ok? then jobsFor(ids.value).value else old(jobs))
      ensures activeStep == old(activeStep) && jobData == old(jobData) && editingJobId == old(editingJobId)
      ensures openModal == old(openModal) && selectedJob == old(selectedJob) && openDataModal == old(openDataModal)
    {
      if user.None? || user.value.id == 0 {
        return None;
      }
      ids := FetchCompanies(companyResponse, jobsFor);
    }
  }

  /** Picking a company in a new form stores its id as a number, the same kind of value
      the edit form copies from a job of that company. */
  method CompanyPickMatchesEditForm(page: VacancyEditor, nowIso: string, job: Job)
    modifies page
    ensures page.jobData.Keys == FormKeys && page.editingJobId == None
    ensures page.jobData["companyId"] == Number(job.companyId) == FormOf(job)["companyId"]
  {
    page.OpenModal(None, nowIso);
    page.Change("companyId", Number(job.companyId));
  }

  /** Leaving the wizard on its last step and opening an empty form keeps that step:
      only editing a job, or a successful submit, resets it. */
  method CreateAfterLeavingOnPublish(page: VacancyEditor, nowIso: string)
    requires page.activeStep == StepCount - 1
    modifies page
    ensures page.openModal && page.SubmitShown() && page.jobData == EmptyForm(nowIso)
  {
    page.CloseModal();
    page.OpenModal(None, nowIso);
  }
}
