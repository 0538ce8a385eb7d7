/** The client-side job filter. The store's `applyFilters` reducer
    (src/store/jobsSlice.js) and the job page's filter effect
    (src/pages/JobPage/JobPage.jsx) run the same five-stage pipeline over a job
    list; it is modelled once here and both use it. */
module JobFilter {
  import opened Common
  import opened Text
  import opened Entities

  /** The five filter inputs, each the text of a form field ("" when empty). */
  datatype Filters = Filters(
    location: string,
    industry: string,
    minSalary: string,
    maxSalary: string,
    searchTerm: string)

  /** The initial filters: every field empty. */
  const NoFilters := Filters("", "", "", "", "")

  /** `Number(job.salary) >= bound`; a NaN on either side makes the comparison false. */
  predicate SalaryAtLeast(job: Job, bound: Option<int>)
  {
    var salary := ParseNumber(job.salary);
    salary.Some? && bound.Some? && salary.value >= bound.value
  }

  /** `Number(job.salary) <= bound`; a NaN on either side makes the comparison false. */
  predicate SalaryAtMost(job: Job, bound: Option<int>)
  {
    var salary := ParseNumber(job.salary);
    salary.Some? && bound.Some? && salary.value <= bound.value
  }

  // The five stage tests, as the `.filter` callbacks state them.

  predicate LocationIs(f: Filters, job: Job)
  {
    job.location == f.location
  }

  predicate IndustryIs(f: Filters, job: Job)
  {
    job.industry == f.industry
  }

  predicate AboveMin(f: Filters, job: Job)
  {
    SalaryAtLeast(job, ParseNumber(f.minSalary))
  }

  predicate BelowMax(f: Filters, job: Job)
  {
    SalaryAtMost(job, ParseNumber(f.maxSalary))
  }

  predicate TitleHas(f: Filters, job: Job)
  {
    Contains(Lower(job.title), Lower(f.searchTerm))
  }

  /** A job passes the filters: every non-empty field's test holds of it. An empty
      field means no constraint; a non-empty salary field is always an active bound. */
  predicate Matches(f: Filters, job: Job)
  {
    && (f.location == "" || LocationIs(f, job))
    && (f.industry == "" || IndustryIs(f, job))
    && (f.minSalary == "" || AboveMin(f, job))
    && (f.maxSalary == "" || BelowMax(f, job))
    && (f.searchTerm == "" || TitleHas(f, job))
  }

  /** The reference definition of the filtered list: the jobs that pass, in order. */
  function FilterJobs(jobs: seq<Job>, f: Filters): seq<Job>
  {
    Filter(job => Matches(f, job), jobs)
  }

  // ---------------------------------------------------------------- staged pipeline

  /** Stage `k` (0 location, 1 industry, 2 minimum, 3 maximum, 4 title) is switched on. */
  predicate Active(f: Filters, k: nat)
  {
    match k
    case 0 => f.location != ""
    case 1 => f.industry != ""
    case 2 => f.minSalary != ""
    case 3 => f.maxSalary != ""
    case _ => f.searchTerm != ""
  }

  /** The callback of stage `k`. */
  predicate Test(f: Filters, k: nat, job: Job)
  {
    match k
    case 0 => LocationIs(f, job)
    case 1 => IndustryIs(f, job)
    case 2 => AboveMin(f, job)
    case 3 => BelowMax(f, job)
    case _ => TitleHas(f, job)
  }

  /** The job survives the first `k` stages. */
  predicate Upto(f: Filters, k: nat, job: Job)
  {
    k == 0 || (Upto(f, k - 1, job) && (!Active(f, k - 1) || Test(f, k - 1, job)))
  }

  lemma UptoAll(f: Filters, job: Job)
    ensures Upto(f, 5, job) == Matches(f, job)
  {
    assert Upto(f, 1, job) == (f.location == "" || LocationIs(f, job));
    assert Upto(f, 2, job) == (Upto(f, 1, job) && (f.industry == "" || IndustryIs(f, job)));
    assert Upto(f, 3, job) == (Upto(f, 2, job) && (f.minSalary == "" || AboveMin(f, job)));
    assert Upto(f, 4, job) == (Upto(f, 3, job) && (f.maxSalary == "" || BelowMax(f, job)));
  }

  /** The jobs that survive the first `k` stages, in order. */
  ghost function Survivors(jobs: seq<Job>, f: Filters, k: nat): seq<Job>
  {
    Filter(j => Upto(f, k, j), jobs)
  }

  /** Running stage `k` on the list that survived stages `0..k` leaves the list that
      survives stages `0..k+1`; a switched-off stage leaves the list as it is. */
  lemma StageStep(jobs: seq<Job>, f: Filters, k: nat, before: seq<Job>, test: Job -> bool)
    requires before == Survivors(jobs, f, k)
    requires forall j :: test(j) == Test(f, k, j)
    ensures Active(f, k) ==> Filter(test, before) == Survivors(jobs, f, k + 1)
    ensures !Active(f, k) ==> before == Survivors(jobs, f, k + 1)
  {
    if Active(f, k) {
      FilterFilter(j => Upto(f, k, j), test, j => Upto(f, k + 1, j), jobs);
    } else {
      FilterExt(j => Upto(f, k, j), j => Upto(f, k + 1, j), jobs);
    }
  }

  /** One stage of the pipeline: when stage `k`'s field is non-empty, narrow the list
      with that stage's callback. */
  method RunStage(jobs: seq<Job>, f: Filters, k: nat, filtered: seq<Job>) returns (next: seq<Job>)
    requires filtered == Survivors(jobs, f, k)
    ensures next == Survivors(jobs, f, k + 1)
  {
    StageStep(jobs, f, k, filtered, job => Test(f, k, job));
    next := filtered;
    if Active(f, k) {
      next := Filter(job => Test(f, k, job), filtered);
    }
  }

  /** The filter pipeline: `filtered` starts as the whole list and each non-empty
      field narrows it with one `.filter` call, in the order location, industry,
      minimum salary, maximum salary, title search. */
  method RunFilterStages(jobs: seq<Job>, f: Filters) returns (filtered: seq<Job>)
    ensures filtered == FilterJobs(jobs, f)
  {
    filtered := jobs;
    FilterKeepsAll(j => Upto(f, 0, j), jobs);
    var k := 0;
    while k < 5
      invariant 0 <= k <= 5
      invariant filtered == Survivors(jobs, f, k)
    {
      filtered := RunStage(jobs, f, k, filtered);
      k := k + 1;
    }
    AllStagesMatch(jobs, f);
  }

  /** Surviving all five stages is passing the filters. */
  lemma AllStagesMatch(jobs: seq<Job>, f: Filters)
    ensures Survivors(jobs, f, 5) == FilterJobs(jobs, f)
  {
    forall job: Job {
      UptoAll(f, job);
    }
    FilterExt(j => Upto(f, 5, j), job => Matches(f, job), jobs);
  }

  // ---------------------------------------------------------------- properties

  /** With every field empty the filter keeps the whole list. */
  lemma NoFiltersKeepAll(jobs: seq<Job>)
    ensures FilterJobs(jobs, NoFilters) == jobs
  {
    FilterKeepsAll(job => Matches(NoFilters, job), jobs);
  }

  /** The filtered list is an order-preserving subsequence of the input. */
  lemma FilterJobsIsSubsequence(jobs: seq<Job>, f: Filters)
    ensures IsSubsequence(FilterJobs(jobs, f), jobs)
  {
    FilterIsSubsequence(job => Matches(f, job), jobs);
  }

  /** Soundness and completeness: a job is in the filtered list exactly when it is in
      the input and passes every active test. */
  lemma FilterJobsMembers(jobs: seq<Job>, f: Filters)
    ensures forall i :: 0 <= i < |FilterJobs(jobs, f)| ==>
      FilterJobs(jobs, f)[i] in jobs && Matches(f, FilterJobs(jobs, f)[i])
    ensures forall i :: 0 <= i < |jobs| && Matches(f, jobs[i]) ==> jobs[i] in FilterJobs(jobs, f)
  {
  }

  /** A non-empty salary field is an active bound even when it reads as zero:
      with minimum "0" a job passes only if its salary is a number and at least 0. */
  lemma ZeroMinimumIsActive(f: Filters, job: Job)
    requires f.minSalary == "0"
    ensures Matches(f, job) ==> ParseNumber(job.salary).Some? && ParseNumber(job.salary).value >= 0
  {
    ParseNatString(0);
    assert NatToString(0) == "0";
  }

  /** Once either salary bound is set, a job whose salary is not a number is excluded. */
  lemma NaNSalaryExcluded(f: Filters, job: Job)
    requires f.minSalary != "" || f.maxSalary != ""
    requires ParseNumber(job.salary).None?
    ensures !Matches(f, job)
  {
  }

  /** With both salary fields empty, the salary text plays no part in the decision. */
  lemma EmptySalaryFieldsIgnored(f: Filters, job: Job, salary: string)
    requires f.minSalary == "" && f.maxSalary == ""
    ensures Matches(f, job) == Matches(f, job.(salary := salary))
  {
  }

  /** With the range 60..100 set and no other field, a job passes exactly when its
      salary reads as a number between 60 and 100. */
  lemma RangeDecides(job: Job, n: int)
    requires ParseNumber(job.salary) == Some(n)
    ensures Matches(NoFilters.(minSalary := "60", maxSalary := "100"), job) <==> 60 <= n <= 100
  {
    SixtyParses();
    HundredParses();
  }

  lemma SixtyParses()
    ensures ParseNumber("60") == Some(60)
  {
    assert NatToString(60) == "60";
    SalaryOf(60, "60");
  }

  lemma HundredParses()
    ensures ParseNumber("100") == Some(100)
  {
    assert NatToString(100) == "100";
    SalaryOf(100, "100");
  }

  /** Salaries 50, 80 and 120 with the range 60..100 keep only the job paying 80. */
  lemma SalaryRangeExample(a: Job, b: Job, c: Job)
    requires a.salary == "50" && b.salary == "80" && c.salary == "120"
    ensures FilterJobs([a, b, c], NoFilters.(minSalary := "60", maxSalary := "100")) == [b]
  {
    BelowRange(a);
    InRange(b);
    AboveRange(c);
    KeepsMiddle(a, b, c, NoFilters.(minSalary := "60", maxSalary := "100"));
  }

  lemma KeepsMiddle(a: Job, b: Job, c: Job, f: Filters)
    requires !Matches(f, a) && Matches(f, b) && !Matches(f, c)
    ensures FilterJobs([a, b, c], f) == [b]
  {
    var p := job => Matches(f, job);
    assert Filter(p, [a, b, c]) == Filter(p, [b, c]) by { assert [a, b, c][1..] == [b, c]; }
    assert Filter(p, [b, c]) == [b] + Filter(p, [c]) by { assert [b, c][1..] == [c]; }
    assert Filter(p, [c]) == Filter(p, []) by { assert [c][1..] == []; }
  }

  lemma BelowRange(job: Job)
    requires job.salary == "50"
    ensures !Matches(NoFilters.(minSalary := "60", maxSalary := "100"), job)
  {
    assert NatToString(50) == "50";
    RangeVerdict(job, 50, "50");
  }

  lemma InRange(job: Job)
    requires job.salary == "80"
    ensures Matches(NoFilters.(minSalary := "60", maxSalary := "100"), job)
  {
    assert NatToString(80) == "80";
    RangeVerdict(job, 80, "80");
  }

  lemma AboveRange(job: Job)
    requires job.salary == "120"
    ensures !Matches(NoFilters.(minSalary := "60", maxSalary := "100"), job)
  {
    assert NatToString(120) == "120";
    RangeVerdict(job, 120, "120");
  }

  lemma RangeVerdict(job: Job, n: nat, s: string)
    requires job.salary == s && s == NatToString(n)
    ensures Matches(NoFilters.(minSalary := "60", maxSalary := "100"), job) <==> 60 <= n <= 100
  {
    SalaryOf(n, s);
    RangeDecides(job, n);
  }

  lemma SalaryOf(n: nat, s: string)
    requires s == NatToString(n)
    ensures ParseNumber(s) == Some(n as int)
  {
    ParseNatString(n);
  }
}
