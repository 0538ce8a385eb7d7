/** The job search page (src/pages/JobPage/JobPage.jsx): its own copy of the job
    list, the five filter fields, the filter effect that recomputes the visible list,
    and pagination by twelve. */
module JobPage {
  import opened Common
  import opened Entities
  import opened JobFilter

  const JobsPerPage := 12

  /** `s.slice(start, end)` for non-negative bounds: both are clamped to the length. */
  function JsSlice<T>(s: seq<T>, start: nat, end: nat): (r: seq<T>)
    ensures start <= |s| && start <= end ==> |r| == (if end <= |s| then end else |s|) - start
    ensures start >= |s| || end <= start ==> r == []
    ensures forall k :: 0 <= k < |r| ==> start + k < |s| && r[k] == s[start + k]
  {
    var e := if end <= |s| then end else |s|;
    if start < e then s[start..e] else []
  }

  /** `Math.ceil(n / jobsPerPage)`. */
  function TotalPages(n: nat): (r: nat)
    ensures n == 0 ==> r == 0
    ensures n > 0 ==> (r - 1) * JobsPerPage < n <= r * JobsPerPage
  {
    (n + JobsPerPage - 1) / JobsPerPage
  }

  /** The jobs shown on page `page` (counted from 1). */
  function DisplayedJobs(jobs: seq<Job>, page: nat): (r: seq<Job>)
    requires page >= 1
    ensures |r| <= JobsPerPage
  {
    var start := (page - 1) * JobsPerPage;
    JsSlice(jobs, start, start + JobsPerPage)
  }

  /** The pagination control is rendered when `totalPages > 1`. */
  predicate ShowPagination(n: nat)
  {
    TotalPages(n) > 1
  }

  class JobPageState {
    var currentPage: nat
    var allJobs: seq<Job>
    var filteredJobs: seq<Job>
    var filters: Filters

    /** The visible list always agrees with the filter effect, and pages count from 1. */
    ghost predicate Valid()
      reads this
    {
      currentPage >= 1 && filteredJobs == FilterJobs(allJobs, filters)
    }

    /** The first render: page 1, nothing loaded, every filter empty. */
    constructor ()
      ensures currentPage == 1 && allJobs == [] && filteredJobs == [] && filters == NoFilters
      ensures Valid()
    {
      currentPage := 1;
      allJobs := [];
      filteredJobs := [];
      filters := NoFilters;
    }

    /** The filter effect, run whenever a filter field or the job list changes. */
    method FilterEffect()
      modifies this
      ensures filteredJobs == FilterJobs(allJobs, filters)
      ensures currentPage == old(currentPage) && allJobs == old(allJobs) && filters == old(filters)
    {
      filteredJobs := RunFilterStages(allJobs, filters);
    }

    /** The mount effect with the outcome of `GET /jobs/all`: on success both lists get
        the payload and the filter effect then runs on the new list; a failure is only
        logged. */
    method FetchJobs(response: Result<seq<Job>, ()>)
      requires Valid()
      modifies this
      ensures response.Ok? ==> allJobs == response.value && filteredJobs == FilterJobs(response.value, filters)
      ensures response.Err? ==> allJobs == old(allJobs) && filteredJobs == old(filteredJobs)
      ensures currentPage == old(currentPage) && filters == old(filters)
      ensures Valid()
    {
      if response.Ok? {
        allJobs := response.value;
        filteredJobs := response.value;
        FilterEffect();
      }
    }

    /** A change of one of the filter fields; the effect follows. The current page is
        not reset. */
    method SetFilters(f: Filters)
      requires Valid()
      modifies this
      ensures filters == f && filteredJobs == FilterJobs(allJobs, f)
      ensures currentPage == old(currentPage) && allJobs == old(allJobs)
      ensures Valid()
    {
      filters := f;
      FilterEffect();
    }

    method SetLocationFilter(v: string)
      requires Valid()
      modifies this
      ensures filters == old(filters).(location := v)
      ensures currentPage == old(currentPage) && allJobs == old(allJobs)
      ensures Valid()
    {
      SetFilters(filters.(location := v));
    }

    method SetIndustryFilter(v: string)
      requires Valid()
      modifies this
      ensures filters == old(filters).(industry := v)
      ensures currentPage == old(currentPage) && allJobs == old(allJobs)
      ensures Valid()
    {
      SetFilters(filters.(industry := v));
    }

    method SetMinSalaryFilter(v: string)
      requires Valid()
      modifies this
      ensures filters == old(filters).(minSalary := v)
      ensures currentPage == old(currentPage) && allJobs == old(allJobs)
      ensures Valid()
    {
      SetFilters(filters.(minSalary := v));
    }

    method SetMaxSalaryFilter(v: string)
      requires Valid()
      modifies this
      ensures filters == old(filters).(maxSalary := v)
      ensures currentPage == old(currentPage) && allJobs == old(allJobs)
      ensures Valid()
    {
      SetFilters(filters.(maxSalary := v));
    }

    method SetSearchTerm(v: string)
      requires Valid()
      modifies this
      ensures filters == old(filters).(searchTerm := v)
      ensures currentPage == old(currentPage) && allJobs == old(allJobs)
      ensures Valid()
    {
      SetFilters(filters.(searchTerm := v));
    }

    /** The page the pagination control selects. */
    method SetCurrentPage(page: nat)
      requires Valid() && page >= 1
      modifies this
      ensures currentPage == page && allJobs == old(allJobs) && filteredJobs == old(filteredJobs)
      ensures filters == old(filters)
      ensures Valid()
    {
      currentPage := page;
    }
  }

  // ---------------------------------------------------------------- properties

  /** Job `i` of the list is shown on page `i / 12 + 1`, at position `i % 12`, and that
      page exists. */
  lemma PageOfIndex(jobs: seq<Job>, i: nat)
    requires i < |jobs|
    ensures var page := i / JobsPerPage + 1;
      page <= TotalPages(|jobs|) &&
      i % JobsPerPage < |DisplayedJobs(jobs, page)| &&
      DisplayedJobs(jobs, page)[i % JobsPerPage] == jobs[i]
  {
    var page := i / JobsPerPage + 1;
    var start := (page - 1) * JobsPerPage;
    assert start == i - i % JobsPerPage;
    var r := DisplayedJobs(jobs, page);
    assert |r| > i % JobsPerPage;
    assert r[i % JobsPerPage] == jobs[start + i % JobsPerPage];
  }

  /** A page past the last one shows nothing. */
  lemma PastLastPageEmpty(jobs: seq<Job>, page: nat)
    requires page > TotalPages(|jobs|)
    ensures DisplayedJobs(jobs, page) == []
  {
    assert (page - 1) * JobsPerPage >= TotalPages(|jobs|) * JobsPerPage >= |jobs|;
  }

  /** Every page from 1 to the last one shows at least one job. */
  lemma PagesUpToLastNonEmpty(jobs: seq<Job>, page: nat)
    requires 1 <= page <= TotalPages(|jobs|)
    ensures DisplayedJobs(jobs, page) != []
  {
    assert (page - 1) * JobsPerPage <= (TotalPages(|jobs|) - 1) * JobsPerPage < |jobs|;
  }

  /** The control shows exactly when there are more than twelve jobs. */
  lemma PaginationShownIff(n: nat)
    ensures ShowPagination(n) <==> n > JobsPerPage
  {
  }

  /** The pages from 1 to `k`, one after the other. */
  function Pages(jobs: seq<Job>, k: nat): seq<Job>
  {
    if k == 0 then [] else Pages(jobs, k - 1) + DisplayedJobs(jobs, k)
  }

  /** Reading the pages in order gives back the first `12 k` jobs. */
  lemma {:induction false} PagesPrefix(jobs: seq<Job>, k: nat)
    ensures Pages(jobs, k) == jobs[..if k * JobsPerPage <= |jobs| then k * JobsPerPage else |jobs|]
  {
    if k > 0 {
      PagesPrefix(jobs, k - 1);
      var a := (k - 1) * JobsPerPage;
      var lo := if a <= |jobs| then a else |jobs|;
      var hi := if k * JobsPerPage <= |jobs| then k * JobsPerPage else |jobs|;
      var page := DisplayedJobs(jobs, k);
      assert page == jobs[lo..hi];
      assert jobs[..lo] + jobs[lo..hi] == jobs[..hi];
    }
  }

  /** The pages from the first to the last, read in order, are the whole list: no job
      is lost or repeated by pagination. */
  lemma PagesCoverAll(jobs: seq<Job>)
    ensures Pages(jobs, TotalPages(|jobs|)) == jobs
  {
    PagesPrefix(jobs, TotalPages(|jobs|));
    assert jobs[..|jobs|] == jobs;
  }

  /** Twenty-five jobs make three pages, the last holding one job. */
  lemma TwentyFiveJobs(jobs: seq<Job>)
    requires |jobs| == 25
    ensures TotalPages(|jobs|) == 3 && ShowPagination(|jobs|)
    ensures DisplayedJobs(jobs, 3) == [jobs[24]]
  {
  }

  /** Narrowing the filters while on page 3 can leave the page empty: the page is not
      reset when the filtered list shrinks to twelve jobs or fewer. */
  lemma StalePageAfterNarrowing(jobs: seq<Job>)
    requires |jobs| <= JobsPerPage
    ensures DisplayedJobs(jobs, 3) == [] && !ShowPagination(|jobs|)
  {
    PastLastPageEmpty(jobs, 3);
  }
}
