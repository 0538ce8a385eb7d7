/** The course catalogue page (src/pages/TrainingPage/TrainingPage.jsx): the fetched
    courses and a case-insensitive search over title and category. */
module TrainingPage {
  import opened Common
  import opened Text
  import opened Entities

  /** A course is kept when its lower-cased title or category includes the lower-cased
      search term. */
  predicate CourseMatches(term: string, c: Course)
  {
    Contains(Lower(c.title), Lower(term)) || Contains(Lower(c.category), Lower(term))
  }

  /** The search effect's `allCourses.filter(...)`. */
  function SearchCourses(all: seq<Course>, term: string): (r: seq<Course>)
    ensures IsSubsequence(r, all)
    ensures forall i :: 0 <= i < |r| ==> CourseMatches(term, r[i])
    ensures forall i :: 0 <= i < |all| && CourseMatches(term, all[i]) ==> all[i] in r
  {
    FilterIsSubsequence(c => CourseMatches(term, c), all);
    Filter(c => CourseMatches(term, c), all)
  }

  /** The page's state: the fetched list, the shown list and the search field. */
  datatype CatalogueView = CatalogueView(allCourses: seq<Course>, filteredCourses: seq<Course>, searchTerm: string)

  /** The first render: nothing loaded, empty search. */
  const Initial := CatalogueView([], [], "")

  /** The shown list is the search over the fetched list. */
  predicate Consistent(v: CatalogueView)
  {
    v.filteredCourses == SearchCourses(v.allCourses, v.searchTerm)
  }

  /** The mount fetch (`GET /courses`): both lists get the payload, then the search
      effect runs over it with the current term; a failure is only logged. */
  function AfterFetch(v: CatalogueView, response: Result<seq<Course>, ()>): (r: CatalogueView)
    ensures response.Ok? ==> r.allCourses == response.value && Consistent(r)
    ensures response.Err? ==> r == v
    ensures r.searchTerm == v.searchTerm
  {
    if response.Err? then v
    else
      var loaded := v.(allCourses := response.value, filteredCourses := response.value);
      loaded.(filteredCourses := SearchCourses(loaded.allCourses, loaded.searchTerm))
  }

  /** Typing in the search field; the search effect follows. */
  function AfterSearchChange(v: CatalogueView, term: string): (r: CatalogueView)
    ensures r.searchTerm == term && r.allCourses == v.allCourses && Consistent(r)
  {
    v.(searchTerm := term, filteredCourses := SearchCourses(v.allCourses, term))
  }

  /** With an empty search field every fetched course is shown, in order. */
  lemma EmptySearchKeepsAll(all: seq<Course>)
    ensures SearchCourses(all, "") == all
  {
    forall c | c in all
      ensures CourseMatches("", c)
    {
      ContainsEmpty(Lower(c.title));
    }
    FilterKeepsAll(c => CourseMatches("", c), all);
  }

  /** After a fetch with an empty field, the page shows exactly the fetched list. */
  lemma FetchShowsAll(courses: seq<Course>)
    ensures AfterFetch(Initial, Ok(courses)).filteredCourses == courses
  {
    EmptySearchKeepsAll(courses);
  }

  /** Upper and lower case in the search term make no difference. */
  lemma SearchIgnoresCase(all: seq<Course>, term: string)
    ensures SearchCourses(all, Lower(term)) == SearchCourses(all, term)
  {
    LowerIdempotent(term);
    FilterExt(c => CourseMatches(Lower(term), c), c => CourseMatches(term, c), all);
  }

  /** Typing more characters can only narrow the result: a course found for `a + b`
      is found for `a`. */
  lemma LongerTermNarrows(all: seq<Course>, a: string, b: string, c: Course)
    requires c in SearchCourses(all, a + b)
    ensures c in SearchCourses(all, a)
  {
    LowerConcat(a, b);
    if Contains(Lower(c.title), Lower(a + b)) {
      ContainsLonger(Lower(c.title), Lower(a), Lower(b));
    } else {
      ContainsLonger(Lower(c.category), Lower(a), Lower(b));
    }
  }
}
