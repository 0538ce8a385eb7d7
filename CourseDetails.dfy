/** A learner's view of one course (src/pages/CourseDetails/CourseDetails.jsx): the
    course's modules and their lessons, the share of lessons completed, a per-lesson
    completion switch, and enrolment. The lesson dictionary is keyed by `String(id)`
    of the module. */
module CourseDetails {
  import opened Common
  import opened Text
  import opened Entities

  type LessonMap = map<string, seq<Lesson>>

  /** `Math.round(completed / total * 100)`: a whole percentage, or NaN for 0 / 0. */
  datatype Progress = Percent(n: int) | NotANumber

  /** Round-half-up of `100 c / t`, which is `Math.round` of that quotient for
      non-negative values; no lessons at all gives NaN. */
  function RoundedProgress(completed: nat, total: nat): (r: Progress)
    ensures total == 0 <==> r == NotANumber
    ensures total > 0 ==> 2 * total * r.n <= 200 * completed + total < 2 * total * (r.n + 1)
  {
    if total == 0 then NotANumber else Percent((200 * completed + total) / (2 * total))
  }

  /** The number of lessons of `s` that satisfy `p`. */
  function CountIn(s: seq<Lesson>, p: Lesson -> bool): nat
  {
    if s == [] then 0 else (if p(s[0]) then 1 else 0) + CountIn(s[1..], p)
  }

  /** The number of lessons, over all lists of the dictionary, that satisfy `p`:
      `Object.values(m).flat().filter(p).length`. */
  ghost function Count(m: LessonMap, p: Lesson -> bool): nat
    decreases |m.Keys|
  {
    if m == map[] then 0
    else
      var k :| k in m;
      CountIn(m[k], p) + Count(m - {k}, p)
  }

  predicate AnyLesson(l: Lesson) { true }
  predicate IsCompleted(l: Lesson) { l.isCompleted }

  /** The total and completed counts of a dictionary, as the progress effect reads them. */
  ghost function Total(m: LessonMap): nat { Count(m, AnyLesson) }
  ghost function Done(m: LessonMap): nat { Count(m, IsCompleted) }

  /** The list of any key can be counted first. */
  lemma {:induction false} CountRemove(m: LessonMap, k: string, p: Lesson -> bool)
    requires k in m
    ensures Count(m, p) == CountIn(m[k], p) + Count(m - {k}, p)
    decreases |m.Keys|
  {
    var j :| j in m && Count(m, p) == CountIn(m[j], p) + Count(m - {j}, p);
    if j != k {
      assert |(m - {j}).Keys| < |m.Keys| by { assert (m - {j}).Keys < m.Keys; }
      assert |(m - {k}).Keys| < |m.Keys| by { assert (m - {k}).Keys < m.Keys; }
      CountRemove(m - {j}, k, p);
      CountRemove(m - {k}, j, p);
      assert m - {j} - {k} == m - {k} - {j};
    }
  }

  /** One step of the progress effect's walk over the dictionary. */
  lemma CountStep(m: LessonMap, k: string)
    requires k in m
    ensures Total(m) == CountIn(m[k], AnyLesson) + Total(m - {k})
    ensures Done(m) == CountIn(m[k], IsCompleted) + Done(m - {k})
    ensures |(m - {k}).Keys| < |m.Keys|
  {
    CountRemove(m, k, AnyLesson);
    CountRemove(m, k, IsCompleted);
    assert (m - {k}).Keys < m.Keys;
  }

  /** Replacing one list changes the count by the difference of that list's counts. */
  lemma CountReplace(m: LessonMap, k: string, s: seq<Lesson>, p: Lesson -> bool)
    requires k in m
    ensures Count(m[k := s], p) + CountIn(m[k], p) == Count(m, p) + CountIn(s, p)
  {
    CountRemove(m, k, p);
    CountRemove(m[k := s], k, p);
    assert m[k := s] - {k} == m - {k};
  }

  lemma {:induction false} CountInLe(s: seq<Lesson>)
    ensures CountIn(s, IsCompleted) <= CountIn(s, AnyLesson)
  {
    if s != [] {
      CountInLe(s[1..]);
    }
  }

  /** No more lessons are completed than there are lessons. */
  lemma {:induction false} DoneAtMostTotal(m: LessonMap)
    ensures Done(m) <= Total(m)
    decreases |m.Keys|
  {
    if m != map[] {
      var k :| k in m;
      CountRemove(m, k, AnyLesson);
      CountRemove(m, k, IsCompleted);
      assert |(m - {k}).Keys| < |m.Keys| by { assert (m - {k}).Keys < m.Keys; }
      DoneAtMostTotal(m - {k});
      CountInLe(m[k]);
    }
  }

  /** Progress as the page shows it for a dictionary of lessons. */
  ghost function ProgressOf(m: LessonMap): Progress
  {
    RoundedProgress(Done(m), Total(m))
  }

  // ---------------------------------------------------------------- the toggle

  /** `prev[moduleId].map(...)`: the lesson with that id takes the new status. */
  function WithCompletion(s: seq<Lesson>, lessonId: int, status: bool): (r: seq<Lesson>)
    ensures |r| == |s|
    ensures forall i :: 0 <= i < |s| ==>
      r[i] == if s[i].id == lessonId then s[i].(isCompleted := status) else s[i]
  {
    MapWhere((l: Lesson) => l.id == lessonId, (l: Lesson) => l.(isCompleted := status), s)
  }

  lemma {:induction false} CountInAll(s: seq<Lesson>)
    ensures CountIn(s, AnyLesson) == |s|
  {
    if s != [] {
      CountInAll(s[1..]);
    }
  }

  /** With one lesson of that id in the list, the list's completed count moves by the
      change of that lesson's flag and by nothing else. */
  lemma {:induction false} CompletionDelta(s: seq<Lesson>, lessonId: int, status: bool, k: int)
    requires 0 <= k < |s| && s[k].id == lessonId
    requires forall i :: 0 <= i < |s| && i != k ==> s[i].id != lessonId
    ensures CountIn(WithCompletion(s, lessonId, status), IsCompleted) + (if s[k].isCompleted then 1 else 0)
         == CountIn(s, IsCompleted) + (if status then 1 else 0)
  {
    var r := WithCompletion(s, lessonId, status);
    assert r[1..] == WithCompletion(s[1..], lessonId, status);
    if k == 0 {
      assert CountIn(r[1..], IsCompleted) == CountIn(s[1..], IsCompleted) by {
        SameCountWithoutId(s[1..], lessonId, status);
      }
    } else {
      CompletionDelta(s[1..], lessonId, status, k - 1);
    }
  }

  lemma {:induction false} SameCountWithoutId(s: seq<Lesson>, lessonId: int, status: bool)
    requires forall i :: 0 <= i < |s| ==> s[i].id != lessonId
    ensures CountIn(WithCompletion(s, lessonId, status), IsCompleted) == CountIn(s, IsCompleted)
  {
    if s != [] {
      var r := WithCompletion(s, lessonId, status);
      assert r[1..] == WithCompletion(s[1..], lessonId, status);
      SameCountWithoutId(s[1..], lessonId, status);
    }
  }

  /** Toggling one lesson keeps the number of lessons and moves the completed count by
      exactly that lesson's change. */
  lemma ToggleMovesCountByOne(m: LessonMap, key: string, lessonId: int, status: bool, k: int)
    requires key in m && 0 <= k < |m[key]| && m[key][k].id == lessonId
    requires forall i :: 0 <= i < |m[key]| && i != k ==> m[key][i].id != lessonId
    ensures Total(m[key := WithCompletion(m[key], lessonId, status)]) == Total(m)
    ensures Done(m[key := WithCompletion(m[key], lessonId, status)]) + (if m[key][k].isCompleted then 1 else 0)
         == Done(m) + (if status then 1 else 0)
  {
    var s' := WithCompletion(m[key], lessonId, status);
    CountReplace(m, key, s', AnyLesson);
    CountReplace(m, key, s', IsCompleted);
    CountInAll(m[key]);
    CountInAll(s');
    CompletionDelta(m[key], lessonId, status, k);
  }

  // ---------------------------------------------------------------- progress bounds

  /** With some lessons, progress lies between 0 and 100. */
  lemma ProgressBounds(completed: nat, total: nat)
    requires 0 < total && completed <= total
    ensures 0 <= RoundedProgress(completed, total).n <= 100
  {
    MulLe(completed, total, 200);
    DivLt(200 * completed + total, 2 * total, 101);
  }

  /** Every lesson completed shows 100. */
  lemma AllCompleted(total: nat)
    requires total > 0
    ensures RoundedProgress(total, total) == Percent(100)
  {
    DivGe(201 * total, 2 * total, 100);
    DivLt(201 * total, 2 * total, 101);
  }

  /** No lesson completed shows 0. */
  lemma NoneCompleted(total: nat)
    requires total > 0
    ensures RoundedProgress(0, total) == Percent(0)
  {
  }

  /** Rounding can show 100 before the course is finished: 299 of 300 lessons. */
  lemma FullBeforeFinished()
    ensures RoundedProgress(299, 300) == Percent(100)
  {
  }

  /** More completed lessons never show less progress. */
  lemma ProgressMonotone(c1: nat, c2: nat, total: nat)
    requires total > 0 && c1 <= c2
    ensures RoundedProgress(c1, total).n <= RoundedProgress(c2, total).n
  {
    DivMonotone(200 * c1 + total, 200 * c2 + total, 2 * total);
  }

  lemma {:induction false} MulLe(x: nat, y: nat, d: nat)
    requires x <= y
    ensures d * x <= d * y
  {
    if d > 0 {
      MulLe(x, y, d - 1);
      assert d * x == (d - 1) * x + x;
      assert d * y == (d - 1) * y + y;
    }
  }

  lemma DivLt(a: nat, d: nat, k: nat)
    requires d > 0 && a < d * k
    ensures a / d < k
  {
    var q := a / d;
    assert a == d * q + a % d;
    if q >= k {
      MulLe(k, q, d);
    }
  }

  lemma DivGe(a: nat, d: nat, k: nat)
    requires d > 0 && d * k <= a
    ensures k <= a / d
  {
    var q := a / d;
    assert a == d * q + a % d;
    if q < k {
      MulLe(q + 1, k, d);
    }
  }

  lemma DivMonotone(a: nat, b: nat, d: nat)
    requires a <= b && d > 0
    ensures a / d <= b / d
  {
    assert a == d * (a / d) + a % d;
    DivGe(b, d, a / d);
  }

  /** On mount, before anything is loaded, the dictionary is empty and the progress
      effect yields NaN. */
  lemma EmptyProgressIsNaN()
    ensures ProgressOf(map[]) == NotANumber
  {
  }

  // ---------------------------------------------------------------- the page

  /** The lessons a module's request yields: its list, or `[]` when it failed. */
  function LessonsOrEmpty(response: Result<seq<Lesson>, ()>): (r: seq<Lesson>)
    ensures response.Ok? ==> r == response.value
    ensures response.Err? ==> r == []
  {
    if response.Ok? then response.value else []
  }

  /** The Enroll button shows while neither flag is set. */
  predicate EnrollButtonShown(isEnrolled: bool, enrollmentSuccess: bool)
  {
    !isEnrolled && !enrollmentSuccess
  }

  class CourseView {
    const course: Option<Course>
    var modules: seq<CourseModule>
    var lessonsByModule: LessonMap
    var isEnrolled: bool
    var enrollmentSuccess: bool
    var courseProgress: Progress

    constructor (c: Option<Course>)
      ensures course == c && modules == [] && lessonsByModule == map[]
      ensures !isEnrolled && !enrollmentSuccess && courseProgress == Percent(0)
    {
      course := c;
      modules := [];
      lessonsByModule := map[];
      isEnrolled := false;
      enrollmentSuccess := false;
      courseProgress := Percent(0);
    }

    /** Lessons are listed only for an enrolled learner. */
    predicate LessonsShown()
      reads this
    {
      isEnrolled
    }

    /** The progress effect, run whenever the lesson dictionary changes. */
    method RecomputeProgress()
      modifies this
      ensures courseProgress == ProgressOf(lessonsByModule)
      ensures modules == old(modules) && lessonsByModule == old(lessonsByModule)
      ensures isEnrolled == old(isEnrolled) && enrollmentSuccess == old(enrollmentSuccess)
    {
      courseProgress := ProgressOfMap(lessonsByModule);
    }

    /** The mount effect's first half: with a course id, the course's modules are
        fetched and then each module's lessons, a failed module counting as no lessons;
        the lessons are counted as they arrive; the dictionary is stored, the progress
        set from the counts, and the progress effect follows. A failed module request
        changes nothing. */
    method FetchModulesAndLessons(moduleResponse: Result<seq<CourseModule>, ()>,
                                  lessonResponse: int -> Result<seq<Lesson>, ()>)
      modifies this
      ensures course.None? || course.value.id == 0 || moduleResponse.Err? ==>
        modules == old(modules) && lessonsByModule == old(lessonsByModule) && courseProgress == old(courseProgress)
      ensures course.Some? && course.value.id != 0 && moduleResponse.Ok? ==>
        modules == moduleResponse.value
      ensures course.Some? && course.value.id != 0 && moduleResponse.Ok? ==>
        forall i :: 0 <= i < |modules| ==>
          IdKey(modules[i].id) in lessonsByModule
      ensures course.Some? && course.value.id != 0 && moduleResponse.Ok? ==>
        forall k :: k in lessonsByModule ==>
          StoredFrom(modules, lessonResponse, lessonsByModule, k, |modules|)
      ensures course.Some? && course.value.id != 0 && moduleResponse.Ok? ==>
        courseProgress == ProgressOf(lessonsByModule)
      ensures isEnrolled == old(isEnrolled) && enrollmentSuccess == old(enrollmentSuccess)
    {
      if course.None? || course.value.id == 0 || moduleResponse.Err? {
        return;
      }
      var fetched := moduleResponse.value;
      var lessonsMap, totalLessons, completedLessons := LoadLessons(fetched, lessonResponse);
      modules := fetched;
      lessonsByModule := lessonsMap;
      courseProgress := RoundedProgress(completedLessons, totalLessons);
      RecomputeProgress();
    }

    /** The mount effect's second half: `isEnrolled` is set when the record found
        names this user and this course; nothing ever clears it. `found` is the
        `(userId, courseId)` of the returned record, if any. */
    method CheckEnrollment(user: Option<User>, response: Result<Option<(int, int)>, ()>)
      modifies this
      ensures isEnrolled <==>
        (old(isEnrolled) ||
         (user.Some? && user.value.id != 0 && course.Some? && course.value.id != 0 &&
          response.Ok? && response.value == Some((user.value.id, course.value.id))))
      ensures enrollmentSuccess == old(enrollmentSuccess)
      ensures modules == old(modules) && lessonsByModule == old(lessonsByModule) && courseProgress == old(courseProgress)
    {
      if user.None? || user.value.id == 0 || course.None? || course.value.id == 0 {
        return;
      }
      if response.Ok? && response.value.Some? &&
         response.value.value.0 == user.value.id && response.value.value.1 == course.value.id {
        isEnrolled := true;
      }
    }

    /** `handleEnroll`: without a signed-in user nothing is sent; both flags are set
        only when the server answers with status code 201. */
    method Enroll(user: Option<User>, response: Result<int, ()>)
      modifies this
      ensures user.Some? && user.value.id != 0 && response == Ok(201) ==> isEnrolled && enrollmentSuccess
      ensures !(user.Some? && user.value.id != 0 && response == Ok(201)) ==>
        isEnrolled == old(isEnrolled) && enrollmentSuccess == old(enrollmentSuccess)
      ensures modules == old(modules) && lessonsByModule == old(lessonsByModule) && courseProgress == old(courseProgress)
    {
      if user.None? || user.value.id == 0 {
        return;
      }
      if response == Ok(201) {
        isEnrolled := true;
        enrollmentSuccess := true;
      }
    }

    /** `handleLessonCompletionToggle`: the lesson's flag is set before the request and
        kept whatever the server answers; the progress effect follows. The module's list
        must be loaded, as `prev[moduleId].map` reads it. */
    method ToggleLessonCompletion(moduleId: int, lessonId: int, newStatus: bool)
      requires IdKey(moduleId) in lessonsByModule
      modifies this
      ensures lessonsByModule == old(lessonsByModule)[IdKey(moduleId) := WithCompletion(old(lessonsByModule)[IdKey(moduleId)], lessonId, newStatus)]
      ensures courseProgress == ProgressOf(lessonsByModule)
      ensures modules == old(modules) && isEnrolled == old(isEnrolled) && enrollmentSuccess == old(enrollmentSuccess)
    {
      var key := IdKey(moduleId);
      lessonsByModule := lessonsByModule[key := WithCompletion(lessonsByModule[key], lessonId, newStatus)];
      RecomputeProgress();
    }
  }

  /** The progress effect's count: every lesson of every list, and the completed ones. */
  method ProgressOfMap(m: LessonMap) returns (p: Progress)
    ensures p == ProgressOf(m)
  {
    var total, done := 0, 0;
    var rest := m;
    while rest != map[]
      invariant total + Total(rest) == Total(m)
      invariant done + Done(rest) == Done(m)
      decreases |rest.Keys|
    {
      var k :| k in rest;
      var n, c := CountLessons(rest[k]);
      CountStep(rest, k);
      total, done := total + n, done + c;
      rest := rest - {k};
    }
    assert Total(rest) == 0 && Done(rest) == 0;
    p := RoundedProgress(done, total);
  }

  /** The key a module's lessons are stored under. */
  function ModuleKey(m: CourseModule): string
  {
    IdKey(m.id)
  }

  /** `m[k]` holds the lessons of one of the first `n` modules whose key is `k`. */
  ghost predicate StoredFrom(modules: seq<CourseModule>, lessonResponse: int -> Result<seq<Lesson>, ()>,
                             m: LessonMap, k: string, n: nat)
    requires k in m
  {
    exists j :: 0 <= j < n && j < |modules| && ModuleKey(modules[j]) == k &&
      m[k] == LessonsOrEmpty(lessonResponse(modules[j].id))
  }

  /** The initial fetch's walk over the modules: each module's lessons (none when its
      request failed) are stored under `String(module.id)` and counted. */
  method LoadLessons(modules: seq<CourseModule>, lessonResponse: int -> Result<seq<Lesson>, ()>)
    returns (lessonsMap: LessonMap, totalLessons: nat, completedLessons: nat)
    ensures forall i :: 0 <= i < |modules| ==> ModuleKey(modules[i]) in lessonsMap
    ensures forall k :: k in lessonsMap ==> StoredFrom(modules, lessonResponse, lessonsMap, k, |modules|)
    ensures completedLessons <= totalLessons
  {
    lessonsMap := map[];
    totalLessons, completedLessons := 0, 0;
    var i := 0;
    while i < |modules|
      invariant 0 <= i <= |modules|
      invariant forall j :: 0 <= j < i ==> ModuleKey(modules[j]) in lessonsMap
      invariant forall k :: k in lessonsMap ==> StoredFrom(modules, lessonResponse, lessonsMap, k, i)
      invariant completedLessons <= totalLessons
    {
      var key, lessons := ModuleKey(modules[i]), LessonsOrEmpty(lessonResponse(modules[i].id));
      ghost var before := lessonsMap;
      lessonsMap := lessonsMap[key := lessons];
      forall k | k in lessonsMap
        ensures StoredFrom(modules, lessonResponse, lessonsMap, k, i + 1)
      {
        if k == key {
          assert ModuleKey(modules[i]) == k;
        } else {
          assert StoredFrom(modules, lessonResponse, before, k, i);
          var j :| 0 <= j < i && ModuleKey(modules[j]) == k &&
            before[k] == LessonsOrEmpty(lessonResponse(modules[j].id));
          assert lessonsMap[k] == before[k];
        }
      }
      var n, c := CountLessons(lessons);
      totalLessons, completedLessons := totalLessons + n, completedLessons + c;
      i := i + 1;
    }
  }

  /** The counting loop of the initial fetch: every lesson adds one to the total and
      each completed one adds one to the completed count. */
  method CountLessons(lessons: seq<Lesson>) returns (total: nat, completed: nat)
    ensures total == CountIn(lessons, AnyLesson) && completed == CountIn(lessons, IsCompleted)
    ensures completed <= total == |lessons|
  {
    total, completed := 0, 0;
    var i := 0;
    while i < |lessons|
      invariant 0 <= i <= |lessons|
      invariant total + CountIn(lessons[i..], AnyLesson) == CountIn(lessons, AnyLesson)
      invariant completed + CountIn(lessons[i..], IsCompleted) == CountIn(lessons, IsCompleted)
    {
      assert lessons[i..][1..] == lessons[i + 1..];
      total := total + 1;
      if lessons[i].isCompleted {
        completed := completed + 1;
      }
      i := i + 1;
    }
    assert lessons[i..] == [];
    CountInAll(lessons);
    CountInLe(lessons);
  }

  /** Enrolment only ever switches the Enroll button off. */
  method EnrollHidesButton(view: CourseView, user: User)
    requires user.id != 0
    modifies view
    ensures !EnrollButtonShown(view.isEnrolled, view.enrollmentSuccess)
    ensures view.LessonsShown()
  {
    view.Enroll(Some(user), Ok(201));
  }
}
