# Job and training marketplace front end — a verified model of its state logic

The application is a React front end. Job seekers use it to search and apply for
jobs, employers to publish vacancies and review applications, and trainers to build
courses that learners enrol in and work through. This project models the parts of it
that hold logic rather than rendering or transport:

- the Redux `jobs` slice with its reducers and thunks;
- the client-side job filter and pagination;
- the apply flow on the job details page;
- the route guard, the session store and the sign-in page;
- the trainer's course editor;
- the learner's course view with its progress figure;
- the course search;
- the employer's vacancy wizard;
- the applications review page;
- the job seeker's list of applications.

Shared definitions:

- `Common`: `Option`, `Result`, an order-preserving `Filter` with its subsequence
  lemmas, `Find`, and `MapWhere`, the "replace entries where" map.
- `Text`: the JavaScript string operations the pages use. These are ASCII
  `toLowerCase`, `includes`, `trim`, `split` and `join`, `String(id)` as an object key,
  and `Number(s)` restricted to integers. `Number(s)` yields `None` for NaN.
- `Entities`: the records the server returns.

Modelling choices:

- Each HTTP response is a `Result` parameter.
- `jwtDecode` is a function parameter.
- `localStorage` is a `map<string, string>` field.
- The clock is an ISO timestamp parameter.
- Plain objects keyed by ids are maps from `IdKey(id)` (the decimal text of the id),
  because JavaScript stores `obj[id]` under `String(id)`.
- Components whose state the handlers update are classes. Pure derivations are
  functions, and each is proved against a reference definition or a partner lemma.
- Loops in the source, such as the filter stages, the lesson counting and the title
  `reduce`, are methods with loop invariants, proved equal to their specification
  functions.
- The course editor deletes a course as the code is written, which empties the
  lesson dictionary. The evidently intended deletion is a separate definition,
  `CourseManager.AfterDeleteCourseIntended`, compared with it under "## Findings".

## Model

| member | source | states |
|---|---|---|
| Text.ParseIdKey | src/pages/VacancyPage/VacancyPage.jsx:65-66 | `Number(String(id))` gives back `id`, for every integer id |
| Text.IdKeyInjective | src/pages/CourseManager/CourseManager.jsx:173 | different ids give different object keys, so per-id dictionary entries never collide |
| Text.JoinSplit | src/pages/JobDetails/JobDetails.jsx:104 | joining the pieces of `s.split(c)` with `c` gives back `s` |
| Text.SplitJoin | src/pages/VacancyPage/VacancyPage.jsx:85 | splitting a comma-join of comma-free pieces gives back the pieces |
| Text.SplitCount | src/pages/JobDetails/JobDetails.jsx:104 | `split` yields one piece more than there are separators |
| Text.DatePartOf | src/store/jobsSlice.js:147 | `(date + "T" + time).split('T')[0]` is `date` when `date` has no 'T' |
| Text.TrimPadded | src/component/PrivateRoute/PrivateRoute.jsx:37 | `trim` strips white space padding and keeps the text it surrounds |
| Text.ContainsLonger | src/pages/TrainingPage/TrainingPage.jsx:28-29 | a text that includes `a + b` includes `a` |
| JobFilter.SalaryAtLeast | src/store/jobsSlice.js:120 | `Number(job.salary) >= bound` holds only when both sides are numbers: a comparison with NaN is false |
| JobFilter.SalaryAtMost | src/store/jobsSlice.js:124 | `Number(job.salary) <= bound`, false as soon as either side is NaN |
| JobFilter.LocationIs | src/store/jobsSlice.js:112 | the location stage keeps a job whose location equals the filter exactly |
| JobFilter.IndustryIs | src/store/jobsSlice.js:116 | the industry stage keeps a job whose industry equals the filter exactly |
| JobFilter.AboveMin | src/store/jobsSlice.js:108-120 | the minimum stage compares the job's salary with `Number(minSalary)` |
| JobFilter.BelowMax | src/store/jobsSlice.js:109-124 | the maximum stage compares the job's salary with `Number(maxSalary)` |
| JobFilter.TitleHas | src/store/jobsSlice.js:128-129 | the search stage keeps a job whose lower-cased title includes the lower-cased term |
| JobFilter.Matches | src/store/jobsSlice.js:111-131 | a job passes when every stage whose field is non-empty keeps it; an empty field imposes nothing |
| JobFilter.FilterJobs | src/store/jobsSlice.js:104-133 | the reference filtered list: the jobs that pass `Matches`, in input order; the stage loop and both pages' filters are proved equal to it |
| JobFilter.RunFilterStages | src/store/jobsSlice.js:104-133 | the five `.filter` stages, each run only when its field is non-empty, yield exactly the jobs that pass every active test, in input order |
| JobFilter.RunStage | src/pages/JobPage/JobPage.jsx:53-76 | one stage narrows the jobs that survived stages `0..k` to those that survive `0..k+1`; a switched-off stage changes nothing |
| JobFilter.StageStep | src/pages/JobPage/JobPage.jsx:53-76 | filtering the survivors of `k` stages by stage `k`'s callback gives the survivors of `k + 1` stages |
| JobFilter.AllStagesMatch | src/store/jobsSlice.js:111-131 | surviving all five stages is the same as passing the conjunction of active filters |
| JobFilter.NoFiltersKeepAll | src/store/jobsSlice.js:103-133 | with every field empty the whole list is kept |
| JobFilter.FilterJobsIsSubsequence | src/store/jobsSlice.js:104-131 | the filtered list is an order-preserving subsequence of the jobs |
| JobFilter.FilterJobsMembers | src/pages/JobPage/JobPage.jsx:46-76 | soundness and completeness: a job is kept iff it is in the input and passes every active test |
| JobFilter.ZeroMinimumIsActive | src/pages/JobPage/JobPage.jsx:49-50 | a minimum of "0" is an active bound: a kept job has a numeric salary of at least 0 |
| JobFilter.NaNSalaryExcluded | src/pages/JobPage/JobPage.jsx:63-69 | with either salary bound set, a job whose salary is not a number is dropped |
| JobFilter.EmptySalaryFieldsIgnored | src/pages/JobPage/JobPage.jsx:49-50 | with both salary fields empty the salary text plays no part |
| JobFilter.RangeDecides | src/store/jobsSlice.js:119-125 | with the range 60..100, a job with numeric salary `n` is kept iff 60 <= n <= 100 |
| JobFilter.Active | src/store/jobsSlice.js:111-127 | stage `k` runs when its field is non-empty, the minimum and maximum stages included |
| JobFilter.Test | src/store/jobsSlice.js:112-129 | the callback stage `k` passes to `.filter` |
| JobFilter.Upto | src/store/jobsSlice.js:104-131 | a job survives the first `k` stages: each one either is switched off or keeps it |
| JobFilter.UptoAll | src/store/jobsSlice.js:104-131 | surviving all five stages is passing `Matches` |
| JobFilter.Survivors | src/store/jobsSlice.js:104-131 | the jobs that survive the first `k` stages, in order; the invariant of the stage loop |
| JobFilter.SalaryOf | src/store/jobsSlice.js:120-124 | `Number` reads the decimal text of a natural number back as that number |
| JobFilter.RangeVerdict | src/store/jobsSlice.js:119-125 | with the range 60..100, a job whose salary is the text of `n` is kept iff 60 <= n <= 100 |
| JobFilter.BelowRange | src/store/jobsSlice.js:119-121 | a salary of "50" fails the minimum of 60 |
| JobFilter.InRange | src/store/jobsSlice.js:119-125 | a salary of "80" passes both bounds 60 and 100 |
| JobFilter.AboveRange | src/store/jobsSlice.js:123-125 | a salary of "120" fails the maximum of 100 |
| JobFilter.SalaryRangeExample | src/store/jobsSlice.js:119-125 | salaries "50", "80" and "120" with the range 60..100 keep only the job paying 80 |
| JobsSlice.HasApplied | src/store/jobsSlice.js:41-43 | true iff some application has both that job id and that applicant id |
| JobsSlice.LatestJobs | src/store/jobsSlice.js:147-148 | exactly the jobs published on the date part of the timestamp, in order |
| JobsSlice.SuggestionsOf | src/store/jobsSlice.js:162 | an array payload is stored as it is; anything else becomes `[]` |
| JobsSlice.JobsStore.Valid | src/store/jobsSlice.js:143-150 | what every reducer keeps: the count is the length of today's list, and today's jobs and the filtered jobs are drawn, in order, from the job list |
| JobsSlice.JobsStore.constructor | src/store/jobsSlice.js:66-83 | the initial state: empty lists, count 0, empty filters, no error, not applied |
| JobsSlice.JobsStore.ClearApplicationStatus | src/store/jobsSlice.js:85-87 | only `applicationStatus` changes, to null |
| JobsSlice.JobsStore.SetLocationFilter | src/store/jobsSlice.js:88-90 | only `filters.location` changes; `filteredJobs` is not recomputed |
| JobsSlice.JobsStore.SetIndustryFilter | src/store/jobsSlice.js:91-93 | only `filters.industry` changes |
| JobsSlice.JobsStore.SetMinSalaryFilter | src/store/jobsSlice.js:94-96 | only `filters.minSalary` changes |
| JobsSlice.JobsStore.SetMaxSalaryFilter | src/store/jobsSlice.js:97-99 | only `filters.maxSalary` changes |
| JobsSlice.JobsStore.SetSearchTerm | src/store/jobsSlice.js:100-102 | only `filters.searchTerm` changes |
| JobsSlice.JobsStore.ApplyFilters | src/store/jobsSlice.js:103-134 | only `filteredJobs` changes, to the filter over `jobs` with the current filters; the store invariant is kept |
| JobsSlice.JobsStore.Pending | src/store/jobsSlice.js:139-142 | `loading` set and `error` cleared, nothing else |
| JobsSlice.JobsStore.FetchJobsFulfilled | src/store/jobsSlice.js:143-150 | `jobs` and `filteredJobs` become the payload unfiltered, `latestJobs` today's jobs, and the count their number |
| JobsSlice.JobsStore.Rejected | src/store/jobsSlice.js:151-154 | `loading` cleared and `error` set to the payload or the default message; the data fields are untouched |
| JobsSlice.JobsStore.FetchSuggestionsFulfilled | src/store/jobsSlice.js:160-163 | only `loading` and `suggestedJobs` change |
| JobsSlice.JobsStore.CheckApplicationFulfilled | src/store/jobsSlice.js:173-176 | only `loading` and `hasApplied` change |
| JobsSlice.JobsStore.ApplyPending | src/store/jobsSlice.js:182-186 | `loading` set, `error` and `applicationStatus` cleared |
| JobsSlice.JobsStore.ApplyFulfilled | src/store/jobsSlice.js:187-191 | `hasApplied` set and the success message stored |
| JobsSlice.JobsStore.ApplyRejected | src/store/jobsSlice.js:192-195 | the status takes the payload or the default; `hasApplied` and `error` are untouched |
| JobsSlice.JobsStore.FetchJobs | src/store/jobsSlice.js:5-16 | the whole `fetchJobs` lifecycle for a success and for a failure |
| JobsSlice.JobsStore.FetchJobSuggestions | src/store/jobsSlice.js:19-33 | the whole `fetchJobSuggestions` lifecycle |
| JobsSlice.JobsStore.CheckApplication | src/store/jobsSlice.js:35-49 | the whole `checkApplication` lifecycle; on success `hasApplied` is the existential over the list |
| JobsSlice.JobsStore.ApplyForJob | src/store/jobsSlice.js:52-62 | the whole `applyForJob` lifecycle |
| JobsSlice.AppliedAfterAppend | src/store/jobsSlice.js:41-43 | an application with that job and applicant is found, whatever else the list holds |
| JobsSlice.OtherApplicationsIgnored | src/store/jobsSlice.js:41-43 | an application for another job or by another applicant does not change the answer |
| JobsSlice.LatestJobsToday | src/store/jobsSlice.js:147-148 | a job is among today's jobs iff its publish date is the timestamp's date |
| JobPage.Pages | src/pages/JobPage/JobPage.jsx:88-90 | pages 1 to k laid end to end, the reference the page lemmas compare with |
| JobPage.ShowPagination | src/pages/JobPage/JobPage.jsx:193 | the pagination control is rendered when there is more than one page |
| JobPage.JsSlice | src/pages/JobPage/JobPage.jsx:90 | `slice` with clamped bounds: its length and each element |
| JobPage.TotalPages | src/pages/JobPage/JobPage.jsx:88 | `ceil(n / 12)`: the least page count covering `n` jobs |
| JobPage.DisplayedJobs | src/pages/JobPage/JobPage.jsx:89-90 | a page holds at most twelve jobs |
| JobPage.JobPageState.Valid | src/pages/JobPage/JobPage.jsx:45-76 | the shown list is always the filter effect's result, and the page counts from 1 |
| JobPage.JobPageState.constructor | src/pages/JobPage/JobPage.jsx:12-19 | page 1, nothing loaded, every filter empty |
| JobPage.JobPageState.FilterEffect | src/pages/JobPage/JobPage.jsx:45-86 | the visible list becomes the filter over `allJobs` |
| JobPage.JobPageState.FetchJobs | src/pages/JobPage/JobPage.jsx:27-43 | on success both lists hold the payload, then the filter effect runs; a failure changes nothing |
| JobPage.JobPageState.SetFilters | src/pages/JobPage/JobPage.jsx:21-25 | a filter change refilters and does not reset the page |
| JobPage.JobPageState.SetLocationFilter | src/pages/JobPage/JobPage.jsx:21 | only the location field changes, and the visible list follows |
| JobPage.JobPageState.SetIndustryFilter | src/pages/JobPage/JobPage.jsx:22 | only the industry field changes |
| JobPage.JobPageState.SetMinSalaryFilter | src/pages/JobPage/JobPage.jsx:23 | only the minimum salary field changes |
| JobPage.JobPageState.SetMaxSalaryFilter | src/pages/JobPage/JobPage.jsx:24 | only the maximum salary field changes |
| JobPage.JobPageState.SetSearchTerm | src/pages/JobPage/JobPage.jsx:25 | only the search field changes |
| JobPage.JobPageState.SetCurrentPage | src/pages/JobPage/JobPage.jsx:197 | only the page changes |
| JobPage.PageOfIndex | src/pages/JobPage/JobPage.jsx:88-90 | job `i` appears on page `i / 12 + 1` at position `i % 12`, and that page exists |
| JobPage.PastLastPageEmpty | src/pages/JobPage/JobPage.jsx:89-90 | a page past the last shows nothing |
| JobPage.PagesUpToLastNonEmpty | src/pages/JobPage/JobPage.jsx:88-90 | every page from 1 to the last shows at least one job |
| JobPage.PaginationShownIff | src/pages/JobPage/JobPage.jsx:193 | the control shows iff there are more than twelve jobs |
| JobPage.PagesPrefix | src/pages/JobPage/JobPage.jsx:89-90 | the first `k` pages in order are the first `12 k` jobs |
| JobPage.PagesCoverAll | src/pages/JobPage/JobPage.jsx:88-90 | all pages in order are the whole list: nothing lost or repeated |
| JobPage.TwentyFiveJobs | src/pages/JobPage/JobPage.jsx:88-90 | 25 jobs make three pages, the last holding job 25 alone |
| JobPage.StalePageAfterNarrowing | src/pages/JobPage/JobPage.jsx:12 | on page 3 after narrowing to at most twelve jobs the page is empty and the control is hidden |
| JobDetails.SnackbarOpen | src/pages/JobDetails/JobDetails.jsx:151-152 | the snackbar is open exactly when the application status is truthy |
| JobDetails.CheckRequest | src/pages/JobDetails/JobDetails.jsx:32-33 | a check is sent iff both user and job are present, with the job's and user's ids |
| JobDetails.BuildApplication | src/pages/JobDetails/JobDetails.jsx:41-48 | the record's fields: id 0, the job and applicant ids, the résumé, "Pending", and a date that is a 'T'-free prefix of the timestamp |
| JobDetails.DatePartIsPrefix | src/pages/JobDetails/JobDetails.jsx:47 | the date part has no 'T' and is a prefix of the timestamp |
| JobDetails.ApplyAreaOf | src/pages/JobDetails/JobDetails.jsx:122-139 | the Apply button shows iff not loading, no error and not applied; loading, then error, then applied take precedence in that order |
| JobDetails.SkillChips | src/pages/JobDetails/JobDetails.jsx:104 | no chips for a missing field; otherwise one more chip than commas, none containing a comma |
| JobDetails.SkillChipsRoundTrip | src/pages/JobDetails/JobDetails.jsx:104 | the chips joined with commas are the stored field: nothing trimmed or dropped |
| JobDetails.SkillChipsOfList | src/pages/JobDetails/JobDetails.jsx:104 | a comma-join of comma-free names comes back as those names |
| JobDetails.CheckOnMount | src/pages/JobDetails/JobDetails.jsx:31-34 | without user or job the store is untouched; otherwise the check's lifecycle runs |
| JobDetails.CleanupOnLeave | src/pages/JobDetails/JobDetails.jsx:35-37 | only the status is cleared, which closes the snackbar |
| JobDetails.CloseSnackbar | src/pages/JobDetails/JobDetails.jsx:151-155 | closing clears the status and the snackbar is closed |
| JobDetails.HandleApplyJob | src/pages/JobDetails/JobDetails.jsx:40-50 | nothing is dispatched without a user; otherwise the record sent, and the whole store state after `applyForJob`: on success `hasApplied` set and the success status, on failure the payload or the default status with `hasApplied` kept, and in both cases every list, filter and count untouched; the page then shows "already applied" or the snackbar |
| JobDetails.ButtonHiddenWhilePending | src/pages/JobDetails/JobDetails.jsx:122-123 | while the submission is pending the apply area shows "Loading..." |
| JobDetails.SubmittedRecordIsFound | src/pages/JobDetails/JobDetails.jsx:41-49 | once the submitted record is in the list, the check finds the user has applied |
| JobDetails.AppliedDateIsToday | src/pages/JobDetails/JobDetails.jsx:47 | with timestamp `date + "T" + time` the applied date is `date` |
| AuthContext.IdTruthy | src/context/AuthContext.jsx:54-56 | `!id` is false exactly for a present, non-zero id |
| AuthContext.StoredRole | src/context/AuthContext.jsx:62 | a missing role is stored as the text "undefined" |
| AuthContext.FirstResume | src/context/AuthContext.jsx:31-40 | the first entry's link; null for an empty list or a failed request |
| AuthContext.ResumeAfterFetch | src/context/AuthContext.jsx:19-22 | only a fetched JOB_SEEKER profile touches the résumé |
| AuthContext.AuthSession.constructor | src/context/AuthContext.jsx:10-12 | no user, résumé or role; storage as the browser holds it |
| AuthContext.AuthSession.FetchResume | src/context/AuthContext.jsx:31-40 | only the résumé changes |
| AuthContext.AuthSession.FetchUser | src/context/AuthContext.jsx:15-29 | success stores the profile, failure clears the user without passing the error on; role and storage untouched |
| AuthContext.AuthSession.Login | src/context/AuthContext.jsx:43-74 | a failure before the id check changes nothing and yields `false`; past it, token then role are stored, the role is set, the user fetched, and the role returned even when the profile fetch fails |
| AuthContext.AuthSession.Logout | src/context/AuthContext.jsx:78-82 | both storage keys removed and the user cleared; résumé and role stay |
| AuthContext.AuthSession.Init | src/context/AuthContext.jsx:85-91 | nothing without a truthy token; an undecodable token throws with nothing changed; otherwise the user is fetched |
| AuthContext.LoginWithoutRole | src/context/AuthContext.jsx:54-62 | a token with an id but no role logs in and stores "undefined" as the role |
| AuthContext.LoginWithZeroId | src/context/AuthContext.jsx:54-56 | a token whose id is 0 is refused before anything is stored |
| PrivateRoute.KnownRole | src/component/PrivateRoute/PrivateRoute.jsx:9-16 | the four roles the default-route chain names |
| PrivateRoute.AccessGranted | src/component/PrivateRoute/PrivateRoute.jsx:37 | granted iff a role is stored and its trimmed text is one of the allowed roles |
| PrivateRoute.DefaultRouteFor | src/component/PrivateRoute/PrivateRoute.jsx:8-18 | the four roles map to their pages; any other role keeps the previous route |
| PrivateRoute.Guard.constructor | src/component/PrivateRoute/PrivateRoute.jsx:5-6 | the role is read from storage and the default starts at "/home" before the role effect |
| PrivateRoute.Guard.RoleEffect | src/component/PrivateRoute/PrivateRoute.jsx:8-18 | the default route follows the role chain; the role is unchanged |
| PrivateRoute.Guard.OnStorageEvent | src/component/PrivateRoute/PrivateRoute.jsx:20-30 | the role is re-read from storage and the default follows |
| PrivateRoute.Guard.Render | src/component/PrivateRoute/PrivateRoute.jsx:37 | the page when access is granted, otherwise a redirect to the default route |
| PrivateRoute.TrimOfRole | src/component/PrivateRoute/PrivateRoute.jsx:37 | `trim` leaves a role without surrounding white space as it is |
| PrivateRoute.NoRoleDenied | src/component/PrivateRoute/PrivateRoute.jsx:5-6 | without a stored role nothing is granted and the redirect is "/home" |
| PrivateRoute.AllowedRolesVerbatim | src/component/PrivateRoute/PrivateRoute.jsx:37 | allowed roles are not trimmed: a padded entry never matches |
| PrivateRoute.PaddedEmployer | src/component/PrivateRoute/PrivateRoute.jsx:9-17 | " EMPLOYER " opens employer routes, but its redirect stays "/home" |
| PrivateRoute.JobSeekerRoutes | src/App.jsx:44-73 | a job seeker reaches the shared and job-seeker groups and not the employer or trainer ones |
| PrivateRoute.AdminRefusedEverywhere | src/App.jsx:44-73 | an administrator is refused by every group and redirected to "/admindash" |
| PrivateRoute.GuardAfterLogin | src/context/AuthContext.jsx:62 | after an employer's login the guard reading the same storage grants employer routes |
| LoginPage.LoginPath | src/pages/LoginPage/LoginPage.jsx:31-47 | the start page of each role, and "/home" for any other |
| LoginPage.LoginForm.constructor | src/pages/LoginPage/LoginPage.jsx:10-12 | empty fields, no redirect |
| LoginPage.LoginForm.HandleLogin | src/pages/LoginPage/LoginPage.jsx:14-54 | an empty field stops it before `login`; a falsy role stops it with `redirect` unchanged; otherwise `redirect` is set, the page reloads and the role's start page is chosen |
| LoginPage.RoleMissingRefused | src/pages/LoginPage/LoginPage.jsx:20-25 | a token without a role signs the session in, yet the page refuses and the role entry reads "undefined" |
| CourseManager.ListedIn | src/pages/CourseManager/CourseManager.jsx:327-336 | the test the clean-up evidently means: some remaining course lists a module whose key is `k` |
| CourseManager.StrictEqualsNumberString | src/pages/CourseManager/CourseManager.jsx:331 | `m.id === moduleId` between a number and a string is false whatever the digits |
| CourseManager.ListedStrictly | src/pages/CourseManager/CourseManager.jsx:330-332 | the clean-up's test as written: some render-time module's id is `===` to the key |
| CourseManager.AppendAt | src/pages/CourseManager/CourseManager.jsx:185-188 | the list under the key gains the element at its end, created if missing; other keys untouched |
| CourseManager.AppendAtKeepsOrder | src/pages/CourseManager/CourseManager.jsx:187 | the old list is a prefix of the new one and the new element is last |
| CourseManager.Toggled | src/pages/CourseManager/CourseManager.jsx:505-517 | one key's flag negated, a missing flag becoming true; other keys untouched |
| CourseManager.ToggleTwice | src/pages/CourseManager/CourseManager.jsx:505-517 | toggling twice restores a set flag and leaves a missing one false |
| CourseManager.AfterCreateCourse | src/pages/CourseManager/CourseManager.jsx:172-173 | course appended; empty module list under its id |
| CourseManager.AfterCreateModule | src/pages/CourseManager/CourseManager.jsx:184-189 | module appended to its course's list; empty lesson list under its id |
| CourseManager.AfterCreateLesson | src/pages/CourseManager/CourseManager.jsx:198-228 | lesson appended to its module's list |
| CourseManager.AfterUpdateCourse | src/pages/CourseManager/CourseManager.jsx:236-240 | the entries with the edited id are replaced; length and order kept |
| CourseManager.UpdateUnknownCourse | src/pages/CourseManager/CourseManager.jsx:236-240 | an id not in the list changes nothing |
| CourseManager.UpdateCourseChangesOne | src/pages/CourseManager/CourseManager.jsx:236-240 | with unique ids exactly one entry changes |
| CourseManager.AfterUpdateModule | src/pages/CourseManager/CourseManager.jsx:255-260 | within the course the server names, the module with that id is replaced; other courses untouched |
| CourseManager.MovedLessons | src/pages/CourseManager/CourseManager.jsx:293-306 | the updated lesson ends last in its new module; when the module changed, the new module's list is its old list followed by the lesson; only the old and new keys change |
| CourseManager.MovedLessonsProperties | src/pages/CourseManager/CourseManager.jsx:293-306 | when the module changed: the old module keeps every other lesson, in order, no longer holds the id, and its key goes iff nothing else was left; the new module's earlier lessons stay in front; within one module the lesson appears once, last |
| CourseManager.SameModuleMovesToEnd | src/pages/CourseManager/CourseManager.jsx:293-306 | within one module the lesson moves to the end |
| CourseManager.AfterUpdateLesson | src/pages/CourseManager/CourseManager.jsx:269-316 | only the lesson dictionary changes, by the move |
| CourseManager.LessonsAfterCourseDelete | src/pages/CourseManager/CourseManager.jsx:325-336 | the intended clean-up: lesson lists survive only for modules another course still lists, unchanged |
| CourseManager.CourseDeleteKeepsOtherCourses | src/pages/CourseManager/CourseManager.jsx:325-336 | the lessons of every other course's modules are kept |
| CourseManager.CourseDeleteDropsItsModules | src/pages/CourseManager/CourseManager.jsx:325-336 | the lessons of the deleted course's own modules are dropped |
| CourseManager.AfterDeleteCourseIntended | src/pages/CourseManager/CourseManager.jsx:318-337 | the evidently intended deletion: the same course and module changes as the page, with the intended lesson clean-up |
| CourseManager.AfterDeleteCourse | src/pages/CourseManager/CourseManager.jsx:318-337 | as written: course filtered out, its module key removed, and the lesson dictionary emptied, because the clean-up compares string keys with numeric ids |
| CourseManager.AfterDeleteModule | src/pages/CourseManager/CourseManager.jsx:348-356 | only modules with that id leave their course's list, whose other modules all stay, in order; its lesson key is removed and nothing else changes |
| CourseManager.AfterDeleteLesson | src/pages/CourseManager/CourseManager.jsx:367-370 | only lessons with that id leave that module; everything else stays |
| CourseManager.AfterTogglePublish | src/pages/CourseManager/CourseManager.jsx:387-391 | only `published` of the matching course changes, to the server's value |
| CourseManager.Perform | src/pages/CourseManager/CourseManager.jsx:415-420 | no waiting action or a failed request leaves the catalogue as it was |
| CourseManager.Editor.DialogCleared | src/pages/CourseManager/CourseManager.jsx:408-413 | the dialog is closed with no action, message or course waiting |
| CourseManager.Editor.constructor | src/pages/CourseManager/CourseManager.jsx:45-56 | empty catalogue and flags; the dialog is closed |
| CourseManager.Editor.CreateCourse | src/pages/CourseManager/CourseManager.jsx:160-180 | nothing without a truthy user id or on failure; otherwise the create-course update; the expanded flags, chosen lesson, upload flag and dialog stay as they were |
| CourseManager.Editor.CreateModule | src/pages/CourseManager/CourseManager.jsx:182-196 | the create-module update on success only; every field beside the catalogue stays as it was |
| CourseManager.Editor.CreateLesson | src/pages/CourseManager/CourseManager.jsx:198-228 | the create-lesson update on success only; uploading ends lowered and every other field beside the catalogue stays |
| CourseManager.Editor.UpdateCourse | src/pages/CourseManager/CourseManager.jsx:230-247 | the update-course change on success only; every field beside the catalogue stays as it was |
| CourseManager.Editor.UpdateModule | src/pages/CourseManager/CourseManager.jsx:249-267 | the update-module change on success only; every field beside the catalogue stays as it was |
| CourseManager.Editor.UpdateLesson | src/pages/CourseManager/CourseManager.jsx:269-316 | the move on success with a lesson chosen, which is then cleared; otherwise nothing changes; uploading ends lowered and the expanded flags and dialog stay |
| CourseManager.Editor.DeleteCourse | src/pages/CourseManager/CourseManager.jsx:318-343 | the as-written delete-course change on success only, its clean-up loop run against the render-time modules; every field beside the catalogue stays |
| CourseManager.Editor.DeleteModule | src/pages/CourseManager/CourseManager.jsx:345-362 | the delete-module change on success only; every field beside the catalogue stays as it was |
| CourseManager.Editor.DeleteLesson | src/pages/CourseManager/CourseManager.jsx:364-376 | the delete-lesson change on success only; every field beside the catalogue stays as it was |
| CourseManager.Editor.TogglePublish | src/pages/CourseManager/CourseManager.jsx:378-397 | the publish flag from the server's copy, on success only; every field beside the catalogue stays as it was |
| CourseManager.Editor.OpenConfirmDialog | src/pages/CourseManager/CourseManager.jsx:399-406 | the dialog opens holding the action and message, a given course is remembered, and the catalogue, expanded flags, chosen lesson and upload flag stay |
| CourseManager.Editor.CloseConfirmDialog | src/pages/CourseManager/CourseManager.jsx:408-413 | all dialog state cleared; the catalogue, expanded flags, chosen lesson and upload flag stay |
| CourseManager.Editor.ConfirmAction | src/pages/CourseManager/CourseManager.jsx:415-420 | the waiting action runs once with its outcome (a course deletion as written), then the dialog is cleared; the expanded flags, chosen lesson and upload flag stay |
| CourseManager.Editor.ToggleCourse | src/pages/CourseManager/CourseManager.jsx:505-510 | only that course's expanded flag flips; the catalogue and every other field stay |
| CourseManager.Editor.ToggleModule | src/pages/CourseManager/CourseManager.jsx:512-517 | only that module's expanded flag flips; the catalogue and every other field stay |
| CourseManager.ConfirmTwice | src/pages/CourseManager/CourseManager.jsx:415-420 | confirming twice runs the action once |
| CourseManager.LessonsKeptAsWritten | src/pages/CourseManager/CourseManager.jsx:327-336 | keeping only keys `===` to some module id keeps no lesson list at all |
| CourseManager.LessonCleanupAsWritten | src/pages/CourseManager/CourseManager.jsx:327-336 | the `forEach` deletion loop computes exactly the lists the as-written test keeps, which is none |
| CourseManager.CourseDeleteCounterexample | src/pages/CourseManager/CourseManager.jsx:327-336 | with two courses, the page as written keeps course 2's module listed but loses its lessons; the intended deletion keeps them and drops only course 1's |
| CourseDetails.CountIn | src/pages/CourseDetails/CourseDetails.jsx:86-89 | the number of lessons of one list that pass a test |
| CourseDetails.Count | src/pages/CourseDetails/CourseDetails.jsx:86-89 | the number of lessons that pass a test over every list of the dictionary, as `Object.values(...).flat().filter(...)` counts them |
| CourseDetails.Total | src/pages/CourseDetails/CourseDetails.jsx:86 | all lessons of the dictionary |
| CourseDetails.Done | src/pages/CourseDetails/CourseDetails.jsx:87-89 | the completed lessons of the dictionary |
| CourseDetails.ProgressOf | src/pages/CourseDetails/CourseDetails.jsx:84-93 | the progress figure of a whole lesson dictionary, `Math.round(done / total * 100)` |
| CourseDetails.EnrollButtonShown | src/pages/CourseDetails/CourseDetails.jsx:205 | the Enroll button shows when the learner is neither enrolled nor just enrolled |
| CourseDetails.CourseView.LessonsShown | src/pages/CourseDetails/CourseDetails.jsx:257 | a module's lessons are listed only to an enrolled learner |
| CourseDetails.ModuleKey | src/pages/CourseDetails/CourseDetails.jsx:42 | `lessonsMap[module.id]` stores under the text of the module id |
| CourseDetails.StoredFrom | src/pages/CourseDetails/CourseDetails.jsx:37-52 | an entry holds the lessons, or `[]` after a failure, of one of the modules walked so far with that key |
| CourseDetails.RoundedProgress | src/pages/CourseDetails/CourseDetails.jsx:91-92 | NaN iff there are no lessons; otherwise `100 c / t` rounded half up |
| CourseDetails.CountRemove | src/pages/CourseDetails/CourseDetails.jsx:86-89 | counting over all lists can take any key first |
| CourseDetails.DoneAtMostTotal | src/pages/CourseDetails/CourseDetails.jsx:86-89 | completed lessons never exceed lessons |
| CourseDetails.ToggleMovesCountByOne | src/pages/CourseDetails/CourseDetails.jsx:128-137 | a toggle keeps the lesson count and moves the completed count by that lesson's change |
| CourseDetails.WithCompletion | src/pages/CourseDetails/CourseDetails.jsx:129-131 | only the lessons with that id take the new flag; length and order kept |
| CourseDetails.ProgressBounds | src/pages/CourseDetails/CourseDetails.jsx:86-92 | with lessons, progress lies in 0..100 |
| CourseDetails.AllCompleted | src/pages/CourseDetails/CourseDetails.jsx:86-92 | all lessons completed shows 100 |
| CourseDetails.NoneCompleted | src/pages/CourseDetails/CourseDetails.jsx:86-92 | no lesson completed shows 0 |
| CourseDetails.FullBeforeFinished | src/pages/CourseDetails/CourseDetails.jsx:91-92 | 299 of 300 lessons already shows 100 |
| CourseDetails.ProgressMonotone | src/pages/CourseDetails/CourseDetails.jsx:86-92 | more completed lessons never show less progress |
| CourseDetails.EmptyProgressIsNaN | src/pages/CourseDetails/CourseDetails.jsx:84-93 | before anything loads the progress effect yields NaN |
| CourseDetails.LessonsOrEmpty | src/pages/CourseDetails/CourseDetails.jsx:49-52 | a failed module's lessons are `[]` |
| CourseDetails.CourseView.constructor | src/pages/CourseDetails/CourseDetails.jsx:18-21 | progress starts at 0 with nothing loaded and no flags |
| CourseDetails.CourseView.RecomputeProgress | src/pages/CourseDetails/CourseDetails.jsx:84-93 | the progress of the current dictionary |
| CourseDetails.CourseView.FetchModulesAndLessons | src/pages/CourseDetails/CourseDetails.jsx:24-65 | nothing without a course id or on a failed module request; otherwise the modules, a list under every module's key taken from that module's response, and the progress of the stored dictionary |
| CourseDetails.CourseView.CheckEnrollment | src/pages/CourseDetails/CourseDetails.jsx:67-78 | enrolled iff already enrolled or the record names this user and course; never cleared |
| CourseDetails.CourseView.Enroll | src/pages/CourseDetails/CourseDetails.jsx:102-124 | both flags set only with a user id and status 201 |
| CourseDetails.CourseView.ToggleLessonCompletion | src/pages/CourseDetails/CourseDetails.jsx:126-146 | the lesson's flag is set, kept whatever the server answers, and the progress follows |
| CourseDetails.ProgressOfMap | src/pages/CourseDetails/CourseDetails.jsx:86-92 | the loop over the dictionary yields the progress of the whole dictionary |
| CourseDetails.LoadLessons | src/pages/CourseDetails/CourseDetails.jsx:38-54 | every module has a key, each stored list is one module's response or `[]`, completed at most total |
| CourseDetails.CountLessons | src/pages/CourseDetails/CourseDetails.jsx:45-48 | the counting loop yields the number of lessons and of completed ones |
| CourseDetails.EnrollHidesButton | src/pages/CourseDetails/CourseDetails.jsx:205 | after a successful enrolment the button is gone and the lessons are listed |
| TrainingPage.CourseMatches | src/pages/TrainingPage/TrainingPage.jsx:27-29 | a course matches when its lower-cased title or category includes the lower-cased term |
| TrainingPage.SearchCourses | src/pages/TrainingPage/TrainingPage.jsx:26-32 | an order-preserving subsequence holding exactly the courses whose title or category matches |
| TrainingPage.Consistent | src/pages/TrainingPage/TrainingPage.jsx:26-35 | the shown list is the search of the fetched list by the current term |
| TrainingPage.AfterFetch | src/pages/TrainingPage/TrainingPage.jsx:12-24 | success stores the courses and the shown list agrees with the search; failure changes nothing |
| TrainingPage.AfterSearchChange | src/pages/TrainingPage/TrainingPage.jsx:26-35 | a new term, and the shown list agrees with it |
| TrainingPage.EmptySearchKeepsAll | src/pages/TrainingPage/TrainingPage.jsx:27-30 | an empty term keeps every course |
| TrainingPage.FetchShowsAll | src/pages/TrainingPage/TrainingPage.jsx:16-17 | after the fetch with an empty term the page shows the fetched list |
| TrainingPage.SearchIgnoresCase | src/pages/TrainingPage/TrainingPage.jsx:28-29 | the case of the term makes no difference |
| TrainingPage.LongerTermNarrows | src/pages/TrainingPage/TrainingPage.jsx:27-30 | a course found for a longer term is found for its prefix |
| VacancyPage.StepAfter | src/pages/VacancyPage/VacancyPage.jsx:138-139 | Next adds one to the step and Back takes one away, with no bound check |
| VacancyPage.ClickAvailable | src/pages/VacancyPage/VacancyPage.jsx:425-441 | Back is disabled on the first step, and Next is replaced by Submit on the last |
| VacancyPage.IdsParam | src/pages/VacancyPage/VacancyPage.jsx:85 | the `ids` parameter is the company ids joined with commas |
| VacancyPage.Editing | src/pages/VacancyPage/VacancyPage.jsx:102 | `if (editingJobId)`: a present, non-zero id |
| VacancyPage.VacancyEditor.SubmitShown | src/pages/VacancyPage/VacancyPage.jsx:431 | the last step shows Submit instead of Next |
| VacancyPage.EmptyForm | src/pages/VacancyPage/VacancyPage.jsx:35-46 | exactly the form's fields, text fields empty, active set, dated today without time |
| VacancyPage.FormOf | src/pages/VacancyPage/VacancyPage.jsx:155-158 | every field of the job, each with its type, and the publish date cut at 'T' |
| VacancyPage.EditFormKeepsDate | src/pages/VacancyPage/VacancyPage.jsx:157 | the date part of the publish timestamp survives |
| VacancyPage.StepStaysInRange | src/pages/VacancyPage/VacancyPage.jsx:138-139 | clicking only offered buttons keeps the step in 0..2 |
| VacancyPage.TwoNextsReachPublish | src/pages/VacancyPage/VacancyPage.jsx:431-441 | two Next clicks reach the step where Submit replaces Next |
| VacancyPage.CompanyOptions | src/pages/VacancyPage/VacancyPage.jsx:58-62 | `{id, name}` of each company in order; none for missing data |
| VacancyPage.IdTexts | src/pages/VacancyPage/VacancyPage.jsx:65 | one `String(id)` per company in order |
| VacancyPage.IdsRoundTrip | src/pages/VacancyPage/VacancyPage.jsx:85 | the comma-joined parameter splits back into every company's id, in order |
| VacancyPage.NoCompaniesEmptyParam | src/pages/VacancyPage/VacancyPage.jsx:85 | an employer without companies sends an empty `ids` parameter |
| VacancyPage.RequestFor | src/pages/VacancyPage/VacancyPage.jsx:102-111 | PUT iff a truthy job id is being edited, with the form as it is |
| VacancyPage.ZeroIdCreates | src/pages/VacancyPage/VacancyPage.jsx:102 | editing a job whose id is 0 sends a create request |
| VacancyPage.VacancyEditor.constructor | src/pages/VacancyPage/VacancyPage.jsx:32-50 | step 0, the empty form, nothing edited or open |
| VacancyPage.VacancyEditor.Next | src/pages/VacancyPage/VacancyPage.jsx:138 | only the step changes, by one up |
| VacancyPage.VacancyEditor.Back | src/pages/VacancyPage/VacancyPage.jsx:139 | only the step changes, by one down |
| VacancyPage.VacancyEditor.Change | src/pages/VacancyPage/VacancyPage.jsx:134-136 | only the named field changes, to the control's value: text from a text field, a number from the company select |
| VacancyPage.VacancyEditor.OpenModal | src/pages/VacancyPage/VacancyPage.jsx:152-176 | with a job, edit its copy from step 0; without, an empty form with the step kept |
| VacancyPage.VacancyEditor.CloseModal | src/pages/VacancyPage/VacancyPage.jsx:178 | only the modal closes |
| VacancyPage.VacancyEditor.Submit | src/pages/VacancyPage/VacancyPage.jsx:100-132 | the request sent; on success the form is emptied, step 0, the modal closed and a refetch started; on failure nothing changes |
| VacancyPage.VacancyEditor.Delete | src/pages/VacancyPage/VacancyPage.jsx:141-150 | a refetch starts iff the deletion succeeded |
| VacancyPage.VacancyEditor.ViewJob | src/pages/VacancyPage/VacancyPage.jsx:72-78 | the dialog opens on the first job with that id, only if there is one |
| VacancyPage.VacancyEditor.CloseDataModal | src/pages/VacancyPage/VacancyPage.jsx:261 | only the job dialog closes |
| VacancyPage.VacancyEditor.FetchCompanies | src/pages/VacancyPage/VacancyPage.jsx:52-92 | the companies projected and stored, their ids sent comma-joined, and the shared jobs replaced on success |
| VacancyPage.VacancyEditor.Mount | src/pages/VacancyPage/VacancyPage.jsx:94-98 | nothing changes without a signed-in user with a truthy id; otherwise the outcome of `fetchCompanies`: a failed request changes nothing, a successful one stores the projected companies, sends their ids and takes the jobs on success |
| VacancyPage.CompanyPickMatchesEditForm | src/pages/VacancyPage/VacancyPage.jsx:345-356 | picking a company in a new form stores its numeric id, the same value the edit form copies from a job of that company |
| VacancyPage.CreateAfterLeavingOnPublish | src/pages/VacancyPage/VacancyPage.jsx:152-178 | leaving on the last step and opening an empty form keeps Submit showing |
| ApplicationsPage.JobSelected | src/pages/ApplicaionsPage/ApplicationsPage.jsx:30 | `if (!jobId) return`: an empty selection or an id of 0 is no selection |
| ApplicationsPage.ApplicationsView.TableShown | src/pages/ApplicaionsPage/ApplicationsPage.jsx:94 | the applications table renders once a job is selected |
| ApplicationsPage.StatusText | src/pages/ApplicaionsPage/ApplicationsPage.jsx:120-127 | Approve sends "Approved", Reject sends "Rejected" |
| ApplicationsPage.JobOptions | src/pages/ApplicaionsPage/ApplicationsPage.jsx:19-22 | `{id, title}` of each job in order |
| ApplicationsPage.WithStatus | src/pages/ApplicaionsPage/ApplicationsPage.jsx:55-61 | only the matching applications take the status; length and order kept |
| ApplicationsPage.LastDecisionWins | src/pages/ApplicaionsPage/ApplicationsPage.jsx:55-61 | a second decision replaces the first |
| ApplicationsPage.DecisionStatuses | src/pages/ApplicaionsPage/ApplicationsPage.jsx:120-127 | every status shown is one that was there or a button's text |
| ApplicationsPage.ApplicationsView.constructor | src/pages/ApplicaionsPage/ApplicationsPage.jsx:10-14 | nothing selected, no applications, not loading |
| ApplicationsPage.ApplicationsView.JobsChanged | src/pages/ApplicaionsPage/ApplicationsPage.jsx:17-25 | rebuilt from a non-empty list only; an emptied list keeps the old options |
| ApplicationsPage.ApplicationsView.FetchApplications | src/pages/ApplicaionsPage/ApplicationsPage.jsx:28-43 | requested iff a truthy job id is selected; success replaces the list; loading ends |
| ApplicationsPage.ApplicationsView.SelectJob | src/pages/ApplicaionsPage/ApplicationsPage.jsx:83 | the selection changes and its fetch follows |
| ApplicationsPage.ApplicationsView.StatusChange | src/pages/ApplicaionsPage/ApplicationsPage.jsx:46-68 | the status written only on status code 200; loading ends either way |
| AppliedJobsPage.ResultKey | src/pages/AppliedJobsPage/AppliedJobsPage.jsx:53 | `acc[job.jobId]` writes under the text of the job id |
| AppliedJobsPage.TitleMapOf | src/pages/AppliedJobsPage/AppliedJobsPage.jsx:52-55 | the reference title map: the results written in order, a later title for the same job overwriting an earlier one |
| AppliedJobsPage.LastFor | src/pages/AppliedJobsPage/AppliedJobsPage.jsx:52-55 | result `i` is the last one for the job stored under `k` |
| AppliedJobsPage.AllTitles | src/pages/AppliedJobsPage/AppliedJobsPage.jsx:46-51 | every title in order, or none iff some request fails |
| AppliedJobsPage.TitleMapKeys | src/pages/AppliedJobsPage/AppliedJobsPage.jsx:52-55 | a job is in the title map iff some result is for it |
| AppliedJobsPage.TitleMapLastWins | src/pages/AppliedJobsPage/AppliedJobsPage.jsx:52-55 | a job's entry is the title of the last result for it |
| AppliedJobsPage.BuildTitleMap | src/pages/AppliedJobsPage/AppliedJobsPage.jsx:52-55 | the `reduce` loop yields the title map |
| AppliedJobsPage.TitleCell | src/pages/AppliedJobsPage/AppliedJobsPage.jsx:120 | the title, or "Loading..." when unknown or empty |
| AppliedJobsPage.WithoutApplication | src/pages/AppliedJobsPage/AppliedJobsPage.jsx:83 | an order-preserving subsequence holding exactly the applications without the confirmed id |
| AppliedJobsPage.DeleteWithoutIdKeepsAll | src/pages/AppliedJobsPage/AppliedJobsPage.jsx:83 | with no confirmed id nothing is deleted |
| AppliedJobsPage.AppliedJobsView.constructor | src/pages/AppliedJobsPage/AppliedJobsPage.jsx:27-34 | loading, nothing fetched, dialogs closed |
| AppliedJobsPage.AppliedJobsView.FetchAppliedJobs | src/pages/AppliedJobsPage/AppliedJobsPage.jsx:40-63 | applications stored on arrival; titles replaced only when every title arrives; loading ends whatever happens |
| AppliedJobsPage.AppliedJobsView.ViewJob | src/pages/AppliedJobsPage/AppliedJobsPage.jsx:65-73 | the dialog opens on the fetched job; a failure changes nothing |
| AppliedJobsPage.AppliedJobsView.DeleteConfirm | src/pages/AppliedJobsPage/AppliedJobsPage.jsx:75-78 | the id is remembered and the dialog opens |
| AppliedJobsPage.AppliedJobsView.DeleteJob | src/pages/AppliedJobsPage/AppliedJobsPage.jsx:80-89 | the confirmed application leaves only on success; the dialog closes either way |
| AppliedJobsPage.RepeatedJobShowsLaterTitle | src/pages/AppliedJobsPage/AppliedJobsPage.jsx:52-55 | a job applied for twice shows its later title |

## Left out

- HTTP transport, headers and request bodies are not modelled. Each request is
  reduced to its outcome, a `Result` parameter. The shape of the bodies sent is
  not modelled, and neither are the rejection payloads, which the thunks take from
  `error.response?.data || error.message` and may be objects.
- React effect scheduling and batching are not modelled. A handler and the effects
  it triggers run as one atomic step. Responses that overlap or arrive stale are
  not modelled, because the code has no guard against them.
- `fetchResume` is started without `await` from `fetchUser`. The model completes
  it within `fetchUser`, so the order in which the two requests settle is not
  represented.
- `Number(s)` is modelled for integers written in decimal with an optional sign
  and white space around them. Decimals, exponents, hexadecimal and "Infinity"
  read as NaN in the model.
- `toLowerCase` is modelled as ASCII lower-casing, and `trim` over a fixed set of
  white-space characters.
- `Math.round` over a floating-point quotient is modelled as exact rational
  round-half-up.
- Rendering is not modelled: MUI layout, alerts, modals and their form fields.
  The exceptions are the conditions that choose what to show: the apply area, the
  snackbar, the pagination control, the Enroll button, the lesson list, the
  applications table, and Back and Submit.
- The course editor's initial fetch (src/pages/CourseManager/CourseManager.jsx:101-158)
  is `Promise.all` plumbing and is not modelled. The same goes for the dialogs'
  open/close handlers and the form-data objects.
- `handleOpenUpdateCourseModal` (src/pages/CourseManager/CourseManager.jsx:453-464)
  reads the undeclared identifier `church` and throws before it opens the update
  dialog. As written, the page therefore cannot reach `handleUpdateCourse`.
  CourseManager.Editor.UpdateCourse models that handler anyway, from the id held
  in the update form, as if the dialog had opened.
- The course view's `toggleModule` (src/pages/CourseDetails/CourseDetails.jsx:95-100)
  is the same one-key negation as the editor's, modelled once as
  `CourseManager.Toggled`. The course view carries no expanded-module flags.
- The video player and file uploads are not modelled.
- AuthContext.StoredRole: a token whose role claim is JSON `null` is not modelled.
  The claim is an optional string, so only a missing role is covered, stored as
  "undefined". For a `null` role the source stores the text "null" and returns a
  falsy role.
- JobPage.JobPageState.SetCurrentPage requires a page of at least 1, because the
  pagination control only offers such pages.
- CourseDetails.CourseView.ToggleLessonCompletion requires the module's list to be
  loaded. The source reads `prev[moduleId].map` and throws inside the state
  updater when that list is missing.
- CourseDetails.CourseView.FetchModulesAndLessons models each lesson response as a
  list or a failure. A response whose data is not a list fails after
  `lessonsMap[module.id]` was written, and that case is not modelled.
- JobsSlice.JobsStore: a `null` payload for `jobs` is not modelled, nor are the
  crashes that would follow from it.
- AppliedJobsPage.AppliedJobsView: the mount effect reads `user.id` without a
  guard and throws without a signed-in user. The model starts from a signed-in
  user.
- VacancyPage.VacancyEditor.Delete returns only whether a refetch starts. The
  refetch itself is `FetchCompanies`.
- Outside this model:
  - src/component/Chatbot/Chatbot.jsx;
  - the profile, company, registration, enrolment and registered-students pages;
  - the pure view components;
  - src/context/JobsProvider.jsx.
  Their state logic is plumbing around requests. src/App.jsx is used only for its
  route groups.

## Findings

| source | as written | input that shows it | evidently intended | confidence | as-written member | corrected member |
|---|---|---|---|---|---|---|
| src/pages/CourseManager/CourseManager.jsx:327-336 | the clean-up after deleting a course keeps a lesson list only if some module id is `===` to its key; the keys from `Object.keys` are strings and the ids are numbers, so every lesson list is deleted | course 1 with module 10 and course 2 with module 20, each module holding one lesson; deleting course 1 also loses module 20's lessons | drop the lesson lists of the deleted course's modules and keep those of modules other courses still list | high, not executed | CourseManager.CourseDeleteCounterexample | CourseManager.AfterDeleteCourseIntended |
