/** The trainer's course editor (src/pages/CourseManager/CourseManager.jsx): a list of
    courses, the modules of each course and the lessons of each module, kept in two
    dictionaries keyed by the property name `String(id)`. Each create, update and
    delete handler changes them after its request succeeds; a confirmation dialog
    holds one pending toggle or delete; two more dictionaries remember which courses
    and modules are expanded. */
module CourseManager {
  import opened Common
  import opened Text
  import opened Entities

  /** `modulesByCourse`: course id (as a property name) to that course's modules. */
  type ModuleMap = map<string, seq<CourseModule>>

  /** `lessonsByModule`: module id (as a property name) to that module's lessons. */
  type LessonMap = map<string, seq<Lesson>>

  /** The three pieces of state the handlers edit. */
  datatype Catalogue = Catalogue(courses: seq<Course>, modulesByCourse: ModuleMap, lessonsByModule: LessonMap)

  /** `{ ...prev, [k]: [...(prev[k] || []), x] }`. */
  function AppendAt<T>(m: map<string, seq<T>>, k: string, x: T): (r: map<string, seq<T>>)
    ensures k in r && r[k] == ListAt(m, k) + [x]
    ensures forall j :: j != k ==> (j in r <==> j in m) && (j in m ==> r[j] == m[j])
  {
    m[k := ListAt(m, k) + [x]]
  }

  /** `{ ...prev, [k]: !prev[k] }`: a missing flag reads as false and becomes true. */
  function Toggled(m: map<string, bool>, k: string): (r: map<string, bool>)
    ensures k in r && r[k] == !(k in m && m[k])
    ensures forall j :: j != k ==> (j in r <==> j in m) && (j in m ==> r[j] == m[j])
  {
    m[k := !(k in m && m[k])]
  }

  // ---------------------------------------------------------------- updaters

  /** A created course is appended and gets an empty module list. */
  function AfterCreateCourse(t: Catalogue, c: Course): (r: Catalogue)
    ensures r.courses == t.courses + [c]
    ensures r.modulesByCourse == t.modulesByCourse[IdKey(c.id) := []]
    ensures r.lessonsByModule == t.lessonsByModule
  {
    t.(courses := t.courses + [c], modulesByCourse := t.modulesByCourse[IdKey(c.id) := []])
  }

  /** A created module goes at the end of its course's list, which is created if
      missing, and gets an empty lesson list. */
  function AfterCreateModule(t: Catalogue, courseId: int, m: CourseModule): (r: Catalogue)
    ensures r.courses == t.courses
    ensures r.modulesByCourse == AppendAt(t.modulesByCourse, IdKey(courseId), m)
    ensures r.lessonsByModule == t.lessonsByModule[IdKey(m.id) := []]
  {
    t.(modulesByCourse := AppendAt(t.modulesByCourse, IdKey(courseId), m),
       lessonsByModule := t.lessonsByModule[IdKey(m.id) := []])
  }

  /** A created lesson goes at the end of its module's list. */
  function AfterCreateLesson(t: Catalogue, moduleId: int, l: Lesson): (r: Catalogue)
    ensures r.courses == t.courses && r.modulesByCourse == t.modulesByCourse
    ensures r.lessonsByModule == AppendAt(t.lessonsByModule, IdKey(moduleId), l)
  {
    t.(lessonsByModule := AppendAt(t.lessonsByModule, IdKey(moduleId), l))
  }

  /** The course with the edited id is replaced by the server's copy. */
  function AfterUpdateCourse(t: Catalogue, id: int, c: Course): (r: Catalogue)
    ensures |r.courses| == |t.courses|
    ensures forall i :: 0 <= i < |t.courses| ==>
      r.courses[i] == if t.courses[i].id == id then c else t.courses[i]
    ensures r.modulesByCourse == t.modulesByCourse && r.lessonsByModule == t.lessonsByModule
  {
    t.(courses := MapWhere((x: Course) => x.id == id, (x: Course) => c, t.courses))
  }

  /** The module with the returned id is replaced within the list of the course the
      server names; that list is created empty if the key was missing. */
  function AfterUpdateModule(t: Catalogue, m: CourseModule): (r: Catalogue)
    ensures var k := IdKey(m.courseId);
      && k in r.modulesByCourse
      && |r.modulesByCourse[k]| == |ListAt(t.modulesByCourse, k)|
      && (forall i :: 0 <= i < |ListAt(t.modulesByCourse, k)| ==>
            r.modulesByCourse[k][i] == if ListAt(t.modulesByCourse, k)[i].id == m.id then m else ListAt(t.modulesByCourse, k)[i])
      && (forall j :: j != k ==>
            (j in r.modulesByCourse <==> j in t.modulesByCourse) && (j in t.modulesByCourse ==> r.modulesByCourse[j] == t.modulesByCourse[j]))
    ensures r.courses == t.courses && r.lessonsByModule == t.lessonsByModule
  {
    var k := IdKey(m.courseId);
    t.(modulesByCourse := t.modulesByCourse[k := MapWhere((x: CourseModule) => x.id == m.id, (x: CourseModule) => m, ListAt(t.modulesByCourse, k))])
  }

  /** The lessons after `handleUpdateLesson` moved lesson `u` out of the module
      `oldKey` names: it is dropped from that module's list, whose key goes if nothing
      is left, and appended to the list of the module it now belongs to. */
  function MovedLessons(m: LessonMap, oldKey: string, u: Lesson): (r: LessonMap)
    ensures var newKey := IdKey(u.moduleId); newKey in r && |r[newKey]| >= 1 && r[newKey][|r[newKey]| - 1] == u
    ensures var newKey := IdKey(u.moduleId); oldKey != newKey ==> r[newKey] == ListAt(m, newKey) + [u]
    ensures forall j :: j != oldKey && j != IdKey(u.moduleId) ==> (j in r <==> j in m) && (j in m ==> r[j] == m[j])
  {
    var kept := Filter((l: Lesson) => l.id != u.id, ListAt(m, oldKey));
    var m1 := if |kept| == 0 then m - {oldKey} else m[oldKey := kept];
    m1[IdKey(u.moduleId) := ListAt(m1, IdKey(u.moduleId)) + [u]]
  }

  function AfterUpdateLesson(t: Catalogue, oldModuleId: int, u: Lesson): (r: Catalogue)
    ensures r.courses == t.courses && r.modulesByCourse == t.modulesByCourse
    ensures r.lessonsByModule == MovedLessons(t.lessonsByModule, IdKey(oldModuleId), u)
  {
    t.(lessonsByModule := MovedLessons(t.lessonsByModule, IdKey(oldModuleId), u))
  }

  /** Some remaining course lists a module whose property name is `k`. */
  predicate ListedIn(modules: ModuleMap, k: string)
  {
    exists c, i :: c in modules && 0 <= i < |modules[c]| && IdKey(modules[c][i].id) == k
  }

  /** The lesson lists that survive deleting course `courseId`: those of modules some
      other course still lists (the evidently intended clean-up). */
  function LessonsAfterCourseDelete(lessons: LessonMap, modules: ModuleMap, courseId: int): (r: LessonMap)
    ensures r.Keys <= lessons.Keys
    ensures forall k :: k in r ==> r[k] == lessons[k]
  {
    map k | k in lessons && ListedIn(modules - {IdKey(courseId)}, k) :: lessons[k]
  }

  /** `handleDeleteCourse` as written: the course goes from the list and from the module
      dictionary, and the lesson clean-up, which compares string keys with numeric ids,
      empties the lesson dictionary, so the lessons of every other course go too. */
  function AfterDeleteCourse(t: Catalogue, courseId: int): (r: Catalogue)
    ensures r.courses == Filter((c: Course) => c.id != courseId, t.courses)
    ensures r.modulesByCourse == t.modulesByCourse - {IdKey(courseId)}
    ensures r.lessonsByModule == map[]
  {
    Catalogue(Filter((c: Course) => c.id != courseId, t.courses),
              t.modulesByCourse - {IdKey(courseId)},
              LessonsKeptAsWritten(t.lessonsByModule, t.modulesByCourse))
  }

  /** The evidently intended `handleDeleteCourse`: as above, but only the lessons of
      modules no other course lists go. */
  function AfterDeleteCourseIntended(t: Catalogue, courseId: int): (r: Catalogue)
    ensures r.courses == AfterDeleteCourse(t, courseId).courses
    ensures r.modulesByCourse == AfterDeleteCourse(t, courseId).modulesByCourse
    ensures r.lessonsByModule == LessonsAfterCourseDelete(t.lessonsByModule, t.modulesByCourse, courseId)
  {
    AfterDeleteCourse(t, courseId).(lessonsByModule := LessonsAfterCourseDelete(t.lessonsByModule, t.modulesByCourse, courseId))
  }

  /** Only the modules with that id leave the course's list, whose other modules stay
      in order, and the module's lesson list is dropped. */
  function AfterDeleteModule(t: Catalogue, moduleId: int, courseId: int): (r: Catalogue)
    ensures var k := IdKey(courseId);
      && k in r.modulesByCourse
      && (forall i :: 0 <= i < |r.modulesByCourse[k]| ==> r.modulesByCourse[k][i].id != moduleId)
      && (forall i :: 0 <= i < |ListAt(t.modulesByCourse, k)| && ListAt(t.modulesByCourse, k)[i].id != moduleId ==>
            ListAt(t.modulesByCourse, k)[i] in r.modulesByCourse[k])
      && IsSubsequence(r.modulesByCourse[k], ListAt(t.modulesByCourse, k))
      && (forall j :: j != k ==>
            (j in r.modulesByCourse <==> j in t.modulesByCourse) && (j in t.modulesByCourse ==> r.modulesByCourse[j] == t.modulesByCourse[j]))
    ensures r.lessonsByModule == t.lessonsByModule - {IdKey(moduleId)}
    ensures r.courses == t.courses
  {
    var k := IdKey(courseId);
    FilterIsSubsequence((x: CourseModule) => x.id != moduleId, ListAt(t.modulesByCourse, k));
    t.(modulesByCourse := t.modulesByCourse[k := Filter((x: CourseModule) => x.id != moduleId, ListAt(t.modulesByCourse, k))],
       lessonsByModule := t.lessonsByModule - {IdKey(moduleId)})
  }

  /** Only the lessons with that id leave that module's list; everything else stays. */
  function AfterDeleteLesson(t: Catalogue, lessonId: int, moduleId: int): (r: Catalogue)
    ensures var k := IdKey(moduleId);
      && k in r.lessonsByModule
      && (forall i :: 0 <= i < |r.lessonsByModule[k]| ==> r.lessonsByModule[k][i].id != lessonId)
      && (forall i :: 0 <= i < |ListAt(t.lessonsByModule, k)| && ListAt(t.lessonsByModule, k)[i].id != lessonId ==>
            ListAt(t.lessonsByModule, k)[i] in r.lessonsByModule[k])
      && IsSubsequence(r.lessonsByModule[k], ListAt(t.lessonsByModule, k))
      && (forall j :: j != k ==>
            (j in r.lessonsByModule <==> j in t.lessonsByModule) && (j in t.lessonsByModule ==> r.lessonsByModule[j] == t.lessonsByModule[j]))
    ensures r.courses == t.courses && r.modulesByCourse == t.modulesByCourse
  {
    var k := IdKey(moduleId);
    FilterIsSubsequence((x: Lesson) => x.id != lessonId, ListAt(t.lessonsByModule, k));
    t.(lessonsByModule := t.lessonsByModule[k := Filter((x: Lesson) => x.id != lessonId, ListAt(t.lessonsByModule, k))])
  }

  /** Only the `published` flag of the course with that id changes, to the server's value. */
  function AfterTogglePublish(t: Catalogue, courseId: int, published: bool): (r: Catalogue)
    ensures |r.courses| == |t.courses|
    ensures forall i :: 0 <= i < |t.courses| ==>
      r.courses[i] == if t.courses[i].id == courseId then t.courses[i].(published := published) else t.courses[i]
    ensures r.modulesByCourse == t.modulesByCourse && r.lessonsByModule == t.lessonsByModule
  {
    t.(courses := MapWhere((x: Course) => x.id == courseId, (x: Course) => x.(published := published), t.courses))
  }

  /** An action waiting in the confirmation dialog. */
  datatype PendingAction =
    | TogglePublishOf(course: Course)
    | DeleteCourseOf(courseId: int)
    | DeleteModuleOf(moduleId: int, inCourse: int)
    | DeleteLessonOf(lessonId: int, inModule: int)

  /** The catalogue after confirming `action`, given whether its request succeeded and,
      for a toggle, the course the server returned. */
  function Perform(t: Catalogue, action: Option<PendingAction>, response: Result<Course, ()>): (r: Catalogue)
    ensures action.None? || response.Err? ==> r == t
  {
    if action.None? || response.Err? then t
    else match action.value
      case TogglePublishOf(course) => AfterTogglePublish(t, course.id, response.value.published)
      case DeleteCourseOf(courseId) => AfterDeleteCourse(t, courseId)
      case DeleteModuleOf(moduleId, courseId) => AfterDeleteModule(t, moduleId, courseId)
      case DeleteLessonOf(lessonId, moduleId) => AfterDeleteLesson(t, lessonId, moduleId)
  }

  // ---------------------------------------------------------------- the page

  /** The editor's state beside the catalogue: the expanded flags, the lesson chosen
      for update, the upload flag and the confirmation dialog. */
  datatype EditorUi = EditorUi(
    expandedCourses: map<string, bool>, expandedModules: map<string, bool>,
    lessonToUpdate: Option<Lesson>, uploading: bool,
    openConfirmDialog: bool, confirmAction: Option<PendingAction>,
    confirmMessage: string, courseToToggle: Option<Course>)

  class Editor {
    var courses: seq<Course>
    var modulesByCourse: ModuleMap
    var lessonsByModule: LessonMap
    var expandedCourses: map<string, bool>
    var expandedModules: map<string, bool>
    var lessonToUpdate: Option<Lesson>
    var uploading: bool
    var openConfirmDialog: bool
    var confirmAction: Option<PendingAction>
    var confirmMessage: string
    var courseToToggle: Option<Course>

    function Contents(): Catalogue
      reads this
    {
      Catalogue(courses, modulesByCourse, lessonsByModule)
    }

    function Ui(): EditorUi
      reads this
    {
      EditorUi(expandedCourses, expandedModules, lessonToUpdate, uploading,
               openConfirmDialog, confirmAction, confirmMessage, courseToToggle)
    }

    /** The dialog is closed exactly when nothing waits in it. */
    predicate DialogCleared()
      reads this
    {
      !openConfirmDialog && confirmAction.None? && confirmMessage == "" && courseToToggle.None?
    }

    constructor ()
      ensures Contents() == Catalogue([], map[], map[])
      ensures expandedCourses == map[] && expandedModules == map[]
      ensures lessonToUpdate.None? && !uploading && DialogCleared()
    {
      courses, modulesByCourse, lessonsByModule := [], map[], map[];
      expandedCourses, expandedModules := map[], map[];
      lessonToUpdate := None;
      uploading := false;
      openConfirmDialog, confirmAction, confirmMessage, courseToToggle := false, None, "", None;
    }

    /** `handleCreateCourse`: nothing is sent without a signed-in user whose id is truthy. */
    method CreateCourse(user: Option<User>, response: Result<Course, ()>)
      modifies this
      ensures user.Some? && user.value.id != 0 && response.Ok? ==>
        Contents() == AfterCreateCourse(old(Contents()), response.value)
      ensures user.None? || user.value.id == 0 || response.Err? ==> Contents() == old(Contents())
      ensures Ui() == old(Ui())
    {
      if user.None? || user.value.id == 0 {
        return;
      }
      if response.Ok? {
        var created := response.value;
        courses := courses + [created];
        modulesByCourse := modulesByCourse[IdKey(created.id) := []];
      }
    }

    /** `handleCreateModule` for the course the module dialog was opened on. */
    method CreateModule(courseId: int, response: Result<CourseModule, ()>)
      modifies this
      ensures response.Ok? ==> Contents() == AfterCreateModule(old(Contents()), courseId, response.value)
      ensures response.Err? ==> Contents() == old(Contents())
      ensures Ui() == old(Ui())
    {
      if response.Ok? {
        modulesByCourse := AppendAt(modulesByCourse, IdKey(courseId), response.value);
        lessonsByModule := lessonsByModule[IdKey(response.value.id) := []];
      }
    }

    /** `handleCreateLesson` for the module the lesson dialog was opened on; `uploading`
        is raised for the request and lowered whatever its outcome. */
    method CreateLesson(moduleId: int, response: Result<Lesson, ()>)
      modifies this
      ensures response.Ok? ==> Contents() == AfterCreateLesson(old(Contents()), moduleId, response.value)
      ensures response.Err? ==> Contents() == old(Contents())
      ensures Ui() == old(Ui()).(uploading := false)
    {
      uploading := true;
      if response.Ok? {
        lessonsByModule := AppendAt(lessonsByModule, IdKey(moduleId), response.value);
      }
      uploading := false;
    }

    /** `handleUpdateCourse` for the course id held in the update form. */
    method UpdateCourse(id: int, response: Result<Course, ()>)
      modifies this
      ensures response.Ok? ==> Contents() == AfterUpdateCourse(old(Contents()), id, response.value)
      ensures response.Err? ==> Contents() == old(Contents())
      ensures Ui() == old(Ui())
    {
      if response.Ok? {
        courses := MapWhere((x: Course) => x.id == id, (x: Course) => response.value, courses);
      }
    }

    /** `handleUpdateModule`. */
    method UpdateModule(response: Result<CourseModule, ()>)
      modifies this
      ensures response.Ok? ==> Contents() == AfterUpdateModule(old(Contents()), response.value)
      ensures response.Err? ==> Contents() == old(Contents())
      ensures Ui() == old(Ui())
    {
      if response.Ok? {
        var m := response.value;
        var k := IdKey(m.courseId);
        modulesByCourse := modulesByCourse[k := MapWhere((x: CourseModule) => x.id == m.id, (x: CourseModule) => m, ListAt(modulesByCourse, k))];
      }
    }

    /** `handleUpdateLesson`: the dictionary is copied and the copy edited in three
        steps. Without a lesson chosen for update, reading its module id throws after
        the request and the catch leaves everything as it was. */
    method UpdateLesson(response: Result<Lesson, ()>)
      modifies this
      ensures response.Ok? && old(lessonToUpdate).Some? ==>
        Contents() == AfterUpdateLesson(old(Contents()), old(lessonToUpdate).value.moduleId, response.value) &&
        lessonToUpdate.None?
      ensures response.Err? || old(lessonToUpdate).None? ==>
        Contents() == old(Contents()) && lessonToUpdate == old(lessonToUpdate)
      ensures Ui() == old(Ui()).(uploading := false, lessonToUpdate := lessonToUpdate)
    {
      uploading := true;
      if response.Ok? && lessonToUpdate.Some? {
        var updated := response.value;
        var oldKey := IdKey(lessonToUpdate.value.moduleId);
        var newKey := IdKey(updated.moduleId);
        var newLessons := lessonsByModule;
        newLessons := newLessons[oldKey := Filter((l: Lesson) => l.id != updated.id, ListAt(newLessons, oldKey))];
        if |newLessons[oldKey]| == 0 {
          newLessons := newLessons - {oldKey};
        }
        newLessons := newLessons[newKey := ListAt(newLessons, newKey) + [updated]];
        assert newLessons == MovedLessons(lessonsByModule, oldKey, updated);
        lessonsByModule := newLessons;
        lessonToUpdate := None;
      }
      uploading := false;
    }

    /** `handleDeleteCourse`: the lesson clean-up runs against the render-time modules. */
    method DeleteCourse(courseId: int, response: Result<(), ()>)
      modifies this
      ensures response.Ok? ==> Contents() == AfterDeleteCourse(old(Contents()), courseId)
      ensures response.Err? ==> Contents() == old(Contents())
      ensures Ui() == old(Ui())
    {
      if response.Ok? {
        var remainingLessons := LessonCleanupAsWritten(lessonsByModule, modulesByCourse);
        courses := Filter((c: Course) => c.id != courseId, courses);
        modulesByCourse := modulesByCourse - {IdKey(courseId)};
        lessonsByModule := remainingLessons;
      }
    }

    /** `handleDeleteModule`. */
    method DeleteModule(moduleId: int, courseId: int, response: Result<(), ()>)
      modifies this
      ensures response.Ok? ==> Contents() == AfterDeleteModule(old(Contents()), moduleId, courseId)
      ensures response.Err? ==> Contents() == old(Contents())
      ensures Ui() == old(Ui())
    {
      if response.Ok? {
        var k := IdKey(courseId);
        modulesByCourse := modulesByCourse[k := Filter((x: CourseModule) => x.id != moduleId, ListAt(modulesByCourse, k))];
        lessonsByModule := lessonsByModule - {IdKey(moduleId)};
      }
    }

    /** `handleDeleteLesson`. */
    method DeleteLesson(lessonId: int, moduleId: int, response: Result<(), ()>)
      modifies this
      ensures response.Ok? ==> Contents() == AfterDeleteLesson(old(Contents()), lessonId, moduleId)
      ensures response.Err? ==> Contents() == old(Contents())
      ensures Ui() == old(Ui())
    {
      if response.Ok? {
        var k := IdKey(moduleId);
        lessonsByModule := lessonsByModule[k := Filter((x: Lesson) => x.id != lessonId, ListAt(lessonsByModule, k))];
      }
    }

    /** `handleTogglePublish`: only `published` is taken from the server's copy. */
    method TogglePublish(course: Course, response: Result<Course, ()>)
      modifies this
      ensures response.Ok? ==> Contents() == AfterTogglePublish(old(Contents()), course.id, response.value.published)
      ensures response.Err? ==> Contents() == old(Contents())
      ensures Ui() == old(Ui())
    {
      if response.Ok? {
        var published := response.value.published;
        courses := MapWhere((x: Course) => x.id == course.id, (x: Course) => x.(published := published), courses);
      }
    }

    /** `handleOpenConfirmDialog`: a course, when given, is remembered as the one to toggle. */
    method OpenConfirmDialog(action: PendingAction, message: string, course: Option<Course>)
      modifies this
      ensures openConfirmDialog && confirmAction == Some(action) && confirmMessage == message
      ensures courseToToggle == if course.Some? then course else old(courseToToggle)
      ensures Ui() == old(Ui()).(openConfirmDialog := true, confirmAction := Some(action),
                                 confirmMessage := message, courseToToggle := courseToToggle)
      ensures Contents() == old(Contents())
    {
      if course.Some? {
        courseToToggle := course;
      }
      confirmAction := Some(action);
      confirmMessage := message;
      openConfirmDialog := true;
    }

    /** `handleCloseConfirmDialog`. */
    method CloseConfirmDialog()
      modifies this
      ensures DialogCleared()
      ensures Ui() == old(Ui()).(openConfirmDialog := false, confirmAction := None,
                                 confirmMessage := "", courseToToggle := None)
      ensures Contents() == old(Contents())
    {
      openConfirmDialog := false;
      confirmAction := None;
      confirmMessage := "";
      courseToToggle := None;
    }

    /** `handleConfirmAction`: the waiting action, if any, runs once with the outcome of
        its request, and the dialog is cleared, so a second confirmation does nothing. */
    method ConfirmAction(response: Result<Course, ()>)
      modifies this
      ensures Contents() == Perform(old(Contents()), old(confirmAction), response)
      ensures DialogCleared()
      ensures Ui() == old(Ui()).(openConfirmDialog := false, confirmAction := None,
                                 confirmMessage := "", courseToToggle := None)
    {
      if confirmAction.Some? {
        match confirmAction.value {
          case TogglePublishOf(course) =>
            TogglePublish(course, response);
          case DeleteCourseOf(courseId) =>
            DeleteCourse(courseId, if response.Ok? then Ok(()) else Err(()));
          case DeleteModuleOf(moduleId, courseId) =>
            DeleteModule(moduleId, courseId, if response.Ok? then Ok(()) else Err(()));
          case DeleteLessonOf(lessonId, moduleId) =>
            DeleteLesson(lessonId, moduleId, if response.Ok? then Ok(()) else Err(()));
        }
      }
      CloseConfirmDialog();
    }

    method ToggleCourse(courseId: int)
      modifies this
      ensures expandedCourses == Toggled(old(expandedCourses), IdKey(courseId))
      ensures Ui() == old(Ui()).(expandedCourses := expandedCourses)
      ensures Contents() == old(Contents())
    {
      expandedCourses := Toggled(expandedCourses, IdKey(courseId));
    }

    method ToggleModule(moduleId: int)
      modifies this
      ensures expandedModules == Toggled(old(expandedModules), IdKey(moduleId))
      ensures Ui() == old(Ui()).(expandedModules := expandedModules)
      ensures Contents() == old(Contents())
    {
      expandedModules := Toggled(expandedModules, IdKey(moduleId));
    }
  }

  /** Confirming twice runs the action once: the second confirmation finds no action. */
  method ConfirmTwice(editor: Editor, response: Result<Course, ()>)
    modifies editor
    ensures editor.Contents() == Perform(old(editor.Contents()), old(editor.confirmAction), response)
    ensures editor.DialogCleared()
  {
    editor.ConfirmAction(response);
    editor.ConfirmAction(response);
  }

  // ---------------------------------------------------------------- the clean-up as written

  /** JavaScript's `===` between a number and a string: always false, whatever the
      digits. */
  predicate StrictEqualsNumberString(n: int, s: string)
  {
    false
  }

  /** `Object.values(modules).flat().some(m => m.id === key)` with `key` a string. */
  predicate ListedStrictly(modules: ModuleMap, key: string)
  {
    exists c, i :: c in modules && 0 <= i < |modules[c]| && StrictEqualsNumberString(modules[c][i].id, key)
  }

  /** The lesson lists `handleDeleteCourse` keeps, as written: those whose key is `===`
      to the id of some module of the render-time `modulesByCourse`. The keys are
      strings and the ids numbers, so none is kept. */
  function LessonsKeptAsWritten(lessons: LessonMap, renderModules: ModuleMap): (r: LessonMap)
    ensures r == map[]
  {
    var r := map k | k in lessons && ListedStrictly(renderModules, k) :: lessons[k];
    assert r.Keys == {};
    r
  }

  /** The `forEach` over a copy of the lesson dictionary that deletes every key no
      render-time module is `===` to. */
  method LessonCleanupAsWritten(lessons: LessonMap, renderModules: ModuleMap) returns (r: LessonMap)
    ensures r == LessonsKeptAsWritten(lessons, renderModules)
  {
    r := lessons;
    var keys := lessons.Keys;
    while keys != {}
      invariant keys <= lessons.Keys
      invariant forall k :: k in r <==> k in lessons && (k in keys || ListedStrictly(renderModules, k))
      invariant forall k :: k in r ==> r[k] == lessons[k]
      decreases |keys|
    {
      var k :| k in keys;
      if !ListedStrictly(renderModules, k) {
        r := r - {k};
      }
      keys := keys - {k};
    }
    assert r.Keys == {};
  }

  // ---------------------------------------------------------------- properties

  /** Appending to a key puts the new element last after what the list held. */
  lemma AppendAtKeepsOrder<T>(m: map<string, seq<T>>, k: string, x: T)
    ensures |AppendAt(m, k, x)[k]| == |ListAt(m, k)| + 1
    ensures AppendAt(m, k, x)[k][..|ListAt(m, k)|] == ListAt(m, k)
    ensures AppendAt(m, k, x)[k][|ListAt(m, k)|] == x
  {
  }

  /** Toggling twice restores a flag that was set; a flag that was missing ends false. */
  lemma ToggleTwice(m: map<string, bool>, k: string)
    ensures Toggled(Toggled(m, k), k) == if k in m then m else m[k := false]
  {
    var r := Toggled(Toggled(m, k), k);
    var e := if k in m then m else m[k := false];
    assert r.Keys == e.Keys;
  }

  /** Updating a course whose id is absent from the list changes nothing. */
  lemma UpdateUnknownCourse(t: Catalogue, id: int, c: Course)
    requires forall i :: 0 <= i < |t.courses| ==> t.courses[i].id != id
    ensures AfterUpdateCourse(t, id, c) == t
  {
    assert AfterUpdateCourse(t, id, c).courses == t.courses;
  }

  /** With unique ids, updating a listed course changes exactly that entry. */
  lemma UpdateCourseChangesOne(t: Catalogue, k: int, c: Course)
    requires 0 <= k < |t.courses|
    requires forall i :: 0 <= i < |t.courses| && i != k ==> t.courses[i].id != t.courses[k].id
    ensures AfterUpdateCourse(t, t.courses[k].id, c).courses == t.courses[k := c]
  {
  }

  /** Moving a lesson: it ends last in its new module; when the module changed, the new
      module's earlier lessons stay in front of it, and the old module's list keeps every
      other lesson, in order, no longer holds a lesson with its id and its key is gone
      exactly when nothing else was left in it; when the module stayed, the lesson now appears once,
      at the end. All other modules are untouched. */
  lemma MovedLessonsProperties(m: LessonMap, oldKey: string, u: Lesson)
    ensures var r := MovedLessons(m, oldKey, u); var newKey := IdKey(u.moduleId);
      && (oldKey != newKey && oldKey in r ==> forall i :: 0 <= i < |r[oldKey]| ==> r[oldKey][i].id != u.id)
      && (oldKey != newKey ==> (oldKey !in r <==> forall i :: 0 <= i < |ListAt(m, oldKey)| ==> ListAt(m, oldKey)[i].id == u.id))
      && (oldKey != newKey && oldKey in r ==> IsSubsequence(r[oldKey], ListAt(m, oldKey)))
      && (oldKey != newKey ==> forall i :: 0 <= i < |ListAt(m, oldKey)| && ListAt(m, oldKey)[i].id != u.id ==>
            oldKey in r && ListAt(m, oldKey)[i] in r[oldKey])
      && (oldKey != newKey ==> r[newKey][..|ListAt(m, newKey)|] == ListAt(m, newKey))
      && (oldKey == newKey ==> forall i :: 0 <= i < |r[newKey]| - 1 ==> r[newKey][i].id != u.id)
  {
    var p := (l: Lesson) => l.id != u.id;
    var kept := Filter(p, ListAt(m, oldKey));
    FilterIsSubsequence(p, ListAt(m, oldKey));
    var r := MovedLessons(m, oldKey, u);
    var newKey := IdKey(u.moduleId);
    if oldKey == newKey {
      var m1 := if |kept| == 0 then m - {oldKey} else m[oldKey := kept];
      assert ListAt(m1, newKey) == kept;
      assert r[newKey] == kept + [u];
    }
  }

  /** Updating a lesson within the same module moves it to the end of that module. */
  lemma SameModuleMovesToEnd(m: LessonMap, u: Lesson, before: seq<Lesson>, after: seq<Lesson>, old_: Lesson)
    requires IdKey(u.moduleId) in m && m[IdKey(u.moduleId)] == before + [old_] + after
    requires old_.id == u.id
    requires forall i :: 0 <= i < |before| ==> before[i].id != u.id
    requires forall i :: 0 <= i < |after| ==> after[i].id != u.id
    ensures MovedLessons(m, IdKey(u.moduleId), u)[IdKey(u.moduleId)] == before + after + [u]
  {
    var p := (l: Lesson) => l.id != u.id;
    FilterDropsOne(p, before, old_, after);
    var k := IdKey(u.moduleId);
    var kept := Filter(p, m[k]);
    var m1 := if |kept| == 0 then m - {k} else m[k := kept];
    assert ListAt(m1, k) == before + after;
  }

  lemma FilterDropsOne<T>(p: T -> bool, before: seq<T>, x: T, after: seq<T>)
    requires !p(x)
    requires forall i :: 0 <= i < |before| ==> p(before[i])
    requires forall i :: 0 <= i < |after| ==> p(after[i])
    ensures Filter(p, before + [x] + after) == before + after
  {
    assert Filter(p, [x]) == [] by {
      assert [x][1..] == [];
    }
    var front := before + [x];
    FilterConcat(p, front, after);
    FilterConcat(p, before, [x]);
    FilterKeepsAll(p, before);
    FilterKeepsAll(p, after);
    assert Filter(p, front) == before;
  }

  lemma {:induction false} FilterConcat<T>(p: T -> bool, a: seq<T>, b: seq<T>)
    ensures Filter(p, a + b) == Filter(p, a) + Filter(p, b)
  {
    if a != [] {
      FilterConcat(p, a[1..], b);
      assert (a + b)[1..] == a[1..] + b;
    } else {
      assert a + b == b;
    }
  }

  /** The intended clean-up keeps the lessons of every module of every other course. */
  lemma CourseDeleteKeepsOtherCourses(lessons: LessonMap, modules: ModuleMap, courseId: int, c: string, i: int)
    requires c in modules && c != IdKey(courseId) && 0 <= i < |modules[c]|
    requires IdKey(modules[c][i].id) in lessons
    ensures var k := IdKey(modules[c][i].id);
      k in LessonsAfterCourseDelete(lessons, modules, courseId) &&
      LessonsAfterCourseDelete(lessons, modules, courseId)[k] == lessons[k]
  {
    var rest := modules - {IdKey(courseId)};
    assert c in rest && rest[c][i] == modules[c][i];
    assert ListedIn(rest, IdKey(modules[c][i].id));
  }

  /** ... and drops those of the deleted course's modules, unless another course also
      lists a module with the same id. */
  lemma CourseDeleteDropsItsModules(lessons: LessonMap, modules: ModuleMap, courseId: int, i: int)
    requires IdKey(courseId) in modules && 0 <= i < |modules[IdKey(courseId)]|
    requires forall c, j :: c in modules && c != IdKey(courseId) && 0 <= j < |modules[c]| ==>
      modules[c][j].id != modules[IdKey(courseId)][i].id
    ensures IdKey(modules[IdKey(courseId)][i].id) !in LessonsAfterCourseDelete(lessons, modules, courseId)
  {
    var k := IdKey(modules[IdKey(courseId)][i].id);
    var rest := modules - {IdKey(courseId)};
    if ListedIn(rest, k) {
      var c, j :| c in rest && 0 <= j < |rest[c]| && IdKey(rest[c][j].id) == k;
      IdKeyInjective(rest[c][j].id, modules[IdKey(courseId)][i].id);
    }
  }

  /** Deleting course 1, which owns module 10, from a catalogue where course 2 owns
      module 20: the page as written keeps module 20 listed under course 2 but loses its
      lessons; the intended clean-up keeps them and drops only module 10's. */
  method CourseDeleteCounterexample(c1: Course, c2: Course, l10: Lesson, l20: Lesson)
    returns (asWritten: Catalogue, intended: Catalogue)
    requires c1.id == 1 && c2.id == 2
    ensures asWritten.courses == intended.courses == [c2]
    ensures asWritten.modulesByCourse == intended.modulesByCourse == map[IdKey(2) := [CourseModule(20, "Advanced", 2)]]
    ensures asWritten.lessonsByModule == map[]
    ensures IdKey(20) in intended.lessonsByModule && intended.lessonsByModule[IdKey(20)] == [l20]
    ensures IdKey(10) !in intended.lessonsByModule
  {
    var m10 := CourseModule(10, "Basics", 1);
    var m20 := CourseModule(20, "Advanced", 2);
    var modules: ModuleMap := map[IdKey(1) := [m10], IdKey(2) := [m20]];
    var lessons: LessonMap := map[IdKey(10) := [l10], IdKey(20) := [l20]];
    var t := Catalogue([c1, c2], modules, lessons);
    asWritten := AfterDeleteCourse(t, 1);
    intended := AfterDeleteCourseIntended(t, 1);
    assert IdKey(1) != IdKey(2) by {
      if IdKey(1) == IdKey(2) { IdKeyInjective(1, 2); }
    }
    assert Filter((c: Course) => c.id != 1, [c1, c2]) == [c2] by {
      assert [c1, c2][1..] == [c2];
      assert [c2][1..] == [];
    }
    assert modules - {IdKey(1)} == map[IdKey(2) := [m20]];
    assert modules[IdKey(2)][0] == m20;
    CourseDeleteKeepsOtherCourses(lessons, modules, 1, IdKey(2), 0);
    forall c, j | c in modules && c != IdKey(1) && 0 <= j < |modules[c]|
      ensures modules[c][j].id != modules[IdKey(1)][0].id
    {
      assert c == IdKey(2);
    }
    CourseDeleteDropsItsModules(lessons, modules, 1, 0);
  }
}
