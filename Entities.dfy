/** The records the backend sends and the pages read, with the fields the modelled
    logic uses. Identifiers are JSON numbers; text fields are strings. */
module Entities {
  import opened Common

  /** A vacancy. `salary` is kept as the text the backend sends: the pages compare
      `Number(job.salary)`. `skillsRequired` may be absent. */
  datatype Job = Job(
    id: int,
    title: string,
    company: string,
    companyId: int,
    location: string,
    industry: string,
    salary: string,
    skillsRequired: Option<string>,
    experienceRequired: string,
    description: string,
    publishDate: string,
    active: bool)

  /** A job application: the `(jobId, applicantId)` pair says who applied where. */
  datatype Application = Application(
    applicationId: int,
    jobId: int,
    applicantId: int,
    resumeUrl: Option<string>,
    applicationStatus: string,
    appliedDate: string)

  /** The profile `/auth/user/{id}` returns. `role` and `resumeUrl` may be absent. */
  datatype User = User(id: int, role: Option<string>, resumeUrl: Option<string>)

  /** A training course; `published` is flipped by the backend's toggle endpoint. */
  datatype Course = Course(
    id: int,
    title: string,
    description: string,
    category: string,
    published: bool,
    publishedBy: int)

  /** A module of a course. */
  datatype CourseModule = CourseModule(id: int, name: string, courseId: int)

  /** A lesson of a module; `isCompleted` is the learner's completion flag. */
  datatype Lesson = Lesson(id: int, title: string, content: string, moduleId: int, isCompleted: bool)

  /** A company record as `/companies/user/{id}` returns it. */
  datatype Company = Company(id: int, name: string, location: string)
}
