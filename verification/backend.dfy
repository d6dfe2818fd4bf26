/**
 * The backend records the client reads (the shapes in src/types/backend.ts),
 * reduced to the fields the modelled logic looks at. Date strings are already
 * parsed into millisecond timestamps; `null` and absent fields are `None`.
 */
module Backend {
  import opened Wrappers
  import opened Json

  type Timestamp = int

  datatype PaginationMeta = PaginationMeta(currentPage: int, lastPage: int, perPage: int, total: int)

  datatype ResultStatus = ResultStatus(id: int, name: string, slug: string)

  datatype Role = Role(id: int, name: string, title: Option<string>)

  datatype Organization = Organization(id: int, name: string)

  datatype User = User(
    id: int,
    name: string,
    email: string,
    emailVerifiedAt: Option<string>,
    organization: Option<Organization>,
    roles: Option<seq<Role>>)

  /** A course; `moduleCount` is `modules?.length`. */
  datatype Course = Course(id: int, title: string, moduleCount: Option<nat>)

  datatype Group = Group(id: int, name: Option<string>, startDate: Timestamp, endDate: Timestamp, course: Option<Course>)

  /** The exam's free-form configuration; only the two passing-score keys are read. */
  datatype ExamConfig = ExamConfig(passingScoreSnake: Option<Json>, passingScoreCamel: Option<Json>)

  datatype Exam = Exam(id: int, title: string, timeLimit: Option<int>, config: Option<ExamConfig>)

  datatype ExamAnswer = ExamAnswer(id: int, questionId: int, isCorrect: Option<bool>)

  datatype ExamAttempt = ExamAttempt(
    id: int,
    submittedAt: Option<Timestamp>,
    elapsedSeconds: Option<int>,
    score: Option<int>,
    answers: Option<seq<ExamAnswer>>)

  datatype ExamInstance = ExamInstance(
    id: int,
    attemptNumber: int,
    startAt: Option<Timestamp>,
    endAt: Option<Timestamp>,
    attempt: Option<ExamAttempt>)

  datatype Assignment = Assignment(
    id: int,
    attemptsAllowed: int,
    groupId: Option<int>,
    startAt: Option<Timestamp>,
    endAt: Option<Timestamp>,
    exam: Option<Exam>,
    instances: Option<seq<ExamInstance>>,
    result: Option<ResultStatus>,
    group: Option<Group>,
    user: Option<User>,
    attempt: Option<ExamAttempt>)
}
