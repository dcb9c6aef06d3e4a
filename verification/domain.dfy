/** The entities the services read and write, the in-memory world that
    stands for the database, and the errors the services return. */
module Domain {

  /** Users and teams are keyed by UUIDs; the model keeps their text form. */
  type Uuid = string

  /** Seconds since Go's zero time (0001-01-01 UTC). `time.Time{}` is 0, and
      every real clock reading is positive. */
  type Time = int

  const ZeroTime: Time := 0
  const MinuteSeconds := 60

  /** The team-status column: its four enumerated values. */
  datatype TeamStatus = Unverified | Verified | Rejected | UnderReview {
    function Text(): string {
      match this
      case Unverified => "belum terverifikasi"
      case Verified => "terverifikasi"
      case Rejected => "ditolak"
      case UnderReview => "diproses"
    }
  }

  /** The status of a team's submission for one stage, as the services write
      and compare it: created "diproses", judged "lolos" or "tidak lolos". */
  datatype ProgressStatus = Processing | Passed | Failed {
    function Text(): string {
      match this
      case Processing => "diproses"
      case Passed => "lolos"
      case Failed => "tidak lolos"
    }
  }

  datatype AccountStatus = Inactive | Active

  /** One stage of a competition; `order` positions it within the competition. */
  datatype Stage = Stage(id: int, name: string, competition: int, order: int, deadline: Time)

  /** A team's submission for a stage (a row of team_progresses). */
  datatype Progress = Progress(stageId: int, status: ProgressStatus, team: Uuid, link: string)

  /** The status column of a progress row: a stage the team has no record
      for reads back as the empty string, and the synthetic payment row
      carries the team status. */
  datatype RowStatus = NoRecord | Recorded(progress: ProgressStatus) | Payment(team: TeamStatus) {
    function Text(): string {
      match this
      case NoRecord => ""
      case Recorded(p) => p.Text()
      case Payment(t) => t.Text()
    }
  }

  /** One entry of a team's progress list (model.Stages). */
  datatype Row = Row(stageId: int, name: string, deadline: Time, link: string, status: RowStatus)

  datatype Team = Team(id: Uuid, name: string, status: TeamStatus, user: Uuid, competition: int)

  datatype Member = Member(team: Uuid, name: string, studentNumber: string)

  datatype Competition = Competition(id: int, name: string)

  datatype User = User(
    id: Uuid,
    fullName: string,
    passwordHash: string,
    email: string,
    studentNumber: string,
    registrationLink: string,
    paymentProof: string,
    account: AccountStatus,
    studentCard: string,
    role: int)

  /** The zero-valued user the services fall back to when a lookup fails. */
  const NoUser := User("", "", "", "", "", "", "", Inactive, "", 0)

  datatype Otp = Otp(user: Uuid, code: string, updatedAt: Time)

  /** Every table the core touches, each in insertion order. */
  datatype World = World(
    users: seq<User>,
    teams: seq<Team>,
    members: seq<Member>,
    competitions: seq<Competition>,
    stages: seq<Stage>,
    progress: seq<Progress>,
    otps: seq<Otp>)

  /** Facts the database schema guarantees: stage IDs are auto-incremented
      primary keys (distinct and positive) and team IDs are UUIDs (never empty). */
  ghost predicate ValidWorld(w: World) {
    && (forall i, j :: 0 <= i < j < |w.stages| ==> w.stages[i].id != w.stages[j].id)
    && (forall i :: 0 <= i < |w.stages| ==> w.stages[i].id > 0)
    && (forall i :: 0 <= i < |w.teams| ==> w.teams[i].id != "")
  }

  /** The errors the core returns. The first four are the typed submission
      denials; the rest stand for the services' `errors.New` messages and for
      failures of collaborators outside the model. */
  datatype Error =
    | UnverifiedAccount
    | NotPassedPrevious
    | SubmissionProcessing
    | PassedDeadline
    | NotFound
    | TooManyMembers
    | TeamNameTaken
    | EmailTaken
    | PasswordsDiffer
    | HashFailed
    | TokenFailed
    | DeliveryFailed
    | WrongCredentials
    | FileTooLarge
    | UserNotFound
    | UploadFailed
    | InvalidOtp
    | BadExpiryConfig
    | OtpExpired
    | SamePassword
    | AlreadyActive
    | ResendTooSoon
}
