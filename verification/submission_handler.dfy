/** The submission endpoints (internal/handler/rest/submission.go): request
    validation and the mapping from the service's errors to HTTP statuses.
    Whether the request body or query binds is a parameter (`bound`): gin's
    binding and URL validation are not part of this model. */
module SubmissionHandler {
  import opened Wrappers
  import opened Text
  import opened Domain
  import opened SubmissionRepository
  import opened SubmissionService

  const StatusOk := 200
  const StatusCreated := 201
  const StatusBadRequest := 400
  const StatusForbidden := 403
  const StatusConflict := 409
  const StatusGone := 410
  const StatusUnprocessable := 422
  const StatusInternal := 500

  /** The four typed denials CreateSubmission can return. */
  predicate IsDenial(e: Error) {
    e == UnverifiedAccount || e == NotPassedPrevious || e == SubmissionProcessing || e == PassedDeadline
  }

  /** The create handler's status for a service error: a code of its own for
      each denial, 500 for anything else. */
  function ErrorStatus(e: Error): (code: int)
    ensures IsDenial(e) <==> code != StatusInternal
    ensures code in {StatusForbidden, StatusUnprocessable, StatusConflict, StatusGone, StatusInternal}
  {
    if e == UnverifiedAccount then StatusForbidden
    else if e == NotPassedPrevious then StatusUnprocessable
    else if e == SubmissionProcessing then StatusConflict
    else if e == PassedDeadline then StatusGone
    else StatusInternal
  }

  /** The denial a client reads back from a status code. */
  function DenialOf(code: int): (r: Option<Error>)
    ensures r.Some? ==> IsDenial(r.value)
  {
    if code == StatusForbidden then Some(UnverifiedAccount)
    else if code == StatusUnprocessable then Some(NotPassedPrevious)
    else if code == StatusConflict then Some(SubmissionProcessing)
    else if code == StatusGone then Some(PassedDeadline)
    else None
  }

  /** The status code identifies the denial: the mapping is one-to-one on
      the four denials, and no other error can be mistaken for one. */
  lemma ErrorStatusInjective(e: Error)
    ensures IsDenial(e) <==> DenialOf(ErrorStatus(e)) == Some(e)
    ensures !IsDenial(e) ==> DenialOf(ErrorStatus(e)).None?
  {
  }

  /** POST /submission: 400 when the body does not bind, 201 with the new
      record, or the error's status with the world unchanged. */
  function CreateSubmissionEndpoint(w: World, user: Uuid, bound: bool, link: string, now: Time): (r: (int, World))
    ensures !bound ==> r == (StatusBadRequest, w)
    ensures bound && CreateSubmission(w, user, link, now).Ok? ==> r == (StatusCreated, CreateSubmission(w, user, link, now).value)
    ensures bound && CreateSubmission(w, user, link, now).Err? ==>
              r.1 == w && r.0 == ErrorStatus(CreateSubmission(w, user, link, now).error)
    ensures r.0 == StatusCreated <==> bound && CreateSubmission(w, user, link, now).Ok?
  {
    if !bound then (StatusBadRequest, w)
    else match CreateSubmission(w, user, link, now)
      case Ok(w') => (StatusCreated, w')
      case Err(e) => (ErrorStatus(e), w)
  }

  /** Why the status update was refused, in the order it is checked. */
  datatype Refusal = BadTeamId | BadStageId | BadBody | BadStatus

  /** The judged statuses an admin may set. */
  function ParseVerdict(text: string): (r: Option<ProgressStatus>)
    ensures r.Some? ==> r.value != Processing && r.value.Text() == text
    ensures r.None? <==> text != "lolos" && text != "tidak lolos"
  {
    if text == "lolos" then Some(Passed)
    else if text == "tidak lolos" then Some(Failed)
    else None
  }

  /** PUT /submission/:team_id/:stage_id: the path parameters, the body and
      the status are checked in that order; only then is the update applied. */
  function UpdateStatusEndpoint(w: World, teamId: string, stageId: string, bound: bool, status: string): (r: Result<World, Refusal>)
    ensures teamId == "" ==> r == Err(BadTeamId)
    ensures teamId != "" && (stageId == "" || stageId == "0") ==> r == Err(BadStageId)
    ensures teamId != "" && stageId != "" && stageId != "0" && !bound ==> r == Err(BadBody)
    ensures teamId != "" && stageId != "" && stageId != "0" && bound ==>
              (r.Err? <==> status != "lolos" && status != "tidak lolos")
    ensures r.Err? ==> r.error != BadStatus || (status != "lolos" && status != "tidak lolos")
    ensures r.Ok? ==>
              teamId != "" && stageId != "" && stageId != "0"
              && (status == "lolos" || status == "tidak lolos")
              && r.value.progress == UpdateStatus(w.progress, teamId, stageId, ParseVerdict(status).value)
              && r.value == w.(progress := r.value.progress)
  {
    if teamId == "" then Err(BadTeamId)
    else if stageId == "" || stageId == "0" then Err(BadStageId)
    else if !bound then Err(BadBody)
    else match ParseVerdict(status)
      case None => Err(BadStatus)
      case Some(v) => Ok(UpdateStatusSubmission(w, teamId, stageId, v))
  }

  /** The update's answer: 200 with the updated table, or 400 for every
      refusal with the world unchanged. */
  function UpdateStatusReply(w: World, teamId: string, stageId: string, bound: bool, status: string): (r: (int, World))
    ensures r.0 == StatusOk || r == (StatusBadRequest, w)
    ensures r.0 == StatusOk <==> UpdateStatusEndpoint(w, teamId, stageId, bound, status).Ok?
  {
    match UpdateStatusEndpoint(w, teamId, stageId, bound, status)
    case Ok(w') => (StatusOk, w')
    case Err(_) => (StatusBadRequest, w)
  }

  /** Stage 0's own decimal text is refused before the body is read. */
  lemma ZeroStageRefused(w: World, teamId: string, bound: bool, status: string)
    requires teamId != ""
    ensures UpdateStatusEndpoint(w, teamId, IntText(0), bound, status) == Err(BadStageId)
  {
    IntTextZero(0);
  }

  /** GET /submission: the query filter is forwarded unchanged; 201 on success. */
  function GetSubmissionEndpoint(w: World, bound: bool, q: Query): (r: (int, seq<Progress>))
    ensures !bound ==> r == (StatusBadRequest, [])
    ensures bound ==> r.0 == StatusCreated && r.1 == Select(w.progress, q)
  {
    if !bound then (StatusBadRequest, []) else (StatusCreated, Select(w.progress, q))
  }

  /** GET /submission/current: 500 on any error, otherwise 201. */
  function GetCurrentStageEndpoint(w: World, user: Uuid): (r: (int, Option<StageInfo>))
    ensures GetCurrentStage(w, user).Err? <==> r == (StatusInternal, None)
    ensures GetCurrentStage(w, user).Ok? ==> r == (StatusCreated, Some(GetCurrentStage(w, user).value))
  {
    match GetCurrentStage(w, user)
    case Err(_) => (StatusInternal, None)
    case Ok(info) => (StatusCreated, Some(info))
  }
}
