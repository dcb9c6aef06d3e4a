/** The submission service (internal/service/submission.go): the team's
    current-stage summary and the guard chain in front of a new submission. */
module SubmissionService {
  import opened Wrappers
  import opened Seqs
  import opened Domain
  import opened Repositories
  import opened SubmissionRepository

  /** model.ResStage: the current stage's ID and the order, ID and deadline
      of the stage a new submission would be filed under. */
  datatype StageInfo = StageInfo(currentId: int, nextOrder: int, nextId: int, nextDeadline: Time)

  /** The team's earliest record in store order, at any stage. */
  function EarliestRecord(records: seq<Progress>, team: Uuid): (r: Option<nat>)
    ensures r.Some? ==> r.value < |records| && records[r.value].team == team
    ensures r.Some? ==> forall j :: 0 <= j < r.value ==> records[j].team != team
    ensures r.None? <==> forall j :: 0 <= j < |records| ==> records[j].team != team
  {
    FirstIndex(records, (x: Progress) => x.team == team)
  }

  /** A lookup with every filter empty except the team's ID returns the
      team's records, headed by its earliest one. */
  lemma TeamLookupHead(records: seq<Progress>, team: Uuid)
    requires team != ""
    requires EarliestRecord(records, team).Some?
    ensures |Select(records, Query("", 0, team))| > 0
    ensures Select(records, Query("", 0, team))[0] == records[EarliestRecord(records, team).value]
  {
    var q := Query("", 0, team);
    var k := EarliestRecord(records, team).value;
    assert Matches(q, records[k]);
    assert records[k] in Select(records, q);
    FilterHead(records, Matching(q));
    FirstIndexAgree(records, Matching(q), (x: Progress) => x.team == team);
  }

  /** The summary a stage gives as the next one; all zeros for none. */
  function NextInfo(currentId: int, next: Result<Stage, Error>): StageInfo {
    match next
    case Ok(n) => StageInfo(currentId, n.order, n.id, n.deadline)
    case Err(_) => StageInfo(currentId, 0, 0, ZeroTime)
  }

  /** GetCurrentStage: the current stage's ID and the stage a new
      submission would be filed under (see GetCurrentStageMeaning). */
  function GetCurrentStage(w: World, user: Uuid): (r: Result<StageInfo, Error>)
    ensures r.Err? ==> r.error == NotFound
    ensures TeamByUser(w.teams, user).None? ==> r.Err?
  {
    match TeamByUser(w.teams, user)
    case None => Err(NotFound)
    case Some(team) =>
      match CurrentRecord(w.stages, w.progress, team.id)
      case None =>
        (match FirstStage(w.stages, team.competition)
         case Err(e) => Err(e)
         case Ok(f) => Ok(StageInfo(0, f.order, f.id, f.deadline)))
      case Some(c) =>
        var all := Select(w.progress, Query("", 0, team.id));
        assert w.progress[c] in all;
        GetCurrentStageFrom(w, team, w.progress[c].stageId, all)
  }

  /** What GetCurrentStage returns. Without a record the next stage is the
      competition's first and the current ID is 0. With one, the status
      consulted is that of the first record the lookup returns: its stage
      filter is the still unset current ID, so this is the team's earliest
      record at any stage. A "diproses" or "tidak lolos" there zeroes the next
      stage; otherwise the next stage is the catalog successor of the current
      record's stage. */
  lemma GetCurrentStageMeaning(w: World, user: Uuid)
    ensures var r := GetCurrentStage(w, user);
            TeamByUser(w.teams, user).Some? ==>
              var team := TeamByUser(w.teams, user).value;
              var c := CurrentRecord(w.stages, w.progress, team.id);
              && (c.None? ==> (r.Err? <==> forall j :: 0 <= j < |w.stages| ==> w.stages[j].competition != team.competition))
              && (c.None? && r.Ok? ==>
                    r.value.currentId == 0
                    && exists st :: IsFirstStage(w.stages, team.competition, st)
                         && r.value == StageInfo(0, st.order, st.id, st.deadline))
              && (c.Some? ==>
                    var s := w.progress[c.value].stageId;
                    var e := EarliestRecord(w.progress, team.id);
                    && r.Ok? && r.value.currentId == s
                    && (team.id != "" && e.Some? && w.progress[e.value].status != Passed ==>
                          r.value == StageInfo(s, 0, 0, ZeroTime))
                    && (team.id != "" && e.Some? && w.progress[e.value].status == Passed ==>
                          && (NextStage(w.stages, s, team.competition).Err? ==> r.value == StageInfo(s, 0, 0, ZeroTime))
                          && (NextStage(w.stages, s, team.competition).Ok? ==>
                                exists st :: IsNextStage(w.stages, team.competition, StageById(w.stages, s).value, st)
                                  && r.value == StageInfo(s, st.order, st.id, st.deadline))))
  {
    match TeamByUser(w.teams, user)
    case None =>
    case Some(team) =>
      match CurrentRecord(w.stages, w.progress, team.id)
      case None => {
        match FirstStage(w.stages, team.competition) {
          case Err(_) =>
          case Ok(f) =>
            assert IsFirstStage(w.stages, team.competition, f);
        }
      }
      case Some(c) =>
        if team.id != "" {
          TeamLookupHead(w.progress, team.id);
        }
  }

  function GetCurrentStageFrom(w: World, team: Team, s: int, all: seq<Progress>): (r: Result<StageInfo, Error>)
    requires |all| > 0
    ensures r.Ok? && r.value.currentId == s
    ensures all[0].status != Passed ==> r.value == StageInfo(s, 0, 0, ZeroTime)
    ensures all[0].status == Passed ==> r.value == NextInfo(s, NextStage(w.stages, s, team.competition))
  {
    match all[0].status
    case Processing => Ok(StageInfo(s, 0, 0, ZeroTime))
    case Failed => Ok(StageInfo(s, 0, 0, ZeroTime))
    case Passed => Ok(NextInfo(s, NextStage(w.stages, s, team.competition)))
  }

  const UiUxCompetition := 2
  const BusinessCompetition := 3

  /** The track gate on the stage fetched by ID `currentId + 1`: the design
      track wants a verified team; the business track wants an unverified
      team for an order-1 gate and a verified one otherwise; every other
      competition wants a verified team and an order-1 gate. */
  function Gate(competition: int, status: TeamStatus, gateOrder: int): (r: bool)
    ensures status == Verified ==>
              (r <==> competition == UiUxCompetition
                      || (competition == BusinessCompetition && gateOrder != 1)
                      || (competition != UiUxCompetition && competition != BusinessCompetition && gateOrder == 1))
    ensures status != Verified ==> (r <==> competition == BusinessCompetition && gateOrder == 1)
  {
    if competition == UiUxCompetition then status == Verified
    else if competition == BusinessCompetition then
      if gateOrder == 1 then status != Verified else status == Verified
    else status == Verified && gateOrder == 1
  }

  /** The guard chain of CreateSubmission once the team and its stage
      summary are known: the first denial that applies, or the world with one
      new "diproses" record for the next stage. `now` is the clock reading. */
  function Submit(w: World, team: Team, info: StageInfo, link: string, now: Time): (r: Result<World, Error>)
    ensures var subs := Select(w.progress, Query("", info.currentId, team.id));
            var held := |subs| > 0 && subs[0].status != Passed;
            && (|subs| > 0 && subs[0].status == Failed ==> r == Err(NotPassedPrevious))
            && (|subs| > 0 && subs[0].status == Processing ==> r == Err(SubmissionProcessing))
            && (!held && now > info.nextDeadline ==> r == Err(PassedDeadline))
            && (!held && now <= info.nextDeadline && team.status == Rejected ==> r == Err(UnverifiedAccount))
            && (!held && now <= info.nextDeadline && team.status != Rejected ==>
                  && (StageById(w.stages, info.currentId + 1).None? ==> r == Err(NotFound))
                  && (StageById(w.stages, info.currentId + 1).Some? ==>
                        (r.Ok? <==> Gate(team.competition, team.status, StageById(w.stages, info.currentId + 1).value.order))
                        && (r.Err? ==> r.error == UnverifiedAccount)))
    ensures r == Err(PassedDeadline) ==> now > info.nextDeadline
    ensures r.Ok? ==> r.value == w.(progress := w.progress + [Progress(info.nextId, Processing, team.id, link)])
  {
    var subs := Select(w.progress, Query("", info.currentId, team.id));
    if |subs| > 0 && subs[0].status.Failed? then Err(NotPassedPrevious)
    else if |subs| > 0 && subs[0].status.Processing? then Err(SubmissionProcessing)
    else if now > info.nextDeadline then Err(PassedDeadline)
    else if team.status == Rejected then Err(UnverifiedAccount)
    else match StageById(w.stages, info.currentId + 1)
      case None => Err(NotFound)
      case Some(gate) =>
        if !Gate(team.competition, team.status, gate.order) then Err(UnverifiedAccount)
        else Ok(w.(progress := w.progress + [Progress(info.nextId, Processing, team.id, link)]))
  }

  /** CreateSubmission: the current-stage summary's error, or the guard chain
      applied to the user's team and that summary. */
  function CreateSubmission(w: World, user: Uuid, link: string, now: Time): (r: Result<World, Error>)
    ensures GetCurrentStage(w, user).Err? ==> r == Err(GetCurrentStage(w, user).error)
    ensures GetCurrentStage(w, user).Ok? ==>
              TeamByUser(w.teams, user).Some? && r == Submit(w, TeamByUser(w.teams, user).value, GetCurrentStage(w, user).value, link, now)
  {
    match GetCurrentStage(w, user)
    case Err(e) => Err(e)
    case Ok(info) => Submit(w, TeamByUser(w.teams, user).value, info, link, now)
  }

  /** UpdateStatusSubmission passes the request to the repository unchanged. */
  function UpdateStatusSubmission(w: World, team: string, stageText: string, status: ProgressStatus): (r: World)
    ensures r.progress == UpdateStatus(w.progress, team, stageText, status)
    ensures r == w.(progress := r.progress)
  {
    w.(progress := UpdateStatus(w.progress, team, stageText, status))
  }
}
