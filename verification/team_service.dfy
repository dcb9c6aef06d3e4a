/** The team service (internal/service/team.go): the progress resolver that
    places the synthetic payment stage and works out a team's current and
    next stage, the admin view of a team's current stage, and UpsertTeam. */
module TeamService {
  import opened Wrappers
  import opened Seqs
  import opened Text
  import opened Domain
  import opened Repositories
  import opened SubmissionRepository

  const PaymentStageName := "Pembayaran"

  /** The payment stage's name as the resolver compares it, lower-cased. */
  lemma PaymentNameLowered()
    ensures Lower(PaymentStageName) == "pembayaran"
  {
    var l := Lower(PaymentStageName);
    assert l[0] == 'p';
    assert forall i :: 1 <= i < 10 ==> l[i] == PaymentStageName[i];
  }

  // ------------------------------------------------- payment placement

  /** Where a competition puts the payment stage, decided by substrings of
      its lower-cased name: "ui"/"ux" first, "bp"/"business" second. */
  datatype Placement = Prepend | AfterFirst | Omit

  function PlacementOf(competitionName: string): (r: Placement)
    ensures r == Prepend <==> Contains(Lower(competitionName), "ui") || Contains(Lower(competitionName), "ux")
    ensures r == Omit <==>
              !Contains(Lower(competitionName), "ui") && !Contains(Lower(competitionName), "ux")
              && !Contains(Lower(competitionName), "bp") && !Contains(Lower(competitionName), "business")
  {
    var name := Lower(competitionName);
    if Contains(name, "ui") || Contains(name, "ux") then Prepend
    else if Contains(name, "bp") || Contains(name, "business") then AfterFirst
    else Omit
  }

  /** The placement ignores letter case: a name and its lower-cased form
      put the payment row in the same place. */
  lemma PlacementIgnoresCase(competitionName: string)
    ensures PlacementOf(Lower(competitionName)) == PlacementOf(competitionName)
  {
    LowerIdempotent(competitionName);
  }

  /** The index the payment row takes in a list that had `n` rows. */
  function PaymentIndex(p: Placement, n: nat): Option<nat> {
    match p
    case Prepend => Some(0)
    case AfterFirst => Some(if n >= 1 then 1 else 0)
    case Omit => None
  }

  /** The synthetic payment row: the team status as its status, the user's
      payment proof as its link, and the deadline of the catalog stage it is
      placed in front of (zero when there is none). */
  function PaymentRow(team: Team, proof: string, rows: seq<Row>, p: Placement): (r: Row)
    ensures r.stageId == 0 && r.name == PaymentStageName
    ensures r.status == Payment(team.status) && r.link == proof
    ensures p == Prepend && |rows| >= 1 ==> r.deadline == rows[0].deadline
    ensures p == AfterFirst && |rows| >= 2 ==> r.deadline == rows[1].deadline
    ensures (p == Prepend && |rows| == 0) || (p == AfterFirst && |rows| < 2) || p == Omit ==> r.deadline == ZeroTime
  {
    var deadline :=
      match p
      case Prepend => if |rows| >= 1 then rows[0].deadline else ZeroTime
      case AfterFirst => if |rows| >= 2 then rows[1].deadline else ZeroTime
      case Omit => ZeroTime;
    Row(0, PaymentStageName, deadline, proof, Payment(team.status))
  }

  /** The rows with the payment row spliced in at its placement's index. */
  function WithPayment(rows: seq<Row>, pay: Row, p: Placement): (r: seq<Row>)
    ensures PaymentIndex(p, |rows|).None? ==> r == rows
    ensures PaymentIndex(p, |rows|).Some? ==>
              var k := PaymentIndex(p, |rows|).value;
              k <= |rows| && |r| == |rows| + 1 && r[k] == pay && r[..k] == rows[..k] && r[k + 1..] == rows[k..]
  {
    match p
    case Prepend => [pay] + rows
    case AfterFirst =>
      if |rows| >= 1 then rows[..1] + [pay] + rows[1..] else rows + [pay]
    case Omit => rows
  }

  /** Taking the payment row back out gives the catalog rows unchanged. */
  lemma PaymentRowRemovable(rows: seq<Row>, pay: Row, p: Placement)
    requires PaymentIndex(p, |rows|).Some?
    ensures RemoveAt(WithPayment(rows, pay, p), PaymentIndex(p, |rows|).value) == rows
  {
    var k := PaymentIndex(p, |rows|).value;
    assert rows == rows[..k] + rows[k..];
  }

  /** Every row of the spliced list other than the payment row is one of
      the catalog rows. */
  lemma WithPaymentKeepsRows(rows: seq<Row>, pay: Row, p: Placement)
    requires PaymentIndex(p, |rows|).Some?
    ensures var r := WithPayment(rows, pay, p);
            forall i :: 0 <= i < |r| && i != PaymentIndex(p, |rows|).value ==> r[i] in rows
  {
    var k := PaymentIndex(p, |rows|).value;
    var r := WithPayment(rows, pay, p);
    forall i | 0 <= i < |r| && i != k
      ensures r[i] in rows
    {
      if i < k {
        assert r[i] == r[..k][i];
      } else {
        assert r[i] == r[k + 1..][i - k - 1];
      }
    }
  }

  // ------------------------------------------------ current-stage rules

  /** The resolver's test: the lower-cased status is "diproses" or "tidak lolos". */
  predicate Blocking(s: RowStatus) {
    var text := Lower(s.Text());
    text == "diproses" || text == "tidak lolos"
  }

  /** The statuses that hold a team in place, as enumerated values. */
  predicate Holds(s: RowStatus) {
    s == Recorded(Processing) || s == Recorded(Failed) || s == Payment(UnderReview)
  }

  /** The text test picks out exactly a processing or failed submission and
      a payment that is itself under review ("diproses"). */
  lemma BlockingStatuses(s: RowStatus)
    ensures Blocking(s) <==> Holds(s)
  {
    match s
    case NoRecord =>
    case Recorded(p) =>
      match p {
        case Processing => LowerFixesLowerCase("diproses");
        case Passed => assert |Lower(s.Text())| == 5;
        case Failed => LowerFixesLowerCase("tidak lolos");
      }
    case Payment(t) =>
      match t {
        case UnderReview => LowerFixesLowerCase("diproses");
        case Unverified => assert |Lower(s.Text())| == 19;
        case Verified => assert |Lower(s.Text())| == 13;
        case Rejected => assert |Lower(s.Text())| == 7;
      }
  }

  function BlockingRow(): Row -> bool {
    (x: Row) => Blocking(x.status)
  }

  /** The name of the row after index `i`, or "" when `i` is the last. */
  function NameAfter(rows: seq<Row>, i: nat): string {
    if i + 1 < |rows| then rows[i + 1].name else ""
  }

  /** Row `i` is named "pembayaran" (in any case) and has a successor. */
  predicate IsPaymentEntry(rows: seq<Row>, i: nat)
    requires i < |rows|
  {
    Lower(rows[i].name) == "pembayaran" && i + 1 < |rows|
  }

  function PaymentEntryFrom(rows: seq<Row>, from: nat): (r: Option<nat>)
    requires from <= |rows|
    ensures r.Some? ==> from <= r.value < |rows| && IsPaymentEntry(rows, r.value)
    ensures r.Some? ==> forall j :: from <= j < r.value ==> !IsPaymentEntry(rows, j)
    ensures r.None? ==> forall j :: from <= j < |rows| ==> !IsPaymentEntry(rows, j)
    decreases |rows| - from
  {
    if from == |rows| then None
    else if IsPaymentEntry(rows, from) then Some(from)
    else PaymentEntryFrom(rows, from + 1)
  }

  /** The name after the first "pembayaran" row that has a successor, or "". */
  function PaymentSuccessor(rows: seq<Row>): (r: string)
    ensures forall i :: 0 <= i < |rows| && IsPaymentEntry(rows, i) && (forall j :: 0 <= j < i ==> !IsPaymentEntry(rows, j))
              ==> r == rows[i + 1].name
    ensures (forall i :: 0 <= i < |rows| ==> !IsPaymentEntry(rows, i)) ==> r == ""
  {
    match PaymentEntryFrom(rows, 0)
    case None => ""
    case Some(i) => rows[i + 1].name
  }

  predicate NoneHolds(rows: seq<Row>) {
    forall i :: 0 <= i < |rows| ==> !Holds(rows[i].status)
  }

  /** A resolved current stage: its ID and name and the next stage's name. */
  datatype Position = Position(id: int, name: string, next: string)

  /** The three rules in order: the first row that holds the team, else the
      payment stage for a team that is not verified, else the catalog walk. */
  function ResolvePosition(rows: seq<Row>, status: TeamStatus, walk: Result<Position, Error>): (r: Result<Position, Error>)
    ensures r.Err? ==> r == walk
  {
    match FirstIndex(rows, BlockingRow())
    case Some(i) => Ok(Position(rows[i].stageId, rows[i].name, NameAfter(rows, i)))
    case None =>
      if status != Verified then Ok(Position(0, PaymentStageName, PaymentSuccessor(rows)))
      else walk
  }

  /** The resolver picks the first row that holds the team; with none, the
      payment stage for a team that is not verified and the catalog walk
      for a verified one. */
  lemma ResolvePositionMeaning(rows: seq<Row>, status: TeamStatus, walk: Result<Position, Error>)
    ensures var r := ResolvePosition(rows, status, walk);
            && (forall i :: 0 <= i < |rows| && Holds(rows[i].status) && (forall j :: 0 <= j < i ==> !Holds(rows[j].status))
                  ==> r == Ok(Position(rows[i].stageId, rows[i].name, NameAfter(rows, i))))
            && (NoneHolds(rows) && status != Verified ==> r == Ok(Position(0, PaymentStageName, PaymentSuccessor(rows))))
            && (NoneHolds(rows) && status == Verified ==> r == walk)
  {
    match FirstIndex(rows, BlockingRow()) {
      case Some(i) =>
        BlockingStatuses(rows[i].status);
        forall k | 0 <= k < |rows| && Holds(rows[k].status) && (forall j :: 0 <= j < k ==> !Holds(rows[j].status))
          ensures k == i
        {
          BlockingStatuses(rows[k].status);
          assert !BlockingRow()(rows[k]) ==> k > i;
        }
      case None =>
        forall k | 0 <= k < |rows|
          ensures !Holds(rows[k].status)
        {
          BlockingStatuses(rows[k].status);
          assert !BlockingRow()(rows[k]);
        }
    }
  }

  /** The name of the stage after stage `id`, or "" when there is none. */
  function NextName(stages: seq<Stage>, id: int, comp: int): string {
    match NextStage(stages, id, comp)
    case Ok(n) => n.name
    case Err(_) => ""
  }

  /** The first of the team's records at stage `s` says "lolos". */
  predicate FirstRecordPassed(records: seq<Progress>, team: Uuid, s: int) {
    var subs := Select(records, Query("", s, team));
    |subs| > 0 && subs[0].status == Passed
  }

  /** The catalog walk for a verified team that nothing holds (see
      CatalogWalkMeaning). */
  function CatalogWalk(stages: seq<Stage>, records: seq<Progress>, team: Team): (r: Result<Position, Error>)
    ensures r.Err? ==> r.error == NotFound
  {
    var comp := team.competition;
    var c := CurrentRecord(stages, records, team.id);
    if c.None? || records[c.value].stageId == 0 then
      match FirstStage(stages, comp)
      case Err(e) => Err(e)
      case Ok(f) => Ok(Position(f.id, f.name, NextName(stages, f.id, comp)))
    else
      var s := records[c.value].stageId;
      match StageById(stages, s)
      case None => Err(NotFound)
      case Some(cur) =>
        if FirstRecordPassed(records, team.id, s) then
          match NextStage(stages, s, comp)
          case Ok(n) => Ok(Position(n.id, n.name, NextName(stages, n.id, comp)))
          case Err(_) => Ok(Position(cur.id, cur.name, ""))
        else Ok(Position(cur.id, cur.name, NextName(stages, s, comp)))
  }

  /** The walk's answer: the first stage when the team has no record; past
      the current record's stage when that record passed and a later stage
      exists; on it otherwise. */
  lemma CatalogWalkMeaning(stages: seq<Stage>, records: seq<Progress>, team: Team)
    ensures var r := CatalogWalk(stages, records, team);
            && (CurrentRecord(stages, records, team.id).None? ==>
                  (r.Err? <==> forall j :: 0 <= j < |stages| ==> stages[j].competition != team.competition))
            && (CurrentRecord(stages, records, team.id).None? && r.Ok? ==>
                  exists st :: IsFirstStage(stages, team.competition, st)
                    && r.value == Position(st.id, st.name, NextName(stages, st.id, team.competition)))
            && (CurrentRecord(stages, records, team.id).Some? ==>
                  var s := records[CurrentRecord(stages, records, team.id).value].stageId;
                  var cur := StageById(stages, s).value;
                  s != 0 ==>
                    && r.Ok?
                    && (FirstRecordPassed(records, team.id, s) && NextStage(stages, s, team.competition).Ok? ==>
                          exists st :: IsNextStage(stages, team.competition, cur, st)
                            && r.value == Position(st.id, st.name, NextName(stages, st.id, team.competition)))
                    && (FirstRecordPassed(records, team.id, s) && NextStage(stages, s, team.competition).Err? ==>
                          r.value == Position(s, cur.name, "")
                          && forall j :: 0 <= j < |stages| && stages[j].competition == team.competition ==> stages[j].order <= cur.order)
                    && (!FirstRecordPassed(records, team.id, s) ==>
                          r.value == Position(s, cur.name, NextName(stages, s, team.competition))))
  {
    var comp := team.competition;
    var c := CurrentRecord(stages, records, team.id);
    if c.None? || records[c.value].stageId == 0 {
      match FirstStage(stages, comp) {
        case Err(_) =>
        case Ok(f) =>
          assert IsFirstStage(stages, comp, f);
      }
    } else {
      var s := records[c.value].stageId;
      var cur := StageById(stages, s).value;
      if FirstRecordPassed(records, team.id, s) && NextStage(stages, s, comp).Ok? {
        assert IsNextStage(stages, comp, cur, NextStage(stages, s, comp).value);
      }
    }
  }

  // ------------------------------------------------------ getProgress

  /** A team's progress page: nothing when the team is unknown. */
  datatype ProgressView =
    | NoTeam
    | View(competition: string, payment: TeamStatus, currentId: int, current: string, next: string, rows: seq<Row>)

  /** The team the page is about: looked up by team ID for an admin and by
      the owning user's ID otherwise. */
  function ProgressTeam(w: World, id: Uuid, isAdmin: bool): (r: Option<Team>)
    ensures r.Some? ==> r.value in w.teams && (if isAdmin then r.value.id == id else r.value.user == id)
    ensures r.None? ==> forall i :: 0 <= i < |w.teams| ==> (if isAdmin then w.teams[i].id != id else w.teams[i].user != id)
  {
    if isAdmin then TeamById(w.teams, id) else TeamByUser(w.teams, id)
  }

  /** The user a team belongs to, or the zero user when there is none. */
  function Owner(w: World, team: Team): (r: User)
    ensures r == NoUser || (r in w.users && (team.user == "" || r.id == team.user))
    ensures (forall i :: 0 <= i < |w.users| ==> team.user != "" && w.users[i].id != team.user) ==> r == NoUser
  {
    match UserById(w.users, team.user)
    case None => NoUser
    case Some(u) => u
  }

  /** The page's list: the competition's stages with the team's records,
      and the payment row where the competition's name puts it. */
  function ProgressRows(w: World, team: Team, proof: string, compName: string): (r: seq<Row>)
    ensures PlacementOf(compName) == Omit ==> r == AllStageView(w.stages, w.progress, team.id, team.competition)
    ensures PlacementOf(compName) != Omit ==> |r| == |AllStageView(w.stages, w.progress, team.id, team.competition)| + 1
  {
    var view := AllStageView(w.stages, w.progress, team.id, team.competition);
    var p := PlacementOf(compName);
    WithPayment(view, PaymentRow(team, proof, view, p), p)
  }

  /** The payment row is the list's only Payment row, present exactly when
      the name selects a placement, and removing it gives back the catalog
      rows. */
  lemma ProgressRowsShape(w: World, team: Team, proof: string, compName: string)
    ensures var r := ProgressRows(w, team, proof, compName);
            var view := AllStageView(w.stages, w.progress, team.id, team.competition);
            var p := PlacementOf(compName);
            && (p == Omit ==> r == view)
            && (p != Omit ==>
                  var k := PaymentIndex(p, |view|).value;
                  && |r| == |view| + 1
                  && r[k] == PaymentRow(team, proof, view, p)
                  && RemoveAt(r, k) == view
                  && forall i :: 0 <= i < |r| && r[i].status.Payment? ==> i == k)
  {
    var view := AllStageView(w.stages, w.progress, team.id, team.competition);
    var p := PlacementOf(compName);
    SplicedShape(view, PaymentRow(team, proof, view, p), p);
  }

  /** Splicing a payment row into rows that have none: it becomes the only
      payment row, at its placement's index, and removing it gives the rows
      back. */
  lemma SplicedShape(rows: seq<Row>, pay: Row, p: Placement)
    requires forall i :: 0 <= i < |rows| ==> !rows[i].status.Payment?
    ensures var r := WithPayment(rows, pay, p);
            && (p == Omit ==> r == rows)
            && (p != Omit ==>
                  var k := PaymentIndex(p, |rows|).value;
                  && |r| == |rows| + 1
                  && r[k] == pay
                  && RemoveAt(r, k) == rows
                  && forall i :: 0 <= i < |r| && r[i].status.Payment? ==> i == k)
  {
    if p != Omit {
      PaymentRowRemovable(rows, pay, p);
      WithPaymentKeepsRows(rows, pay, p);
    }
  }

  /** getProgress: the team's stage list with its current and next stage
      (see GetProgressView). */
  function GetProgress(w: World, id: Uuid, isAdmin: bool): (r: Result<ProgressView, Error>)
    ensures ProgressTeam(w, id, isAdmin).None? <==> r == Ok(NoTeam)
    ensures r.Err? ==> r.error == NotFound
    ensures ProgressTeam(w, id, isAdmin).Some? && CompetitionById(w.competitions, ProgressTeam(w, id, isAdmin).value.competition).None? ==>
              r == Err(NotFound)
  {
    PageOf(w, ProgressTeam(w, id, isAdmin))
  }

  /** The page for the team a lookup found: the empty answer when it found
      none, NotFound when the team's competition is unknown. */
  function PageOf(w: World, found: Option<Team>): (r: Result<ProgressView, Error>)
    ensures found.None? <==> r == Ok(NoTeam)
    ensures r.Err? ==> r.error == NotFound
  {
    match found
    case None => Ok(NoTeam)
    case Some(team) =>
      match CompetitionById(w.competitions, team.competition)
      case None => Err(NotFound)
      case Some(comp) => TeamProgress(w, team, comp)
  }

  /** The page of a team whose competition is known. */
  function TeamProgress(w: World, team: Team, comp: Competition): (r: Result<ProgressView, Error>)
    ensures r.Err? ==> r.error == NotFound
    ensures r.Ok? ==> r.value.View?
  {
    var rows := ProgressRows(w, team, Owner(w, team).paymentProof, comp.name);
    match ResolvePosition(rows, team.status, CatalogWalk(w.stages, w.progress, team))
    case Err(e) => Err(e)
    case Ok(pos) => Ok(View(comp.name, team.status, pos.id, pos.name, pos.next, rows))
  }

  /** A page that is shown carries the team's payment status, its
      competition's name, the rows of ProgressRows for the owner's payment
      proof, and the position the three rules resolve on those rows. */
  lemma GetProgressView(w: World, id: Uuid, isAdmin: bool)
    ensures var r := GetProgress(w, id, isAdmin);
            r.Ok? && r.value.View? ==>
              var team := ProgressTeam(w, id, isAdmin).value;
              var comp := CompetitionById(w.competitions, team.competition).value;
              && r.value.payment == team.status
              && r.value.competition == comp.name
              && r.value.rows == ProgressRows(w, team, Owner(w, team).paymentProof, comp.name)
              && ResolvePosition(r.value.rows, team.status, CatalogWalk(w.stages, w.progress, team))
                   == Ok(Position(r.value.currentId, r.value.current, r.value.next))
  {
  }

  // ---------------------------------------------------- GetTeamByID

  /** The admin view's current stage: its name, a status text and its deadline. */
  datatype StageNow = StageNow(stage: string, status: string, deadline: Time)

  const NoStage := Stage(0, "", 0, 0, ZeroTime)
  const UnverifiedNotice := "Akun belum terverifikasi"

  /** GetTeamByID's stage-now block. A team without a record is shown the
      stage with ID 1 (not the competition's first stage); its status is the
      first of the team's records at the shown stage, "diproses" when there
      is none, and the notice for any team that is not verified. A
      competition without stages shows an empty block. */
  function AdminStageNow(stages: seq<Stage>, records: seq<Progress>, team: Team): (r: StageNow)
    ensures CurrentRecord(stages, records, team.id).None? && FirstStage(stages, team.competition).Err? ==>
              r == StageNow("", "", ZeroTime)
  {
    var c := CurrentRecord(stages, records, team.id);
    if c.None? && FirstStage(stages, team.competition).Err? then StageNow("", "", ZeroTime)
    else
      var id := if c.None? then 1 else records[c.value].stageId;
      var stage := match StageById(stages, id) case Some(st) => st case None => NoStage;
      var subs := Select(records, Query("", stage.id, team.id));
      var status :=
        if team.status != Verified then UnverifiedNotice
        else if |subs| == 0 then ProgressStatus.Processing.Text()
        else subs[0].status.Text();
      StageNow(stage.name, status, stage.deadline)
  }

  /** With no record and no stage in the competition the block is empty;
      otherwise it carries the notice exactly when the team is not verified. */
  lemma AdminStageNowNotice(stages: seq<Stage>, records: seq<Progress>, team: Team)
    ensures var r := AdminStageNow(stages, records, team);
            && (CurrentRecord(stages, records, team.id).None? && FirstStage(stages, team.competition).Err? ==>
                  r == StageNow("", "", ZeroTime))
            && (CurrentRecord(stages, records, team.id).Some? || FirstStage(stages, team.competition).Ok? ==>
                  (team.status != Verified <==> r.status == UnverifiedNotice))
  {
  }

  /** A verified team is shown its current record's stage, with the status
      of its first record there in store order. */
  lemma AdminStageNowShowsCurrent(stages: seq<Stage>, records: seq<Progress>, team: Team)
    requires team.id != "" && team.status == Verified
    requires CurrentRecord(stages, records, team.id).Some?
    requires records[CurrentRecord(stages, records, team.id).value].stageId != 0
    ensures var s := records[CurrentRecord(stages, records, team.id).value].stageId;
            var st := StageById(stages, s).value;
            var r := AdminStageNow(stages, records, team);
            && r.stage == st.name && r.deadline == st.deadline
            && exists k :: 0 <= k < |records| && records[k].team == team.id && records[k].stageId == s
                 && r.status == records[k].status.Text()
                 && forall j :: 0 <= j < k ==> !(records[j].team == team.id && records[j].stageId == s)
  {
    var c := CurrentRecord(stages, records, team.id).value;
    var s := records[c].stageId;
    var q := Query("", s, team.id);
    assert Matches(q, records[c]);
    assert records[c] in Select(records, q);
    FilterHead(records, Matching(q));
    var k := FirstIndex(records, Matching(q)).value;
    assert Matching(q)(records[k]);
  }

  /** A verified team without any record sees "diproses" at the stage with
      ID 1, or at no stage when there is no stage 1. */
  lemma AdminStageNowWithoutRecords(stages: seq<Stage>, records: seq<Progress>, team: Team)
    requires team.id != "" && team.status == Verified
    requires forall j :: 0 <= j < |records| ==> records[j].team != team.id
    requires FirstStage(stages, team.competition).Ok?
    ensures var r := AdminStageNow(stages, records, team);
            && r.status == "diproses"
            && (StageById(stages, 1).Some? ==> r.stage == StageById(stages, 1).value.name)
            && (StageById(stages, 1).None? ==> r.stage == "" && r.deadline == ZeroTime)
  {
    var stage := match StageById(stages, 1) case Some(st) => st case None => NoStage;
    FilterNone(records, Matching(Query("", stage.id, team.id)));
  }

  /** GetTeamByID's answer. */
  datatype AdminTeamView = AdminTeamView(
    teamName: string,
    competitionName: string,
    leaderName: string,
    studentNumber: string,
    payment: TeamStatus,
    paymentProof: string,
    members: seq<Member>,
    stageNow: StageNow)

  /** GetTeamByID: nothing (the empty answer) for an unknown team; the
      competition name is empty when the competition is unknown. */
  function GetTeamById(w: World, teamId: Uuid): (r: Option<AdminTeamView>)
    ensures r.None? <==> forall i :: 0 <= i < |w.teams| ==> w.teams[i].id != teamId
    ensures r.Some? ==>
              var team := TeamById(w.teams, teamId).value;
              && r.value.teamName == team.name
              && r.value.payment == team.status
              && r.value.leaderName == Owner(w, team).fullName
              && (forall i :: 0 <= i < |r.value.members| ==> r.value.members[i] in w.members && r.value.members[i].team == teamId)
              && (forall j :: 0 <= j < |w.members| && w.members[j].team == teamId ==> w.members[j] in r.value.members)
              && r.value.stageNow == AdminStageNow(w.stages, w.progress, team)
  {
    match TeamById(w.teams, teamId)
    case None => None
    case Some(team) => Some(AdminViewOf(w, team))
  }

  /** The admin view of a team that was found. */
  function AdminViewOf(w: World, team: Team): (r: AdminTeamView)
    ensures r.teamName == team.name && r.payment == team.status
  {
    var user := Owner(w, team);
    var compName := match CompetitionById(w.competitions, team.competition) case Some(c) => c.name case None => "";
    AdminTeamView(team.name, compName, user.fullName, user.studentNumber, team.status, user.paymentProof,
                  MembersOf(w.members, team.id), AdminStageNow(w.stages, w.progress, team))
  }

  // --------------------------------------- the admin lookup as written

  /** GetTeamByID as the service calls it: through the repository lookup
      that preloads "Competition" and "TeamMember", which the Team entity
      does not declare. */
  function GetTeamByIdAsWritten(w: World, teamId: Uuid): (r: Option<AdminTeamView>)
    ensures r.Some? ==> PreloadingTeamById(w.teams, teamId, TeamByIdPreloads).Some?
  {
    match PreloadingTeamById(w.teams, teamId, TeamByIdPreloads)
    case None => None
    case Some(team) => Some(AdminViewOf(w, team))
  }

  /** getProgress as written: the admin branch goes through the same
      preloading lookup. */
  function GetProgressAsWritten(w: World, id: Uuid, isAdmin: bool): (r: Result<ProgressView, Error>)
    ensures !isAdmin ==> r == GetProgress(w, id, false)
  {
    PageOf(w, if isAdmin then PreloadingTeamById(w.teams, id, TeamByIdPreloads) else TeamByUser(w.teams, id))
  }

  /** The preload names no association of the Team entity, so the admin
      lookup fails for every team, including one that exists: both admin
      screens answer with the empty response, where the lookup by ID finds
      the team. */
  lemma AdminLookupAlwaysEmpty(w: World, teamId: Uuid)
    ensures GetTeamByIdAsWritten(w, teamId) == None
    ensures GetProgressAsWritten(w, teamId, true) == Ok(NoTeam)
    ensures (exists i :: 0 <= i < |w.teams| && w.teams[i].id == teamId) ==>
              GetTeamById(w, teamId).Some? && GetProgress(w, teamId, true) != Ok(NoTeam)
  {
    assert TeamByIdPreloads[0] !in TeamAssociations;
  }

  // ----------------------------------------------------- UpsertTeam

  const MaxMembers := 2
  const NewTeamCompetition := 1

  /** One member of the request body. */
  datatype MemberInput = MemberInput(name: string, studentNumber: string)

  function NewMembers(team: Uuid, ms: seq<MemberInput>): (r: seq<Member>)
    ensures |r| == |ms|
    ensures forall i :: 0 <= i < |r| ==> r[i] == Member(team, ms[i].name, ms[i].studentNumber)
  {
    seq(|ms|, i requires 0 <= i < |ms| => Member(team, ms[i].name, ms[i].studentNumber))
  }

  function NotOfTeam(team: Uuid): Member -> bool {
    (m: Member) => m.team != team
  }

  /** UpsertTeam: create the user's team, or rename it and replace its
      members wholesale. `newTeamId` is the requested UUID a creation uses. */
  function UpsertTeam(w: World, user: Uuid, name: string, ms: seq<MemberInput>, newTeamId: Uuid): (r: Result<World, Error>)
    ensures |ms| > MaxMembers ==> r == Err(TooManyMembers)
    ensures r.Err? <==> |ms| > MaxMembers || (TeamByUser(w.teams, user).None? && TeamNameExists(w.teams, name))
    ensures r.Err? ==> r.error == TooManyMembers || r.error == TeamNameTaken
    ensures r.Ok? ==> r.value.users == w.users && r.value.competitions == w.competitions
                      && r.value.stages == w.stages && r.value.progress == w.progress && r.value.otps == w.otps
    ensures r.Ok? && TeamByUser(w.teams, user).None? ==>
              TeamByUser(r.value.teams, user) == Some(Team(newTeamId, name, Unverified, user, NewTeamCompetition))
    ensures r.Ok? && TeamByUser(w.teams, user).Some? ==>
              TeamByUser(r.value.teams, user) == Some(TeamByUser(w.teams, user).value.(name := name))
    ensures r.Ok? ==> |r.value.teams| == |w.teams| + (if TeamByUser(w.teams, user).None? then 1 else 0)
    ensures r.Ok? && TeamIndexByUser(w.teams, user).None? ==>
              r.value.teams == w.teams + [Team(newTeamId, name, Unverified, user, NewTeamCompetition)]
    ensures r.Ok? && TeamIndexByUser(w.teams, user).Some? ==>
              var k := TeamIndexByUser(w.teams, user).value;
              r.value.teams == w.teams[k := w.teams[k].(name := name)]
  {
    if |ms| > MaxMembers then Err(TooManyMembers)
    else match TeamIndexByUser(w.teams, user)
      case None =>
        if TeamNameExists(w.teams, name) then Err(TeamNameTaken)
        else
          var team := Team(newTeamId, name, Unverified, user, NewTeamCompetition);
          var teams := w.teams + [team];
          assert teams[|w.teams|] == team;
          Ok(w.(teams := teams, members := w.members + NewMembers(newTeamId, ms)))
      case Some(k) =>
        var t := w.teams[k];
        var teams := w.teams[k := t.(name := name)];
        assert teams[k].user == user;
        Ok(w.(teams := teams, members := Filter(w.members, NotOfTeam(t.id)) + NewMembers(t.id, ms)))
  }

  /** After an upsert the team's members are exactly the requested ones, and
      every other team keeps its members. A creation's UUID is fresh. */
  lemma {:induction false} UpsertReplacesMembers(w: World, user: Uuid, name: string, ms: seq<MemberInput>, newTeamId: Uuid, other: Uuid)
    requires UpsertTeam(w, user, name, ms, newTeamId).Ok?
    requires forall j :: 0 <= j < |w.members| ==> w.members[j].team != newTeamId
    requires other != TeamByUser(UpsertTeam(w, user, name, ms, newTeamId).value.teams, user).value.id
    ensures var w' := UpsertTeam(w, user, name, ms, newTeamId).value;
            var id := TeamByUser(w'.teams, user).value.id;
            && MembersOf(w'.members, id) == NewMembers(id, ms)
            && MembersOf(w'.members, other) == MembersOf(w.members, other)
  {
    var w' := UpsertTeam(w, user, name, ms, newTeamId).value;
    var id := TeamByUser(w'.teams, user).value.id;
    var requested := NewMembers(id, ms);
    FilterAll(requested, OfTeam(id));
    FilterNone(requested, OfTeam(other));
    if TeamByUser(w.teams, user).None? {
      FilterConcat(w.members, requested, OfTeam(id));
      FilterNone(w.members, OfTeam(id));
      FilterConcat(w.members, requested, OfTeam(other));
    } else {
      var kept := Filter(w.members, NotOfTeam(id));
      FilterConcat(kept, requested, OfTeam(id));
      forall j | 0 <= j < |kept| ensures !OfTeam(id)(kept[j]) {
        assert kept[j] in kept;
      }
      FilterNone(kept, OfTeam(id));
      FilterConcat(kept, requested, OfTeam(other));
      FilterOfFilter(w.members, NotOfTeam(id), OfTeam(other));
    }
  }
}
