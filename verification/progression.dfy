/** How the submission operations compose: what a team can do next after a
    submission is filed or reviewed. These relate several calls of the
    services, over a world whose primary keys are well formed. */
module Progression {
  import opened Wrappers
  import opened Seqs
  import opened Text
  import opened Domain
  import opened Repositories
  import opened SubmissionRepository
  import opened SubmissionService

  /** A record of a stage with a higher order than the team's current record
      becomes the team's current record. */
  lemma CurrentAfterAppend(stages: seq<Stage>, records: seq<Progress>, team: Uuid, x: Progress)
    requires Joined(stages, x, team)
    requires var c := CurrentRecord(stages, records, team);
             c.Some? ==> JoinedOrder(stages, records[c.value]) < JoinedOrder(stages, x)
    ensures CurrentRecord(stages, records + [x], team) == Some(|records|)
  {
    var all := records + [x];
    assert all[|records|] == x;
    CurrentInAppend(stages, records, x, team, |records|);
    var best := CurrentRecord(stages, records, team);
    if best.Some? {
      assert all[best.value] == records[best.value];
    }
  }

  /** Appending a record leaves the choice among the records before it alone. */
  lemma {:induction false} CurrentInAppend(stages: seq<Stage>, records: seq<Progress>, x: Progress, team: Uuid, n: nat)
    requires n <= |records|
    ensures CurrentIn(stages, records + [x], team, n) == CurrentIn(stages, records, team, n)
    decreases n
  {
    if n > 0 {
      CurrentInAppend(stages, records, x, team, n - 1);
      assert (records + [x])[n - 1] == records[n - 1];
    }
  }

  /** A stage found by its ID has a positive ID in a well-formed world. */
  lemma FoundStageIdPositive(w: World, id: int)
    requires ValidWorld(w)
    requires StageById(w.stages, id).Some?
    ensures id > 0
  {
    var st := StageById(w.stages, id).value;
    var k :| 0 <= k < |w.stages| && w.stages[k] == st;
  }

  /** A non-zero next stage offered to a team with a record is the catalog
      successor of its current record's stage. */
  lemma OfferedStageIsSuccessor(w: World, user: Uuid)
    requires ValidWorld(w)
    requires GetCurrentStage(w, user).Ok? && GetCurrentStage(w, user).value.nextId != 0
    requires CurrentRecord(w.stages, w.progress, TeamByUser(w.teams, user).value.id).Some?
    ensures var team := TeamByUser(w.teams, user).value;
            var s := w.progress[CurrentRecord(w.stages, w.progress, team.id).value].stageId;
            var next := NextStage(w.stages, s, team.competition);
            next.Ok? && GetCurrentStage(w, user).value.nextId == next.value.id
  {
    var team := TeamByUser(w.teams, user).value;
    var s := w.progress[CurrentRecord(w.stages, w.progress, team.id).value].stageId;
    assert team.id != "" by {
      var k :| 0 <= k < |w.teams| && w.teams[k] == team;
    }
    var all := Select(w.progress, Query("", 0, team.id));
    TeamLookupHead(w.progress, team.id);
    assert GetCurrentStage(w, user) == GetCurrentStageFrom(w, team, s, all);
  }

  /** Every record the team already has lies on a stage of lower order than
      the stage GetCurrentStage offers for the next submission. */
  lemma NextStageIsNewest(w: World, user: Uuid)
    requires ValidWorld(w)
    requires GetCurrentStage(w, user).Ok?
    requires StageById(w.stages, GetCurrentStage(w, user).value.nextId).Some?
    ensures var info := GetCurrentStage(w, user).value;
            var team := TeamByUser(w.teams, user).value;
            forall j :: 0 <= j < |w.progress| && Joined(w.stages, w.progress[j], team.id) ==>
              JoinedOrder(w.stages, w.progress[j]) < StageById(w.stages, info.nextId).value.order
  {
    var info := GetCurrentStage(w, user).value;
    var team := TeamByUser(w.teams, user).value;
    var c := CurrentRecord(w.stages, w.progress, team.id);
    FoundStageIdPositive(w, info.nextId);
    if c.Some? {
      var s := w.progress[c.value].stageId;
      OfferedStageIsSuccessor(w, user);
      var n := NextStage(w.stages, s, team.competition).value;
      var k :| 0 <= k < |w.stages| && w.stages[k] == n;
      StageByIdFinds(w.stages, k);
    }
  }

  /** A next stage with a deadline other than the zero time is a stage of
      the catalog: only the placeholder "no next stage" carries the zero time. */
  lemma OfferedStageExists(w: World, user: Uuid)
    requires GetCurrentStage(w, user).Ok?
    requires GetCurrentStage(w, user).value.nextDeadline != ZeroTime
    ensures StageById(w.stages, GetCurrentStage(w, user).value.nextId).Some?
  {
    var team := TeamByUser(w.teams, user).value;
    var info := GetCurrentStage(w, user).value;
    var st: Stage;
    match CurrentRecord(w.stages, w.progress, team.id)
    case None =>
      st := FirstStage(w.stages, team.competition).value;
    case Some(c) =>
      var all := Select(w.progress, Query("", 0, team.id));
      assert w.progress[c] in all;
      st := NextStage(w.stages, w.progress[c].stageId, team.competition).value;
    assert st in w.stages && st.id == info.nextId;
  }

  /** A submission filed after the zero time lies on a stage of the catalog. */
  lemma SubmittedStageExists(w: World, user: Uuid, link: string, now: Time)
    requires CreateSubmission(w, user, link, now).Ok?
    requires now > ZeroTime
    ensures StageById(w.stages, GetCurrentStage(w, user).value.nextId).Some?
  {
    OfferedStageExists(w, user);
  }

  /** A record on a stage where its team holds none keeps the table at one
      record per stage. */
  lemma AppendKeepsOneRecordPerStage(stages: seq<Stage>, records: seq<Progress>, x: Progress)
    requires OneRecordPerStage(stages, records)
    requires StageById(stages, x.stageId).Some? ==>
               forall j :: 0 <= j < |records| && records[j].team == x.team ==> records[j].stageId != x.stageId
    ensures OneRecordPerStage(stages, records + [x])
  {
    var all := records + [x];
    forall i, j | 0 <= i < |all| && 0 <= j < |all| && all[i].team == all[j].team
                  && all[i].stageId == all[j].stageId && StageById(stages, all[i].stageId).Some?
      ensures i == j
    {
      if i < |records| && j < |records| {
        assert all[i] == records[i] && all[j] == records[j];
      }
    }
  }

  /** Filing a submission keeps every team at one record per stage: the
      stage it is filed under lies above every record the team holds. */
  lemma CreateSubmissionKeepsOneRecordPerStage(w: World, user: Uuid, link: string, now: Time, w2: World)
    requires ValidWorld(w)
    requires OneRecordPerStage(w.stages, w.progress)
    requires CreateSubmission(w, user, link, now) == Ok(w2)
    ensures OneRecordPerStage(w2.stages, w2.progress)
  {
    var info := GetCurrentStage(w, user).value;
    var team := TeamByUser(w.teams, user).value;
    var x := Progress(info.nextId, Processing, team.id, link);
    assert w2 == w.(progress := w.progress + [x]);
    if StageById(w.stages, info.nextId).Some? {
      NextStageIsNewest(w, user);
      forall j | 0 <= j < |w.progress| && w.progress[j].team == team.id
        ensures w.progress[j].stageId != info.nextId
      {
        if w.progress[j].stageId == info.nextId {
          assert Joined(w.stages, w.progress[j], team.id);
        }
      }
    }
    AppendKeepsOneRecordPerStage(w.stages, w.progress, x);
  }

  /** A review changes statuses only, so it keeps one record per stage. */
  lemma ReviewKeepsOneRecordPerStage(w: World, team: string, stageText: string, status: ProgressStatus)
    requires OneRecordPerStage(w.stages, w.progress)
    ensures var w2 := UpdateStatusSubmission(w, team, stageText, status);
            OneRecordPerStage(w2.stages, w2.progress)
  {
  }

  /** Once a submission for a stage is filed, a second one is refused as
      still under review, whatever its link and time. */
  lemma ResubmissionWaitsForReview(w: World, user: Uuid, link: string, now: Time, w2: World, link2: string, now2: Time)
    requires ValidWorld(w)
    requires CreateSubmission(w, user, link, now) == Ok(w2)
    requires now > ZeroTime
    ensures CreateSubmission(w2, user, link2, now2) == Err(SubmissionProcessing)
  {
    var info := GetCurrentStage(w, user).value;
    var team := TeamByUser(w.teams, user).value;
    SubmittedStageExists(w, user, link, now);
    var x := Progress(info.nextId, Processing, team.id, link);
    assert w2 == w.(progress := w.progress + [x]);
    assert team.id != "" by {
      var k :| 0 <= k < |w.teams| && w.teams[k] == team;
    }
    FoundStageIdPositive(w, info.nextId);
    NextStageIsNewest(w, user);
    CurrentAfterAppend(w.stages, w.progress, team.id, x);
    assert TeamByUser(w2.teams, user) == Some(team);
    var info2 := GetCurrentStage(w2, user).value;
    assert info2.currentId == info.nextId;
    var q := Query("", info.nextId, team.id);
    assert forall j :: 0 <= j < |w.progress| ==> !Matching(q)(w.progress[j]) by {
      forall j | 0 <= j < |w.progress|
        ensures !Matching(q)(w.progress[j])
      {
        if Matches(q, w.progress[j]) {
          assert Joined(w.stages, w.progress[j], team.id);
        }
      }
    }
    FilterNone(w.progress, Matching(q));
    SelectAppend(w.progress, x, q);
    assert Select(w2.progress, q) == [x];
  }

  /** After a reviewer marks the team's current stage "tidak lolos", the next
      submission is refused as not having passed the previous stage. */
  lemma FailedReviewBlocksSubmission(w: World, user: Uuid, link: string, now: Time)
    requires ValidWorld(w)
    requires TeamByUser(w.teams, user).Some?
    requires CurrentRecord(w.stages, w.progress, TeamByUser(w.teams, user).value.id).Some?
    ensures var team := TeamByUser(w.teams, user).value;
            var s := w.progress[CurrentRecord(w.stages, w.progress, team.id).value].stageId;
            CreateSubmission(UpdateStatusSubmission(w, team.id, IntText(s), Failed), user, link, now)
              == Err(NotPassedPrevious)
  {
    var team := TeamByUser(w.teams, user).value;
    var c := CurrentRecord(w.stages, w.progress, team.id).value;
    var s := w.progress[c].stageId;
    var w2 := UpdateStatusSubmission(w, team.id, IntText(s), Failed);
    UpdateStatusKeepsCurrent(w.stages, w.progress, team.id, IntText(s), Failed, team.id);
    assert TeamByUser(w2.teams, user) == Some(team);
    FoundStageIdPositive(w, s);
    var q := Query("", s, team.id);
    TargetsExactlyOneStage(w.progress[c], team.id, s);
    assert Matches(q, w2.progress[c]);
    var subs := Select(w2.progress, q);
    assert |subs| > 0;
    var j :| 0 <= j < |w2.progress| && w2.progress[j] == subs[0];
    TargetsExactlyOneStage(w.progress[j], team.id, s);
    assert subs[0].status == Failed;
  }

  /** The update changes no record's team, so the team's earliest record
      stays where it was. */
  lemma UpdateKeepsEarliest(records: seq<Progress>, team: string, stageText: string, status: ProgressStatus, who: Uuid)
    ensures EarliestRecord(UpdateStatus(records, team, stageText, status), who) == EarliestRecord(records, who)
  {
    var updated := UpdateStatus(records, team, stageText, status);
    var r1 := EarliestRecord(updated, who);
    var r2 := EarliestRecord(records, who);
    if r1.Some? && r2.Some? {
      assert !(r1.value < r2.value) && !(r2.value < r1.value);
    }
  }

  /** After a reviewer marks the current stage "lolos", GetCurrentStage offers
      the catalog successor, provided the team's earliest record is on that
      stage (the one whose status it consults). */
  lemma PassedReviewOpensNextStage(w: World, user: Uuid)
    requires ValidWorld(w)
    requires TeamByUser(w.teams, user).Some?
    requires CurrentRecord(w.stages, w.progress, TeamByUser(w.teams, user).value.id).Some?
    requires var team := TeamByUser(w.teams, user).value;
             var e := EarliestRecord(w.progress, team.id);
             e.Some? && w.progress[e.value].stageId == w.progress[CurrentRecord(w.stages, w.progress, team.id).value].stageId
    ensures var team := TeamByUser(w.teams, user).value;
            var s := w.progress[CurrentRecord(w.stages, w.progress, team.id).value].stageId;
            GetCurrentStage(UpdateStatusSubmission(w, team.id, IntText(s), Passed), user)
              == Ok(NextInfo(s, NextStage(w.stages, s, team.competition)))
  {
    var team := TeamByUser(w.teams, user).value;
    var c := CurrentRecord(w.stages, w.progress, team.id).value;
    var s := w.progress[c].stageId;
    var w2 := UpdateStatusSubmission(w, team.id, IntText(s), Passed);
    assert team.id != "" by {
      var k :| 0 <= k < |w.teams| && w.teams[k] == team;
    }
    UpdateStatusKeepsCurrent(w.stages, w.progress, team.id, IntText(s), Passed, team.id);
    UpdateKeepsEarliest(w.progress, team.id, IntText(s), Passed, team.id);
    assert TeamByUser(w2.teams, user) == Some(team);
    var e := EarliestRecord(w.progress, team.id).value;
    TargetsExactlyOneStage(w.progress[e], team.id, s);
    assert w2.progress[e].status == Passed;
    PassedEarliestOffersSuccessor(w2, user);
  }

  /** When the team's earliest record passed, GetCurrentStage offers exactly
      the catalog successor of the current record's stage. */
  lemma PassedEarliestOffersSuccessor(w: World, user: Uuid)
    requires ValidWorld(w)
    requires TeamByUser(w.teams, user).Some?
    requires CurrentRecord(w.stages, w.progress, TeamByUser(w.teams, user).value.id).Some?
    requires var e := EarliestRecord(w.progress, TeamByUser(w.teams, user).value.id);
             e.Some? && w.progress[e.value].status == Passed
    ensures var team := TeamByUser(w.teams, user).value;
            var s := w.progress[CurrentRecord(w.stages, w.progress, team.id).value].stageId;
            GetCurrentStage(w, user) == Ok(NextInfo(s, NextStage(w.stages, s, team.competition)))
  {
    var team := TeamByUser(w.teams, user).value;
    var s := w.progress[CurrentRecord(w.stages, w.progress, team.id).value].stageId;
    assert team.id != "" by {
      var k :| 0 <= k < |w.teams| && w.teams[k] == team;
    }
    var all := Select(w.progress, Query("", 0, team.id));
    TeamLookupHead(w.progress, team.id);
    assert all[0].status == Passed;
    assert GetCurrentStage(w, user) == GetCurrentStageFrom(w, team, s, all);
  }

  /** The flip side: when the team's earliest record is on another stage and
      did not pass, passing the current stage still offers no next stage. */
  lemma EarlierRecordHoldsBack(w: World, user: Uuid)
    requires ValidWorld(w)
    requires TeamByUser(w.teams, user).Some?
    requires CurrentRecord(w.stages, w.progress, TeamByUser(w.teams, user).value.id).Some?
    requires var team := TeamByUser(w.teams, user).value;
             var e := EarliestRecord(w.progress, team.id);
             e.Some? && w.progress[e.value].stageId != w.progress[CurrentRecord(w.stages, w.progress, team.id).value].stageId
             && w.progress[e.value].status != Passed
    ensures var team := TeamByUser(w.teams, user).value;
            var s := w.progress[CurrentRecord(w.stages, w.progress, team.id).value].stageId;
            GetCurrentStage(UpdateStatusSubmission(w, team.id, IntText(s), Passed), user)
              == Ok(StageInfo(s, 0, 0, ZeroTime))
  {
    var team := TeamByUser(w.teams, user).value;
    var c := CurrentRecord(w.stages, w.progress, team.id).value;
    var s := w.progress[c].stageId;
    var w2 := UpdateStatusSubmission(w, team.id, IntText(s), Passed);
    assert team.id != "" by {
      var k :| 0 <= k < |w.teams| && w.teams[k] == team;
    }
    UpdateStatusKeepsCurrent(w.stages, w.progress, team.id, IntText(s), Passed, team.id);
    UpdateKeepsEarliest(w.progress, team.id, IntText(s), Passed, team.id);
    assert TeamByUser(w2.teams, user) == Some(team);
    var e := EarliestRecord(w.progress, team.id).value;
    TargetsExactlyOneStage(w.progress[e], team.id, s);
    assert w2.progress[e] == w.progress[e];
    var all := Select(w2.progress, Query("", 0, team.id));
    TeamLookupHead(w2.progress, team.id);
    assert all[0].status != Passed;
    assert GetCurrentStage(w2, user) == GetCurrentStageFrom(w2, team, s, all);
  }
}
