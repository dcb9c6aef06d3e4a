/** The stage catalog and the team-progress table
    (internal/repository/submission.go) as queries and updates over the
    in-memory world. */
module SubmissionRepository {
  import opened Wrappers
  import opened Seqs
  import opened Text
  import opened Domain

  // ---------------------------------------------------------------- stages

  /** GetStage: the stage with primary key `id`. */
  function StageById(stages: seq<Stage>, id: int): (r: Option<Stage>)
    ensures r.Some? ==> r.value in stages && r.value.id == id
    ensures r.None? ==> forall i :: 0 <= i < |stages| ==> stages[i].id != id
  {
    First(stages, (s: Stage) => s.id == id)
  }

  /** Under distinct primary keys the lookup finds the stage itself. */
  lemma StageByIdFinds(stages: seq<Stage>, k: nat)
    requires k < |stages|
    requires forall i, j :: 0 <= i < j < |stages| ==> stages[i].id != stages[j].id
    ensures StageById(stages, stages[k].id) == Some(stages[k])
  {
    var r := StageById(stages, stages[k].id);
    var i :| 0 <= i < |stages| && stages[i] == r.value;
  }

  /** `ORDER BY stage_order ASC` with the stage ID breaking ties, as GORM's `First` adds it. */
  predicate Precedes(a: Stage, b: Stage) {
    a.order < b.order || (a.order == b.order && a.id <= b.id)
  }

  predicate Ascending(s: seq<Stage>) {
    forall i, j :: 0 <= i < j < |s| ==> Precedes(s[i], s[j])
  }

  function Insert(x: Stage, s: seq<Stage>): (r: seq<Stage>)
    requires Ascending(s)
    ensures Ascending(r)
    ensures |r| == |s| + 1
    ensures multiset(r) == multiset(s) + multiset{x}
    ensures forall y :: y in r <==> y in s || y == x
  {
    if |s| == 0 then [x]
    else if Precedes(x, s[0]) then [x] + s
    else
      var rest := Insert(x, s[1..]);
      assert forall k :: 0 <= k < |rest| ==> Precedes(s[0], rest[k]) by {
        forall k | 0 <= k < |rest|
          ensures Precedes(s[0], rest[k])
        {
          assert rest[k] in rest;
          if rest[k] != x {
            var m :| 0 <= m < |s[1..]| && s[1..][m] == rest[k];
            assert s[m + 1] == rest[k];
          }
        }
      }
      assert s == [s[0]] + s[1..];
      [s[0]] + rest
  }

  function Sort(xs: seq<Stage>): (r: seq<Stage>)
    ensures Ascending(r)
    ensures |r| == |xs|
    ensures multiset(r) == multiset(xs)
    ensures forall y :: y in r <==> y in xs
  {
    if |xs| == 0 then []
    else
      assert xs == [xs[0]] + xs[1..];
      Insert(xs[0], Sort(xs[1..]))
  }

  lemma AscendingHead(s: seq<Stage>, x: Stage)
    requires Ascending(s)
    requires x in s
    ensures Precedes(s[0], x)
  {
    var k :| 0 <= k < |s| && s[k] == x;
    if k > 0 {
      assert Precedes(s[0], s[k]);
    }
  }

  function InCompetition(comp: int): Stage -> bool {
    (s: Stage) => s.competition == comp
  }

  function LaterIn(comp: int, order: int): Stage -> bool {
    (s: Stage) => s.competition == comp && s.order > order
  }

  /** The stages of a competition in ascending stage order. */
  function CompetitionStages(stages: seq<Stage>, comp: int): (r: seq<Stage>)
    ensures Ascending(r)
    ensures forall i :: 0 <= i < |r| ==> r[i] in stages && r[i].competition == comp
    ensures forall j :: 0 <= j < |stages| && stages[j].competition == comp ==> stages[j] in r
  {
    var f := Filter(stages, InCompetition(comp));
    var r := Sort(f);
    assert forall i :: 0 <= i < |r| ==> r[i] in stages && r[i].competition == comp by {
      forall i | 0 <= i < |r|
        ensures r[i] in stages && r[i].competition == comp
      {
        assert r[i] in r;
        FilterMember(stages, InCompetition(comp), r[i]);
      }
    }
    r
  }

  /** The competition's stages are those of the catalog with that
      competition, each as often as the catalog holds it. */
  lemma CompetitionStagesCount(stages: seq<Stage>, comp: int, x: Stage)
    ensures multiset(CompetitionStages(stages, comp))[x] == if x.competition == comp then multiset(stages)[x] else 0
  {
    FilterMultiset(stages, InCompetition(comp), x);
  }

  /** `st` is the competition's first stage: no stage of it precedes `st`. */
  ghost predicate IsFirstStage(stages: seq<Stage>, comp: int, st: Stage) {
    && st in stages
    && st.competition == comp
    && forall j :: 0 <= j < |stages| && stages[j].competition == comp ==> Precedes(st, stages[j])
  }

  /** `st` is the stage after `cur`: the first of the competition's stages
      whose order is strictly greater than `cur`'s. */
  ghost predicate IsNextStage(stages: seq<Stage>, comp: int, cur: Stage, st: Stage) {
    && st in stages
    && st.competition == comp
    && st.order > cur.order
    && forall j :: 0 <= j < |stages| && stages[j].competition == comp && stages[j].order > cur.order
         ==> Precedes(st, stages[j])
  }

  /** Stages with distinct IDs that precede each other are the same stage. */
  lemma PrecedesAntisymmetric(stages: seq<Stage>, a: Stage, b: Stage)
    requires forall i, j :: 0 <= i < j < |stages| ==> stages[i].id != stages[j].id
    requires a in stages && b in stages
    requires Precedes(a, b) && Precedes(b, a)
    ensures a == b
  {
    var i :| 0 <= i < |stages| && stages[i] == a;
    var j :| 0 <= j < |stages| && stages[j] == b;
  }

  /** GetFirstStage: the competition's stage with the least order. */
  function FirstStage(stages: seq<Stage>, comp: int): (r: Result<Stage, Error>)
    ensures r.Ok? ==> r.value in stages && r.value.competition == comp
    ensures r.Ok? ==> forall j :: 0 <= j < |stages| && stages[j].competition == comp ==> Precedes(r.value, stages[j])
    ensures r.Err? ==> r.error == NotFound
    ensures r.Err? <==> forall j :: 0 <= j < |stages| ==> stages[j].competition != comp
  {
    var cs := CompetitionStages(stages, comp);
    if |cs| == 0 then Err(NotFound)
    else
      assert forall j :: 0 <= j < |stages| && stages[j].competition == comp ==> Precedes(cs[0], stages[j]) by {
        forall j | 0 <= j < |stages| && stages[j].competition == comp
          ensures Precedes(cs[0], stages[j])
        {
          AscendingHead(cs, stages[j]);
        }
      }
      Ok(cs[0])
  }

  /** GetNextStage: the least-order stage of the competition whose order is
      strictly greater than that of the stage with ID `currentId`. */
  function NextStage(stages: seq<Stage>, currentId: int, comp: int): (r: Result<Stage, Error>)
    ensures r.Err? ==> r.error == NotFound
    ensures StageById(stages, currentId).None? ==> r.Err?
    ensures r.Ok? ==> StageById(stages, currentId).Some?
    ensures r.Ok? ==> r.value in stages && r.value.competition == comp
    ensures r.Ok? ==> r.value.order > StageById(stages, currentId).value.order
    ensures r.Ok? ==> forall j :: 0 <= j < |stages| && stages[j].competition == comp
                        && stages[j].order > StageById(stages, currentId).value.order
                        ==> Precedes(r.value, stages[j])
    ensures StageById(stages, currentId).Some? && r.Err? ==>
              forall j :: 0 <= j < |stages| && stages[j].competition == comp
                ==> stages[j].order <= StageById(stages, currentId).value.order
  {
    match StageById(stages, currentId)
    case None => Err(NotFound)
    case Some(cur) =>
      var f := Filter(stages, LaterIn(comp, cur.order));
      var later := Sort(f);
      if |later| == 0 then Err(NotFound)
      else
        assert later[0] in later;
        FilterMember(stages, LaterIn(comp, cur.order), later[0]);
        assert forall j :: 0 <= j < |stages| && stages[j].competition == comp && stages[j].order > cur.order
                 ==> Precedes(later[0], stages[j]) by {
          forall j | 0 <= j < |stages| && stages[j].competition == comp && stages[j].order > cur.order
            ensures Precedes(later[0], stages[j])
          {
            assert stages[j] in f;
            AscendingHead(later, stages[j]);
          }
        }
        Ok(later[0])
  }

  /** With distinct stage IDs, GetFirstStage returns exactly the first stage. */
  lemma FirstStageExactly(stages: seq<Stage>, comp: int, st: Stage)
    requires forall i, j :: 0 <= i < j < |stages| ==> stages[i].id != stages[j].id
    ensures FirstStage(stages, comp) == Ok(st) <==> IsFirstStage(stages, comp, st)
  {
    if IsFirstStage(stages, comp, st) {
      var f := FirstStage(stages, comp);
      var k :| 0 <= k < |stages| && stages[k] == st;
      assert f.Ok?;
      assert Precedes(f.value, stages[k]);
      PrecedesAntisymmetric(stages, f.value, st);
    }
  }

  /** With distinct stage IDs, GetNextStage returns exactly the next stage. */
  lemma NextStageExactly(stages: seq<Stage>, cur: Stage, comp: int, st: Stage)
    requires forall i, j :: 0 <= i < j < |stages| ==> stages[i].id != stages[j].id
    requires cur in stages
    ensures NextStage(stages, cur.id, comp) == Ok(st) <==> IsNextStage(stages, comp, cur, st)
  {
    var k :| 0 <= k < |stages| && stages[k] == cur;
    StageByIdFinds(stages, k);
    if IsNextStage(stages, comp, cur, st) {
      var n := NextStage(stages, cur.id, comp);
      var m :| 0 <= m < |stages| && stages[m] == st;
      assert n.Ok?;
      assert Precedes(n.value, stages[m]);
      PrecedesAntisymmetric(stages, n.value, st);
    }
  }

  // ------------------------------------------------------- progress table

  /** The filter of GetSubmission; "" and 0 mean "not set". */
  datatype Query = Query(status: string, stageId: int, team: Uuid)

  predicate Matches(q: Query, x: Progress) {
    && (q.status == "" || x.status.Text() == q.status)
    && (q.stageId == 0 || x.stageId == q.stageId)
    && (q.team == "" || x.team == q.team)
  }

  function Matching(q: Query): Progress -> bool {
    (x: Progress) => Matches(q, x)
  }

  /** GetSubmission: the records satisfying every filter field that is set,
      in store order. */
  function Select(records: seq<Progress>, q: Query): (r: seq<Progress>)
    ensures forall i :: 0 <= i < |r| ==> r[i] in records
    ensures forall i :: 0 <= i < |r| ==> q.status == "" || r[i].status.Text() == q.status
    ensures forall i :: 0 <= i < |r| ==> q.stageId == 0 || r[i].stageId == q.stageId
    ensures forall i :: 0 <= i < |r| ==> q.team == "" || r[i].team == q.team
    ensures forall j :: 0 <= j < |records| && Matches(q, records[j]) ==> records[j] in r
  {
    Filter(records, Matching(q))
  }

  /** A record appended to the table joins the end of every result it matches. */
  lemma SelectAppend(records: seq<Progress>, x: Progress, q: Query)
    ensures Select(records + [x], q) == Select(records, q) + (if Matches(q, x) then [x] else [])
  {
    FilterConcat(records, [x], Matching(q));
    assert Filter([x], Matching(q)) == (if Matches(q, x) then [x] else []) by {
      assert [x][1..] == [];
    }
  }

  /** A record takes part in GetCurrentStage's inner join with the stages. */
  predicate Joined(stages: seq<Stage>, x: Progress, team: Uuid) {
    x.team == team && StageById(stages, x.stageId).Some?
  }

  function JoinedOrder(stages: seq<Stage>, x: Progress): int
    requires StageById(stages, x.stageId).Some?
  {
    StageById(stages, x.stageId).value.order
  }

  /** The highest-order joined record among the first `n`; on equal orders
      the earlier record (smaller primary key) wins. */
  function CurrentIn(stages: seq<Stage>, records: seq<Progress>, team: Uuid, n: nat): (r: Option<nat>)
    requires n <= |records|
    ensures r.Some? ==> r.value < n && Joined(stages, records[r.value], team)
    ensures r.Some? ==> forall j :: 0 <= j < n && Joined(stages, records[j], team) ==>
              JoinedOrder(stages, records[j]) < JoinedOrder(stages, records[r.value])
              || (JoinedOrder(stages, records[j]) == JoinedOrder(stages, records[r.value]) && r.value <= j)
    ensures r.None? ==> forall j :: 0 <= j < n ==> !Joined(stages, records[j], team)
    decreases n
  {
    if n == 0 then None
    else
      var best := CurrentIn(stages, records, team, n - 1);
      if !Joined(stages, records[n - 1], team) then best
      else if best.None? || JoinedOrder(stages, records[best.value]) < JoinedOrder(stages, records[n - 1]) then Some(n - 1)
      else best
  }

  /** GetCurrentStage: the index of the team's record whose stage has the
      highest order, or nothing (NotFound) when the team has none. */
  function CurrentRecord(stages: seq<Stage>, records: seq<Progress>, team: Uuid): (r: Option<nat>)
    ensures r.Some? ==> r.value < |records| && Joined(stages, records[r.value], team)
    ensures r.Some? ==> forall j :: 0 <= j < |records| && Joined(stages, records[j], team) ==>
              JoinedOrder(stages, records[j]) < JoinedOrder(stages, records[r.value])
              || (JoinedOrder(stages, records[j]) == JoinedOrder(stages, records[r.value]) && r.value <= j)
    ensures r.None? <==> forall j :: 0 <= j < |records| ==> !Joined(stages, records[j], team)
  {
    CurrentIn(stages, records, team, |records|)
  }

  /** Two tables that agree on every record's team and stage agree on the
      current record: the choice never looks at status or link. */
  lemma {:induction false} CurrentInIgnoresStatus(stages: seq<Stage>, a: seq<Progress>, b: seq<Progress>, team: Uuid, n: nat)
    requires |a| == |b| && n <= |a|
    requires forall i :: 0 <= i < |a| ==> a[i].team == b[i].team && a[i].stageId == b[i].stageId
    ensures CurrentIn(stages, a, team, n) == CurrentIn(stages, b, team, n)
    decreases n
  {
    if n > 0 {
      CurrentInIgnoresStatus(stages, a, b, team, n - 1);
    }
  }

  // ---------------------------------------------------- all-stage view

  function AtStage(team: Uuid, stageId: int): Progress -> bool {
    (x: Progress) => x.team == team && x.stageId == stageId
  }

  /** The team's records for one stage, in store order. */
  function RecordsAt(records: seq<Progress>, team: Uuid, stageId: int): (r: seq<Progress>)
    ensures forall i :: 0 <= i < |r| ==> r[i] in records && r[i].team == team && r[i].stageId == stageId
    ensures forall j :: 0 <= j < |records| && records[j].team == team && records[j].stageId == stageId ==> records[j] in r
  {
    Filter(records, AtStage(team, stageId))
  }

  /** The LEFT JOIN rows of one stage: one per matching record, or a single
      row with empty status and link when there is none. */
  function StageRows(st: Stage, recs: seq<Progress>): (r: seq<Row>)
    ensures |r| == if |recs| == 0 then 1 else |recs|
    ensures forall i :: 0 <= i < |r| ==> r[i].stageId == st.id && r[i].name == st.name && r[i].deadline == st.deadline
  {
    if |recs| == 0 then [Row(st.id, st.name, st.deadline, "", NoRecord)]
    else seq(|recs|, i requires 0 <= i < |recs| => Row(st.id, st.name, st.deadline, recs[i].link, Recorded(recs[i].status)))
  }

  function RowsFor(cs: seq<Stage>, records: seq<Progress>, team: Uuid): (r: seq<Row>)
    ensures |r| >= |cs|
    ensures forall i :: 0 <= i < |r| && r[i].status.Recorded? ==>
              Progress(r[i].stageId, r[i].status.progress, team, r[i].link) in records
    ensures forall i :: 0 <= i < |r| && r[i].status.NoRecord? ==>
              r[i].link == "" && forall j :: 0 <= j < |records| && records[j].team == team ==> records[j].stageId != r[i].stageId
    ensures forall i :: 0 <= i < |r| ==> !r[i].status.Payment?
    decreases |cs|
  {
    if |cs| == 0 then []
    else
      var recs := RecordsAt(records, team, cs[0].id);
      StageRows(cs[0], recs) + RowsFor(cs[1..], records, team)
  }

  /** GetSubmissionAllStage: every stage of the competition in ascending
      order, each with the team's matching record's status and link, or
      empty ones when the team has no record for it. */
  function AllStageView(stages: seq<Stage>, records: seq<Progress>, team: Uuid, comp: int): (r: seq<Row>)
    ensures |r| >= |CompetitionStages(stages, comp)|
    ensures forall i :: 0 <= i < |r| && r[i].status.Recorded? ==>
              Progress(r[i].stageId, r[i].status.progress, team, r[i].link) in records
    ensures forall i :: 0 <= i < |r| && r[i].status.NoRecord? ==>
              r[i].link == "" && forall j :: 0 <= j < |records| && records[j].team == team ==> records[j].stageId != r[i].stageId
    ensures forall i :: 0 <= i < |r| ==> !r[i].status.Payment?
  {
    RowsFor(CompetitionStages(stages, comp), records, team)
  }

  /** When the team has at most one record per stage, the view has exactly
      one row per stage of the competition, in the catalog's order. */
  lemma {:induction false} RowsForOnePerStage(cs: seq<Stage>, records: seq<Progress>, team: Uuid)
    requires forall k :: 0 <= k < |cs| ==> |RecordsAt(records, team, cs[k].id)| <= 1
    ensures |RowsFor(cs, records, team)| == |cs|
    ensures forall i :: 0 <= i < |cs| ==>
              RowsFor(cs, records, team)[i].stageId == cs[i].id
              && RowsFor(cs, records, team)[i].name == cs[i].name
              && RowsFor(cs, records, team)[i].deadline == cs[i].deadline
    decreases |cs|
  {
    if |cs| > 0 {
      RowsForOnePerStage(cs[1..], records, team);
      var head := StageRows(cs[0], RecordsAt(records, team, cs[0].id));
      assert |head| == 1;
      assert RowsFor(cs, records, team) == head + RowsFor(cs[1..], records, team);
    }
  }

  /** The rows of two catalogs laid end to end are the rows of the first
      followed by the rows of the second. */
  lemma {:induction false} RowsForConcat(a: seq<Stage>, b: seq<Stage>, records: seq<Progress>, team: Uuid)
    ensures RowsFor(a + b, records, team) == RowsFor(a, records, team) + RowsFor(b, records, team)
    decreases |a|
  {
    if |a| == 0 {
      assert a + b == b;
    } else {
      assert (a + b)[1..] == a[1..] + b;
      RowsForConcat(a[1..], b, records, team);
    }
  }

  /** Every stage of the catalog owns a block of rows, the rows of its own
      records, placed after the blocks of the stages before it and before
      the blocks of the stages after it. */
  lemma RowsForSplit(cs: seq<Stage>, records: seq<Progress>, team: Uuid, k: nat)
    requires k < |cs|
    ensures RowsFor(cs, records, team)
              == RowsFor(cs[..k], records, team)
                 + StageRows(cs[k], RecordsAt(records, team, cs[k].id))
                 + RowsFor(cs[k + 1..], records, team)
  {
    assert cs == cs[..k] + ([cs[k]] + cs[k + 1..]);
    RowsForConcat(cs[..k], [cs[k]] + cs[k + 1..], records, team);
    assert ([cs[k]] + cs[k + 1..])[1..] == cs[k + 1..];
  }

  /** No team holds two records for the same stage of the catalog. */
  ghost predicate OneRecordPerStage(stages: seq<Stage>, records: seq<Progress>) {
    forall i, j ::
      0 <= i < |records| && 0 <= j < |records| && records[i].team == records[j].team
      && records[i].stageId == records[j].stageId && StageById(stages, records[i].stageId).Some?
      ==> i == j
  }

  /** In a table with one record per stage, the all-stage view has exactly
      one row per stage of the competition, in ascending stage order. */
  lemma AllStageViewOnePerStage(stages: seq<Stage>, records: seq<Progress>, team: Uuid, comp: int)
    requires OneRecordPerStage(stages, records)
    ensures var cs := CompetitionStages(stages, comp);
            var r := AllStageView(stages, records, team, comp);
            && |r| == |cs|
            && forall i :: 0 <= i < |cs| ==> r[i].stageId == cs[i].id && r[i].name == cs[i].name && r[i].deadline == cs[i].deadline
  {
    var cs := CompetitionStages(stages, comp);
    forall k | 0 <= k < |cs|
      ensures |RecordsAt(records, team, cs[k].id)| <= 1
    {
      assert StageById(stages, cs[k].id).Some?;
      FilterAtMostOne(records, AtStage(team, cs[k].id));
    }
    RowsForOnePerStage(cs, records, team);
  }

  // ----------------------------------------------------- status update

  /** The rows UpdateStatusSubmission's WHERE clause selects. The stage ID
      arrives as path text and is compared with the column's decimal form. */
  predicate Targeted(x: Progress, team: string, stageText: string) {
    x.team == team && IntText(x.stageId) == stageText
  }

  /** UpdateStatusSubmission: set the status of every targeted record. */
  function UpdateStatus(records: seq<Progress>, team: string, stageText: string, status: ProgressStatus): (r: seq<Progress>)
    ensures |r| == |records|
    ensures forall i :: 0 <= i < |r| ==>
              r[i].stageId == records[i].stageId && r[i].team == records[i].team && r[i].link == records[i].link
    ensures forall i :: 0 <= i < |r| && Targeted(records[i], team, stageText) ==> r[i].status == status
    ensures forall i :: 0 <= i < |r| && !Targeted(records[i], team, stageText) ==> r[i] == records[i]
  {
    seq(|records|, i requires 0 <= i < |records| =>
      if Targeted(records[i], team, stageText) then records[i].(status := status) else records[i])
  }

  /** The update never moves the team's current stage. */
  lemma UpdateStatusKeepsCurrent(stages: seq<Stage>, records: seq<Progress>, team: string, stageText: string,
                                 status: ProgressStatus, who: Uuid)
    ensures CurrentRecord(stages, UpdateStatus(records, team, stageText, status), who) == CurrentRecord(stages, records, who)
  {
    CurrentInIgnoresStatus(stages, UpdateStatus(records, team, stageText, status), records, who, |records|);
  }

  /** The stage text of a record's own stage targets exactly that stage's records. */
  lemma TargetsExactlyOneStage(x: Progress, team: string, stageId: int)
    ensures Targeted(x, team, IntText(stageId)) <==> x.team == team && x.stageId == stageId
  {
    if Targeted(x, team, IntText(stageId)) {
      IntTextInjective(x.stageId, stageId);
    }
  }
}
