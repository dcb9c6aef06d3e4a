/** The row layouts of the Excel exports (internal/service/excel.go). The
    workbook itself is not modelled: a sheet is its data rows and the map
    from sheet row number to style ID, the style IDs being opaque integers. */
module ExcelService {
  import opened Wrappers
  import opened Seqs
  import opened Domain
  import opened Repositories

  /** Data rows start on sheet row 2, below the header. */
  const FirstDataRow := 2

  // ------------------------------------------------------ payment sheet

  /** One line of the payment sheet. */
  datatype PaymentLine = PaymentLine(
    no: int, name: string, email: string, studentNumber: string,
    teamName: string, registrationLink: string, payment: string)

  /** The name of the user's team as the preloaded association gives it. */
  function TeamNameOf(teams: seq<Team>, u: User): string {
    match TeamByUser(teams, u.id)
    case None => ""
    case Some(t) => t.name
  }

  function PaymentLineOf(teams: seq<Team>, u: User, no: int): PaymentLine {
    PaymentLine(no, u.fullName, u.email, u.studentNumber, TeamNameOf(teams, u), u.registrationLink, u.paymentProof)
  }

  /** ExportExcelPayment: one line per user in store order, numbered from 1,
      with row styles alternating from the "even" style on sheet row 2. */
  method PaymentSheet(users: seq<User>, teams: seq<Team>, even: int, odd: int) returns (rows: seq<PaymentLine>, styles: map<int, int>)
    ensures |rows| == |users|
    ensures forall i :: 0 <= i < |rows| ==> rows[i] == PaymentLineOf(teams, users[i], i + 1)
    ensures forall k :: k in styles <==> FirstDataRow <= k < FirstDataRow + |users|
    ensures forall k :: k in styles ==> styles[k] == (if (k - FirstDataRow) % 2 == 0 then even else odd)
  {
    rows, styles := [], map[];
    var no := 1;
    var rowIndex := 0;
    var toggle := 0;
    while rowIndex < |users|
      invariant 0 <= rowIndex <= |users|
      invariant no == rowIndex + 1
      invariant toggle == rowIndex % 2
      invariant |rows| == rowIndex
      invariant forall i :: 0 <= i < rowIndex ==> rows[i] == PaymentLineOf(teams, users[i], i + 1)
      invariant forall k :: k in styles <==> FirstDataRow <= k < FirstDataRow + rowIndex
      invariant forall k :: k in styles ==> styles[k] == (if (k - FirstDataRow) % 2 == 0 then even else odd)
    {
      rows := rows + [PaymentLineOf(teams, users[rowIndex], no)];
      var excelRow := rowIndex + FirstDataRow;
      if toggle == 0 {
        styles := styles[excelRow := even];
      } else {
        styles := styles[excelRow := odd];
      }
      no := no + 1;
      rowIndex := rowIndex + 1;
      toggle := 1 - toggle;
    }
  }

  // --------------------------------------------------------- team sheets

  /** A line of a team sheet: a team's first member carries the number,
      leader, team and competition; every further member only its name. */
  datatype TeamLine =
    | Lead(no: int, leader: string, team: string, competition: string, member: string)
    | Continuation(member: string)

  /** The lines of one team. */
  function Block(no: int, leader: string, team: string, competition: string, ms: seq<Member>): (r: seq<TeamLine>)
    ensures |r| == |ms|
    ensures forall i :: 0 <= i < |r| ==> r[i].member == ms[i].name
  {
    seq(|ms|, i requires 0 <= i < |ms| =>
      if i == 0 then Lead(no, leader, team, competition, ms[i].name) else Continuation(ms[i].name))
  }

  /** A team has exactly one line per member, none when it has no members;
      only the first carries the number, leader, team and competition. */
  lemma BlockLines(no: int, leader: string, team: string, competition: string, ms: seq<Member>)
    ensures var r := Block(no, leader, team, competition, ms);
            && |r| == |ms|
            && (|ms| > 0 ==> r[0] == Lead(no, leader, team, competition, ms[0].name))
            && (forall i :: 0 < i < |ms| ==> r[i] == Continuation(ms[i].name))
  {
  }

  /** A team in export order with the user whose row introduced it. */
  datatype Entry = Entry(leader: User, team: Team)

  function TeamIds(d: seq<Entry>): set<Uuid> {
    set k | 0 <= k < |d| :: d[k].team.id
  }

  /** The teams of ExportExcelTeam in the order of their users: a user
      without a team is skipped, and so is a team already listed. */
  function DistinctTeams(users: seq<User>, teams: seq<Team>): (d: seq<Entry>)
    ensures |d| <= |users|
    decreases |users|
  {
    if |users| == 0 then []
    else
      var last := users[|users| - 1];
      var prev := DistinctTeams(users[..|users| - 1], teams);
      match TeamByUser(teams, last.id)
      case None => prev
      case Some(t) => if t.id in TeamIds(prev) then prev else prev + [Entry(last, t)]
  }

  predicate TeamsUnique(d: seq<Entry>) {
    forall i, j :: 0 <= i < j < |d| ==> d[i].team.id != d[j].team.id
  }

  /** Every team is listed at most once. */
  lemma {:induction false} DistinctTeamsUnique(users: seq<User>, teams: seq<Team>)
    ensures TeamsUnique(DistinctTeams(users, teams))
    decreases |users|
  {
    if |users| > 0 {
      var prev := DistinctTeams(users[..|users| - 1], teams);
      DistinctTeamsUnique(users[..|users| - 1], teams);
      var found := TeamByUser(teams, users[|users| - 1].id);
      if found.Some? && found.value.id !in TeamIds(prev) {
        var d := prev + [Entry(users[|users| - 1], found.value)];
        assert forall i :: 0 <= i < |prev| ==> d[i] == prev[i] && prev[i].team.id in TeamIds(prev);
      } else {
        assert DistinctTeams(users, teams) == prev;
      }
    }
  }

  /** Each listed team is the team of the user that introduced it, and every
      user with a team has that team listed. */
  lemma {:induction false} DistinctTeamsComplete(users: seq<User>, teams: seq<Team>)
    ensures var d := DistinctTeams(users, teams);
            && (forall k :: 0 <= k < |d| ==> d[k].leader in users && TeamByUser(teams, d[k].leader.id) == Some(d[k].team))
            && (forall j :: 0 <= j < |users| && TeamByUser(teams, users[j].id).Some? ==>
                  TeamByUser(teams, users[j].id).value.id in TeamIds(d))
    decreases |users|
  {
    if |users| > 0 {
      var init := users[..|users| - 1];
      var prev := DistinctTeams(init, teams);
      DistinctTeamsComplete(init, teams);
      var d := DistinctTeams(users, teams);
      assert forall k :: 0 <= k < |prev| ==> d[k] == prev[k];
      assert TeamIds(prev) <= TeamIds(d);
      forall k | 0 <= k < |prev| ensures prev[k].leader in users {
        assert prev[k].leader in init;
      }
      forall j | 0 <= j < |users| && TeamByUser(teams, users[j].id).Some?
        ensures TeamByUser(teams, users[j].id).value.id in TeamIds(d)
      {
        if j < |users| - 1 {
          assert users[j] == init[j];
        } else if |d| > |prev| {
          assert d[|prev|].team.id in TeamIds(d);
        }
      }
    }
  }

  /** Reading one more user extends the listing by that user's team, if it
      has one not listed yet. */
  lemma DistinctTeamsStep(users: seq<User>, teams: seq<Team>, i: nat)
    requires i < |users|
    ensures var prev := DistinctTeams(users[..i], teams);
            var found := TeamByUser(teams, users[i].id);
            DistinctTeams(users[..i + 1], teams)
              == if found.Some? && found.value.id !in TeamIds(prev) then prev + [Entry(users[i], found.value)] else prev
  {
    assert users[..i + 1][..i] == users[..i];
    assert users[..i + 1][i] == users[i];
  }

  lemma TeamIdsSnoc(d: seq<Entry>, e: Entry)
    ensures TeamIds(d + [e]) == TeamIds(d) + {e.team.id}
  {
    assert forall k :: 0 <= k < |d| ==> (d + [e])[k] == d[k];
    assert (d + [e])[|d|] == e;
  }

  /** The listing of a prefix of the users is a prefix of the full listing. */
  lemma {:induction false} DistinctTeamsPrefix(users: seq<User>, teams: seq<Team>, n: nat)
    requires n <= |users|
    ensures var d := DistinctTeams(users, teams);
            var e := DistinctTeams(users[..n], teams);
            |e| <= |d| && d[..|e|] == e
    decreases |users|
  {
    if n < |users| {
      var init := users[..|users| - 1];
      assert init[..n] == users[..n];
      DistinctTeamsPrefix(init, teams, n);
    } else {
      assert users[..n] == users;
    }
  }

  /** The lines of the listed teams, the k-th numbered `no + k`, or the
      store's not-found error when a listed team's competition is missing. */
  function Sheet(d: seq<Entry>, no: int, members: seq<Member>, competitions: seq<Competition>): (r: Result<seq<TeamLine>, Error>)
    ensures r.Err? ==> r.error == NotFound
    decreases |d|
  {
    if |d| == 0 then Ok([])
    else
      var e := d[|d| - 1];
      match Sheet(d[..|d| - 1], no, members, competitions)
      case Err(err) => Err(err)
      case Ok(rows) =>
        match CompetitionById(competitions, e.team.competition)
        case None => Err(NotFound)
        case Some(c) => Ok(rows + Block(no + |d| - 1, e.leader.fullName, e.team.name, c.name, MembersOf(members, e.team.id)))
  }

  /** A team sheet fails exactly when some listed team's competition is
      missing. */
  lemma {:induction false} SheetFails(d: seq<Entry>, no: int, members: seq<Member>, competitions: seq<Competition>)
    ensures Sheet(d, no, members, competitions).Err? <==>
              exists k :: 0 <= k < |d| && CompetitionById(competitions, d[k].team.competition).None?
    decreases |d|
  {
    if |d| > 0 {
      var init := d[..|d| - 1];
      SheetFails(init, no, members, competitions);
      assert forall k :: 0 <= k < |init| ==> init[k] == d[k];
    }
  }

  /** One more listed team adds its block at the end, numbered after every
      team before it, whether or not those had members. */
  lemma SheetSnoc(d: seq<Entry>, e: Entry, no: int, members: seq<Member>, competitions: seq<Competition>)
    requires Sheet(d, no, members, competitions).Ok?
    requires CompetitionById(competitions, e.team.competition).Some?
    ensures Sheet(d + [e], no, members, competitions)
              == Ok(Sheet(d, no, members, competitions).value
                    + Block(no + |d|, e.leader.fullName, e.team.name,
                            CompetitionById(competitions, e.team.competition).value.name, MembersOf(members, e.team.id)))
  {
    var longer := d + [e];
    assert longer[..|longer| - 1] == d;
    assert longer[|longer| - 1] == e;
  }

  /** The style every data row of a team sheet gets: sheet rows 2 to n + 1. */
  method RowStyleMap(n: nat, style: int) returns (m: map<int, int>)
    ensures forall k :: k in m <==> FirstDataRow <= k <= n + 1
    ensures forall k :: k in m ==> m[k] == style
  {
    m := map[];
    var i := FirstDataRow;
    while i <= n + 1
      invariant FirstDataRow <= i <= n + 2
      invariant forall k :: k in m <==> FirstDataRow <= k < i
      invariant forall k :: k in m ==> m[k] == style
    {
      m := m[i := style];
      i := i + 1;
    }
  }

  /** A user who brings a new team whose competition is missing makes the
      whole team sheet fail. */
  lemma TeamSheetFailsAt(users: seq<User>, teams: seq<Team>, members: seq<Member>, competitions: seq<Competition>, i: nat)
    requires i < |users|
    requires TeamByUser(teams, users[i].id).Some?
    requires TeamByUser(teams, users[i].id).value.id !in TeamIds(DistinctTeams(users[..i], teams))
    requires CompetitionById(competitions, TeamByUser(teams, users[i].id).value.competition).None?
    ensures Sheet(DistinctTeams(users, teams), 1, members, competitions) == Err(NotFound)
  {
    var prev := DistinctTeams(users[..i], teams);
    var team := TeamByUser(teams, users[i].id).value;
    var next := prev + [Entry(users[i], team)];
    DistinctTeamsStep(users, teams, i);
    assert DistinctTeams(users[..i + 1], teams) == next;
    DistinctTeamsPrefix(users, teams, i + 1);
    var d := DistinctTeams(users, teams);
    assert d[..|next|] == next;
    assert d[|prev|] == d[..|next|][|prev|] == Entry(users[i], team);
    SheetFails(d, 1, members, competitions);
  }

  /** A user who brings a new team whose competition exists adds that team's
      block, numbered after the teams listed so far. */
  lemma TeamRowsStep(users: seq<User>, teams: seq<Team>, members: seq<Member>, competitions: seq<Competition>, i: nat)
    requires i < |users|
    requires Sheet(DistinctTeams(users[..i], teams), 1, members, competitions).Ok?
    requires TeamByUser(teams, users[i].id).Some?
    requires TeamByUser(teams, users[i].id).value.id !in TeamIds(DistinctTeams(users[..i], teams))
    requires CompetitionById(competitions, TeamByUser(teams, users[i].id).value.competition).Some?
    ensures var prev := DistinctTeams(users[..i], teams);
            var next := DistinctTeams(users[..i + 1], teams);
            var team := TeamByUser(teams, users[i].id).value;
            && |next| == |prev| + 1
            && TeamIds(next) == TeamIds(prev) + {team.id}
            && Sheet(next, 1, members, competitions)
                 == Ok(Sheet(prev, 1, members, competitions).value
                       + Block(|prev| + 1, users[i].fullName, team.name,
                               CompetitionById(competitions, team.competition).value.name, MembersOf(members, team.id)))
  {
    var prev := DistinctTeams(users[..i], teams);
    var team := TeamByUser(teams, users[i].id).value;
    DistinctTeamsStep(users, teams, i);
    SheetSnoc(prev, Entry(users[i], team), 1, members, competitions);
    TeamIdsSnoc(prev, Entry(users[i], team));
  }

  /** ExportExcelTeam: walk the users once, skipping users without a team
      and teams already seen, numbering each new team; stop at the first
      team whose competition is missing. */
  method TeamRows(users: seq<User>, teams: seq<Team>, members: seq<Member>, competitions: seq<Competition>)
    returns (r: Result<seq<TeamLine>, Error>)
    ensures r == Sheet(DistinctTeams(users, teams), 1, members, competitions)
  {
    var rows: seq<TeamLine> := [];
    var seen: set<Uuid> := {};
    var no := 1;
    var i := 0;
    while i < |users|
      invariant 0 <= i <= |users|
      invariant Walked(users, teams, members, competitions, i, seen, no, rows)
    {
      var stop;
      stop, seen, no, rows := Visit(users, teams, members, competitions, i, seen, no, rows);
      if stop {
        return Err(NotFound);
      }
      i := i + 1;
    }
    assert users[..i] == users;
    r := Ok(rows);
  }

  /** The state of the export loop after the first `i` users: the teams seen,
      the next team number and the lines so far. */
  ghost predicate Walked(users: seq<User>, teams: seq<Team>, members: seq<Member>, competitions: seq<Competition>,
                         i: nat, seen: set<Uuid>, no: int, rows: seq<TeamLine>)
    requires i <= |users|
  {
    var listed := DistinctTeams(users[..i], teams);
    && seen == TeamIds(listed)
    && no == |listed| + 1
    && Sheet(listed, 1, members, competitions).Ok?
    && Sheet(listed, 1, members, competitions).value == rows
  }

  /** One iteration of the export loop: the user at `i` is skipped, stops
      the export, or adds a numbered team. */
  method Visit(users: seq<User>, teams: seq<Team>, members: seq<Member>, competitions: seq<Competition>,
               i: nat, seen: set<Uuid>, no: int, rows: seq<TeamLine>)
    returns (stop: bool, seen': set<Uuid>, no': int, rows': seq<TeamLine>)
    requires i < |users|
    requires Walked(users, teams, members, competitions, i, seen, no, rows)
    ensures stop ==> Sheet(DistinctTeams(users, teams), 1, members, competitions) == Err(NotFound)
    ensures !stop ==> Walked(users, teams, members, competitions, i + 1, seen', no', rows')
  {
    var user := users[i];
    DistinctTeamsStep(users, teams, i);
    var found := TeamByUser(teams, user.id);
    if found.None? || found.value.id in seen {
      return false, seen, no, rows;
    }
    var team := found.value;
    var comp := CompetitionById(competitions, team.competition);
    if comp.None? {
      TeamSheetFailsAt(users, teams, members, competitions, i);
      return true, seen, no, rows;
    }
    TeamRowsStep(users, teams, members, competitions, i);
    stop := false;
    seen' := seen + {team.id};
    no' := no + 1;
    rows' := rows + Block(no, user.fullName, team.name, comp.value.name, MembersOf(members, team.id));
  }

  /** The team sheet with the style of its data rows, or the error that
      stopped it. */
  method TeamSheet(users: seq<User>, teams: seq<Team>, members: seq<Member>, competitions: seq<Competition>, style: int)
    returns (r: Result<seq<TeamLine>, Error>, styles: map<int, int>)
    ensures r == Sheet(DistinctTeams(users, teams), 1, members, competitions)
    ensures r.Ok? ==> forall k :: k in styles <==> FirstDataRow <= k <= |r.value| + 1
    ensures r.Ok? ==> forall k :: k in styles ==> styles[k] == style
    ensures r.Err? ==> styles == map[]
  {
    r := TeamRows(users, teams, members, competitions);
    styles := map[];
    if r.Ok? {
      styles := RowStyleMap(|r.value|, style);
    }
  }

  /** ExportExcelCompetitionByID: the competition's teams in store order,
      each introduced by its owner; the store's error when the competition
      or a team's owner is missing. */
  function CompetitionSheet(w: World, competition: int): (r: Result<seq<TeamLine>, Error>)
    ensures CompetitionById(w.competitions, competition).None? ==> r == Err(NotFound)
    ensures r.Err? ==> r.error == NotFound
    ensures CompetitionById(w.competitions, competition).Some? ==>
              (r.Err? <==> exists j :: 0 <= j < |w.teams| && w.teams[j].competition == competition
                                       && UserById(w.users, w.teams[j].user).None?)
  {
    match CompetitionById(w.competitions, competition)
    case None => Err(NotFound)
    case Some(c) =>
      CompetitionLines(Filter(w.teams, OfCompetition(competition)), 1, c.name, w.users, w.members)
  }

  function OfCompetition(competition: int): Team -> bool {
    (t: Team) => t.competition == competition
  }

  /** A team of the competition stored after the others, with an owner, adds
      its own block at the end of the sheet, numbered after the teams before
      it; every earlier line stays as it was. */
  lemma CompetitionSheetSnoc(w: World, competition: int, t: Team)
    requires CompetitionSheet(w, competition).Ok?
    requires t.competition == competition
    requires UserById(w.users, t.user).Some?
    ensures CompetitionSheet(w.(teams := w.teams + [t]), competition)
              == Ok(CompetitionSheet(w, competition).value
                    + Block(1 + |Filter(w.teams, OfCompetition(competition))|, UserById(w.users, t.user).value.fullName,
                            t.name, CompetitionById(w.competitions, competition).value.name, MembersOf(w.members, t.id)))
  {
    FilterSnoc(w.teams, t, OfCompetition(competition));
    CompetitionLinesSnoc(Filter(w.teams, OfCompetition(competition)), t, 1,
                         CompetitionById(w.competitions, competition).value.name, w.users, w.members);
  }

  /** The export lines of the listed teams, each introduced by its owner;
      the lookup's error when a team's owner is missing. */
  function CompetitionLines(ts: seq<Team>, no: int, compName: string, users: seq<User>, members: seq<Member>)
    : (r: Result<seq<TeamLine>, Error>)
    ensures r.Err? ==> r.error == NotFound
    ensures r.Err? <==> exists k :: 0 <= k < |ts| && UserById(users, ts[k].user).None?
    ensures r.Ok? ==> |r.value| == MemberTotal(ts, members)
  {
    LinesFail(ts, no, compName, users, members);
    LinesLength(ts, no, compName, users, members);
    Lines(ts, no, compName, users, members)
  }

  /** The loop over the competition's teams: one block per team, numbered
      from `no` in list order. */
  function Lines(ts: seq<Team>, no: int, compName: string, users: seq<User>, members: seq<Member>)
    : (r: Result<seq<TeamLine>, Error>)
    ensures r.Err? ==> r.error == NotFound
    decreases |ts|
  {
    if |ts| == 0 then Ok([])
    else
      var t := ts[|ts| - 1];
      match Lines(ts[..|ts| - 1], no, compName, users, members)
      case Err(e) => Err(e)
      case Ok(rows) =>
        match UserById(users, t.user)
        case None => Err(NotFound)
        case Some(u) => Ok(rows + Block(no + |ts| - 1, u.fullName, t.name, compName, MembersOf(members, t.id)))
  }

  /** The loop fails exactly when some listed team has no owner. */
  lemma {:induction false} LinesFail(ts: seq<Team>, no: int, compName: string, users: seq<User>, members: seq<Member>)
    ensures Lines(ts, no, compName, users, members).Err? <==> exists k :: 0 <= k < |ts| && UserById(users, ts[k].user).None?
    decreases |ts|
  {
    if |ts| > 0 {
      var init := ts[..|ts| - 1];
      LinesFail(init, no, compName, users, members);
      assert forall k :: 0 <= k < |init| ==> init[k] == ts[k];
    }
  }

  /** A finished loop wrote one line per member of the listed teams. */
  lemma {:induction false} LinesLength(ts: seq<Team>, no: int, compName: string, users: seq<User>, members: seq<Member>)
    ensures Lines(ts, no, compName, users, members).Ok? ==> |Lines(ts, no, compName, users, members).value| == MemberTotal(ts, members)
    decreases |ts|
  {
    if |ts| > 0 {
      LinesLength(ts[..|ts| - 1], no, compName, users, members);
    }
  }

  /** A team with an owner listed after the others adds its block, numbered
      after theirs, at the end of the lines. */
  lemma CompetitionLinesSnoc(ts: seq<Team>, t: Team, no: int, compName: string, users: seq<User>, members: seq<Member>)
    requires CompetitionLines(ts, no, compName, users, members).Ok?
    requires UserById(users, t.user).Some?
    ensures CompetitionLines(ts + [t], no, compName, users, members)
              == Ok(CompetitionLines(ts, no, compName, users, members).value
                    + Block(no + |ts|, UserById(users, t.user).value.fullName, t.name, compName, MembersOf(members, t.id)))
  {
    var longer := ts + [t];
    assert longer[..|longer| - 1] == ts;
    assert longer[|longer| - 1] == t;
  }

  /** How many members the teams have between them. */
  function MemberTotal(ts: seq<Team>, members: seq<Member>): nat
    decreases |ts|
  {
    if |ts| == 0 then 0 else MemberTotal(ts[..|ts| - 1], members) + |MembersOf(members, ts[|ts| - 1].id)|
  }
}
