/** The user, team, competition and OTP repositories as lookups over the
    in-memory tables. Each returns what GORM's `First` returns: the first
    matching row in insertion order, or nothing (gorm.ErrRecordNotFound). */
module Repositories {
  import opened Wrappers
  import opened Seqs
  import opened Domain

  /** GetUser(UserParam{UserID: id}). GORM drops zero-valued struct fields
      from the condition, so the zero UUID (modelled as "") matches any user. */
  function UserIndex(users: seq<User>, id: Uuid): (r: Option<nat>)
    ensures r.Some? ==> r.value < |users| && (id == "" || users[r.value].id == id)
    ensures r.Some? ==> forall j :: 0 <= j < r.value ==> id != "" && users[j].id != id
    ensures r.None? <==> forall i :: 0 <= i < |users| ==> id != "" && users[i].id != id
  {
    FirstIndex(users, (u: User) => id == "" || u.id == id)
  }

  function UserById(users: seq<User>, id: Uuid): (r: Option<User>)
    ensures r.Some? ==> r.value in users && (id == "" || r.value.id == id)
    ensures r.None? <==> forall i :: 0 <= i < |users| ==> id != "" && users[i].id != id
  {
    match UserIndex(users, id)
    case None => None
    case Some(i) => Some(users[i])
  }

  /** GetUser(UserParam{Email: email}): GORM drops zero-valued struct fields
      from the condition, so an empty e-mail matches any user. */
  function UserByEmail(users: seq<User>, email: string): (r: Option<User>)
    ensures r.Some? ==> r.value in users && (email == "" || r.value.email == email)
    ensures r.None? <==> forall i :: 0 <= i < |users| ==> email != "" && users[i].email != email
  {
    First(users, (u: User) => email == "" || u.email == email)
  }

  function TeamIndexByUser(teams: seq<Team>, user: Uuid): (r: Option<nat>)
    ensures r.Some? ==> r.value < |teams| && teams[r.value].user == user
    ensures r.Some? ==> forall j :: 0 <= j < r.value ==> teams[j].user != user
    ensures r.None? ==> forall i :: 0 <= i < |teams| ==> teams[i].user != user
  {
    FirstIndex(teams, (t: Team) => t.user == user)
  }

  /** GetTeamByUserID. */
  function TeamByUser(teams: seq<Team>, user: Uuid): (r: Option<Team>)
    ensures r.Some? ==> r.value in teams && r.value.user == user
    ensures r.None? ==> forall i :: 0 <= i < |teams| ==> teams[i].user != user
  {
    match TeamIndexByUser(teams, user)
    case None => None
    case Some(i) => Some(teams[i])
  }

  /** GetTeamByID. */
  function TeamById(teams: seq<Team>, id: Uuid): (r: Option<Team>)
    ensures r.Some? ==> r.value in teams && r.value.id == id
    ensures r.None? ==> forall i :: 0 <= i < |teams| ==> teams[i].id != id
  {
    First(teams, (t: Team) => t.id == id)
  }

  /** The associations the Team entity declares, by field name. */
  const TeamAssociations: set<string> := {"TeamMembers", "TeamProgresses"}

  /** The associations GetTeamByID asks GORM to preload. */
  const TeamByIdPreloads: seq<string> := ["Competition", "TeamMember"]

  /** GetTeamByID as written: a preload naming an association the entity
      does not declare makes GORM fail the query (ErrUnsupportedRelation),
      and the repository returns no team; with declared preloads only it is
      the plain lookup by ID. */
  function PreloadingTeamById(teams: seq<Team>, id: Uuid, preloads: seq<string>): (r: Option<Team>)
    ensures (exists i :: 0 <= i < |preloads| && preloads[i] !in TeamAssociations) ==> r.None?
    ensures (forall i :: 0 <= i < |preloads| ==> preloads[i] in TeamAssociations) ==> r == TeamById(teams, id)
  {
    if forall i :: 0 <= i < |preloads| ==> preloads[i] in TeamAssociations then TeamById(teams, id) else None
  }

  /** GetTeamByName: the first team carrying the name is found exactly when
      some team already carries it. */
  function TeamNameExists(teams: seq<Team>, name: string): (r: bool)
    ensures r <==> exists i :: 0 <= i < |teams| && teams[i].name == name
  {
    First(teams, (t: Team) => t.name == name).Some?
  }

  function CompetitionById(competitions: seq<Competition>, id: int): (r: Option<Competition>)
    ensures r.Some? ==> r.value in competitions && r.value.id == id
    ensures r.None? ==> forall i :: 0 <= i < |competitions| ==> competitions[i].id != id
  {
    First(competitions, (c: Competition) => c.id == id)
  }

  /** GetOtp(GetOtp{UserID: user}); the zero UUID matches any code. */
  function OtpIndex(otps: seq<Otp>, user: Uuid): (r: Option<nat>)
    ensures r.Some? ==> r.value < |otps| && (user == "" || otps[r.value].user == user)
    ensures r.None? <==> forall i :: 0 <= i < |otps| ==> user != "" && otps[i].user != user
  {
    FirstIndex(otps, (o: Otp) => user == "" || o.user == user)
  }

  function MembersOf(members: seq<Member>, team: Uuid): (r: seq<Member>)
    ensures forall i :: 0 <= i < |r| ==> r[i] in members && r[i].team == team
    ensures forall j :: 0 <= j < |members| && members[j].team == team ==> members[j] in r
  {
    Filter(members, OfTeam(team))
  }

  function OfTeam(team: Uuid): Member -> bool {
    (m: Member) => m.team == team
  }

  /** The value a GORM `Updates` call leaves in a text column: the new one,
      unless it is the empty string, which `Updates` skips. */
  function Assign(current: string, update: string): (r: string)
    ensures update != "" ==> r == update
    ensures update == "" ==> r == current
  {
    if update == "" then current else update
  }

  /** The sequence without its element at index `i`. */
  function RemoveAt<T>(s: seq<T>, i: nat): (r: seq<T>)
    requires i < |s|
    ensures |r| == |s| - 1
    ensures forall j :: 0 <= j < i ==> r[j] == s[j]
    ensures forall j :: i <= j < |r| ==> r[j] == s[j + 1]
  {
    s[..i] + s[i + 1..]
  }
}
