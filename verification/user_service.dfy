/** The account guards of the user service (internal/service/user.go).
    Password hashing and comparison, token signing, UUID generation, the
    mailer and the file store are collaborators outside the model: their
    outcomes arrive as parameters (`None` or `false` for a failure), and
    `now` is the clock reading in seconds. */
module UserService {
  import opened Wrappers
  import opened Seqs
  import opened Domain
  import opened Repositories

  const ParticipantRole := 2
  const AdminRole := 1
  const MaxUploadBytes := 1048576

  /** The rows Register writes, all in one transaction. */
  function Registered(w: World, email: string, hash: string, userId: Uuid, teamId: Uuid, code: string, now: Time): World {
    w.(users := w.users + [User(userId, "", hash, email, "", "", "", Inactive, "", ParticipantRole)],
       teams := w.teams + [Team(teamId, "", Unverified, userId, 1)],
       otps := w.otps + [Otp(userId, code, now)])
  }

  /** Register: refuse a known e-mail, then mismatched passwords; otherwise
      create an inactive participant with an unnamed, unverified team in
      competition 1 and a verification code, and answer with a token. Any
      collaborator failure rolls everything back. */
  function Register(w: World, email: string, password: string, confirm: string, hash: Option<string>,
                    userId: Uuid, teamId: Uuid, token: Option<string>, code: string, delivered: bool, now: Time)
    : (r: Result<(World, string), Error>)
    ensures UserByEmail(w.users, email).Some? ==> r == Err(EmailTaken)
    ensures UserByEmail(w.users, email).None? && password != confirm ==> r == Err(PasswordsDiffer)
    ensures r.Ok? <==> UserByEmail(w.users, email).None? && password == confirm && hash.Some? && token.Some? && delivered
    ensures r.Ok? ==>
              r.value.1 == token.value
              && r.value.0.users == w.users + [User(userId, "", hash.value, email, "", "", "", Inactive, "", ParticipantRole)]
              && r.value.0.teams == w.teams + [Team(teamId, "", Unverified, userId, 1)]
              && r.value.0.otps == w.otps + [Otp(userId, code, now)]
              && r.value.0.members == w.members && r.value.0.progress == w.progress && r.value.0.stages == w.stages
  {
    if UserByEmail(w.users, email).Some? then Err(EmailTaken)
    else if password != confirm then Err(PasswordsDiffer)
    else if hash.None? then Err(HashFailed)
    else if token.None? then Err(TokenFailed)
    else if !delivered then Err(DeliveryFailed)
    else Ok((Registered(w, email, hash.value, userId, teamId, code, now), token.value))
  }

  /** A second registration with the same e-mail is refused. */
  lemma RegisterTwiceRefused(w: World, email: string, password: string, confirm: string, hash: Option<string>,
                             userId: Uuid, teamId: Uuid, token: Option<string>, code: string, delivered: bool, now: Time,
                             password2: string, confirm2: string, hash2: Option<string>,
                             userId2: Uuid, teamId2: Uuid, token2: Option<string>, code2: string, delivered2: bool, now2: Time)
    requires Register(w, email, password, confirm, hash, userId, teamId, token, code, delivered, now).Ok?
    ensures var w' := Register(w, email, password, confirm, hash, userId, teamId, token, code, delivered, now).value.0;
            Register(w', email, password2, confirm2, hash2, userId2, teamId2, token2, code2, delivered2, now2) == Err(EmailTaken)
  {
    var w' := Register(w, email, password, confirm, hash, userId, teamId, token, code, delivered, now).value.0;
    assert w'.users[|w.users|].email == email;
  }

  /** A signed-in session: the token and the admin claim it carries. */
  datatype Session = Session(token: string, isAdmin: bool)

  /** Login: an unknown e-mail and a wrong password give the same error; the
      session is an admin session exactly for role 1. `matches` stands for
      bcrypt's comparison of a stored hash with a password. */
  function Login(w: World, email: string, password: string, matches: (string, string) -> bool, token: Option<string>)
    : (r: Result<Session, Error>)
    ensures UserByEmail(w.users, email).None? ==> r == Err(WrongCredentials)
    ensures UserByEmail(w.users, email).Some? && !matches(UserByEmail(w.users, email).value.passwordHash, password) ==>
              r == Err(WrongCredentials)
    ensures r.Ok? <==> UserByEmail(w.users, email).Some? && matches(UserByEmail(w.users, email).value.passwordHash, password) && token.Some?
    ensures r.Ok? ==> r.value.token == token.value && (r.value.isAdmin <==> UserByEmail(w.users, email).value.role == AdminRole)
  {
    match UserByEmail(w.users, email)
    case None => Err(WrongCredentials)
    case Some(user) =>
      var isAdmin := user.role == AdminRole;
      if !matches(user.passwordHash, password) then Err(WrongCredentials)
      else if token.None? then Err(TokenFailed)
      else Ok(Session(token.value, isAdmin))
  }

  /** A fresh registration signs in as a participant, never as an admin. */
  lemma RegisteredUserIsParticipant(w: World, email: string, password: string, hash: Option<string>,
                                    userId: Uuid, teamId: Uuid, token: Option<string>, code: string, now: Time,
                                    matches: (string, string) -> bool, token2: Option<string>)
    requires Register(w, email, password, password, hash, userId, teamId, token, code, true, now).Ok?
    requires matches(hash.value, password) && token2.Some?
    ensures var w' := Register(w, email, password, password, hash, userId, teamId, token, code, true, now).value.0;
            Login(w', email, password, matches, token2) == Ok(Session(token2.value, false))
  {
    var w' := Register(w, email, password, password, hash, userId, teamId, token, code, true, now).value.0;
    var k := |w.users|;
    assert w'.users[k].email == email;
    var i := FirstIndex(w'.users, (u: User) => email == "" || u.email == email);
    assert i == Some(k) by {
      assert forall j :: 0 <= j < k ==> w'.users[j] == w.users[j];
    }
  }

  /** The user record with one column set through `Updates`. */
  function WithUser(w: World, i: nat, u: User): (r: World)
    requires i < |w.users|
    ensures r.users == w.users[i := u] && r == w.(users := r.users)
  {
    w.(users := w.users[i := u])
  }

  /** UploadPayment: refuse a file over 1 MiB before any lookup, then an
      unknown user; store the uploaded file's URL as the payment proof. */
  function UploadPayment(w: World, userId: Uuid, size: int, url: Option<string>): (r: Result<(World, string), Error>)
    ensures size > MaxUploadBytes ==> r == Err(FileTooLarge)
    ensures size <= MaxUploadBytes && UserIndex(w.users, userId).None? ==> r == Err(UserNotFound)
    ensures size <= MaxUploadBytes && UserIndex(w.users, userId).Some? ==>
              var i := UserIndex(w.users, userId).value;
              (r.Err? <==> url.None?)
              && (r.Ok? ==>
                    r.value.1 == url.value
                    && r.value.0 == WithUser(w, i, w.users[i].(paymentProof := Assign(w.users[i].paymentProof, url.value))))
  {
    if size > MaxUploadBytes then Err(FileTooLarge)
    else match UserIndex(w.users, userId)
      case None => Err(UserNotFound)
      case Some(i) =>
        match url
        case None => Err(UploadFailed)
        case Some(link) =>
          var u := w.users[i];
          Ok((WithUser(w, i, u.(paymentProof := Assign(u.paymentProof, link))), link))
  }

  /** After an upload the user's lookup returns the new proof. */
  lemma UploadedProofIsStored(w: World, userId: Uuid, size: int, url: Option<string>)
    requires UploadPayment(w, userId, size, url).Ok? && url.value != ""
    ensures UserById(UploadPayment(w, userId, size, url).value.0.users, userId).Some?
    ensures UserById(UploadPayment(w, userId, size, url).value.0.users, userId).value.paymentProof == url.value
  {
    var i := UserIndex(w.users, userId).value;
    var users' := UploadPayment(w, userId, size, url).value.0.users;
    assert users'[i].id == w.users[i].id;
    assert forall j :: 0 <= j < i ==> users'[j] == w.users[j];
    assert UserIndex(users', userId) == Some(i);
  }

  /** UploadKTM: as UploadPayment, but an unknown user surfaces the store's
      not-found error and the URL becomes the student-card link. */
  function UploadKtm(w: World, userId: Uuid, size: int, url: Option<string>): (r: Result<World, Error>)
    ensures size > MaxUploadBytes ==> r == Err(FileTooLarge)
    ensures size <= MaxUploadBytes && UserIndex(w.users, userId).None? ==> r == Err(NotFound)
    ensures size <= MaxUploadBytes && UserIndex(w.users, userId).Some? ==>
              var i := UserIndex(w.users, userId).value;
              (r.Err? <==> url.None?)
              && (r.Ok? ==> r.value == WithUser(w, i, w.users[i].(studentCard := Assign(w.users[i].studentCard, url.value))))
  {
    if size > MaxUploadBytes then Err(FileTooLarge)
    else match UserIndex(w.users, userId)
      case None => Err(NotFound)
      case Some(i) =>
        match url
        case None => Err(UploadFailed)
        case Some(link) =>
          var u := w.users[i];
          Ok(WithUser(w, i, u.(studentCard := Assign(u.studentCard, link))))
  }

  /** After a student-card upload the user's lookup returns the new link. */
  lemma UploadedCardIsStored(w: World, userId: Uuid, size: int, url: Option<string>)
    requires UploadKtm(w, userId, size, url).Ok? && url.value != ""
    ensures UserById(UploadKtm(w, userId, size, url).value.users, userId).Some?
    ensures UserById(UploadKtm(w, userId, size, url).value.users, userId).value.studentCard == url.value
  {
    var i := UserIndex(w.users, userId).value;
    var users' := UploadKtm(w, userId, size, url).value.users;
    assert users'[i].id == w.users[i].id;
    assert forall j :: 0 <= j < i ==> users'[j] == w.users[j];
    assert UserIndex(users', userId) == Some(i);
  }

  /** The OTP was last touched strictly before `now` minus the configured
      number of minutes. */
  predicate Expired(otp: Otp, expiryMinutes: int, now: Time) {
    otp.updatedAt < now - expiryMinutes * MinuteSeconds
  }

  /** VerifyUser: a wrong code is reported before expiry is looked at; on
      success the account becomes active and the code is deleted.
      `expiryMinutes` is the EXPIRED_OTP setting, `None` when it is not a
      number. */
  function VerifyUser(w: World, userId: Uuid, code: string, expiryMinutes: Option<int>, now: Time): (r: Result<World, Error>)
    ensures OtpIndex(w.otps, userId).None? ==> r == Err(NotFound)
    ensures OtpIndex(w.otps, userId).Some? ==>
              var k := OtpIndex(w.otps, userId).value;
              && (w.otps[k].code != code ==> r == Err(InvalidOtp))
              && (w.otps[k].code == code && expiryMinutes.None? ==> r == Err(BadExpiryConfig))
              && (w.otps[k].code == code && expiryMinutes.Some? && Expired(w.otps[k], expiryMinutes.value, now) ==>
                    r == Err(OtpExpired))
              && (r.Ok? <==> w.otps[k].code == code && expiryMinutes.Some? && !Expired(w.otps[k], expiryMinutes.value, now)
                             && UserIndex(w.users, userId).Some?)
              && (r.Ok? ==>
                    var i := UserIndex(w.users, userId).value;
                    r.value == w.(users := w.users[i := w.users[i].(account := Active)], otps := RemoveAt(w.otps, k)))
  {
    match OtpIndex(w.otps, userId)
    case None => Err(NotFound)
    case Some(k) =>
      var otp := w.otps[k];
      if otp.code != code then Err(InvalidOtp)
      else match expiryMinutes
        case None => Err(BadExpiryConfig)
        case Some(minutes) =>
          if Expired(otp, minutes, now) then Err(OtpExpired)
          else match UserIndex(w.users, userId)
            case None => Err(NotFound)
            case Some(i) =>
              Ok(w.(users := w.users[i := w.users[i].(account := Active)], otps := RemoveAt(w.otps, k)))
  }

  /** A code is good for one verification: with a single code on file, the
      second attempt finds none. */
  lemma VerifyOnce(w: World, userId: Uuid, code: string, expiryMinutes: Option<int>, now: Time, now2: Time)
    requires userId != ""
    requires VerifyUser(w, userId, code, expiryMinutes, now).Ok?
    requires forall i, j :: 0 <= i < j < |w.otps| ==> w.otps[i].user != userId || w.otps[j].user != userId
    ensures VerifyUser(VerifyUser(w, userId, code, expiryMinutes, now).value, userId, code, expiryMinutes, now2) == Err(NotFound)
  {
    var k := OtpIndex(w.otps, userId).value;
    var otps' := RemoveAt(w.otps, k);
    forall j | 0 <= j < |otps'| ensures otps'[j].user != userId {
      if j < k {
        assert otps'[j] == w.otps[j];
      } else {
        assert otps'[j] == w.otps[j + 1];
      }
    }
  }

  /** ChangePasswordAfterVerify: mismatched passwords are reported before
      a new password that equals the old one. */
  function ChangePasswordAfterVerify(w: World, userId: Uuid, newPassword: string, confirm: string, hash: Option<string>,
                                     matches: (string, string) -> bool): (r: Result<World, Error>)
    ensures UserIndex(w.users, userId).None? ==> r == Err(NotFound)
    ensures UserIndex(w.users, userId).Some? ==>
              var i := UserIndex(w.users, userId).value;
              && (newPassword != confirm ==> r == Err(PasswordsDiffer))
              && (newPassword == confirm && hash.None? ==> r == Err(HashFailed))
              && (newPassword == confirm && hash.Some? && matches(w.users[i].passwordHash, newPassword) ==> r == Err(SamePassword))
              && (r.Ok? <==> newPassword == confirm && hash.Some? && !matches(w.users[i].passwordHash, newPassword))
              && (r.Ok? ==> r.value == WithUser(w, i, w.users[i].(passwordHash := Assign(w.users[i].passwordHash, hash.value))))
  {
    match UserIndex(w.users, userId)
    case None => Err(NotFound)
    case Some(i) =>
      var user := w.users[i];
      if newPassword != confirm then Err(PasswordsDiffer)
      else match hash
        case None => Err(HashFailed)
        case Some(h) =>
          if matches(user.passwordHash, newPassword) then Err(SamePassword)
          else Ok(WithUser(w, i, user.(passwordHash := Assign(user.passwordHash, h))))
  }

  /** A changed password is stored as its new hash; asking for the same
      password again, under a check that accepts it against that hash, is
      refused as unchanged. */
  lemma ChangedPasswordIsStored(w: World, userId: Uuid, newPassword: string, hash: Option<string>,
                                matches: (string, string) -> bool, hash2: Option<string>)
    requires ChangePasswordAfterVerify(w, userId, newPassword, newPassword, hash, matches).Ok? && hash.value != ""
    requires matches(hash.value, newPassword)
    requires hash2.Some?
    ensures var w' := ChangePasswordAfterVerify(w, userId, newPassword, newPassword, hash, matches).value;
            && UserById(w'.users, userId).Some?
            && UserById(w'.users, userId).value.passwordHash == hash.value
            && ChangePasswordAfterVerify(w', userId, newPassword, newPassword, hash2, matches) == Err(SamePassword)
  {
    var i := UserIndex(w.users, userId).value;
    var users' := ChangePasswordAfterVerify(w, userId, newPassword, newPassword, hash, matches).value.users;
    assert users'[i].id == w.users[i].id;
    assert forall j :: 0 <= j < i ==> users'[j] == w.users[j];
    assert UserIndex(users', userId) == Some(i);
  }

  const UiUxCompetition := 2
  const BusinessCompetition := 3

  /** The competition of the user's team as the preloaded association
      gives it: 0 for a user without a team. */
  function TrackOf(teams: seq<Team>, u: User): int {
    match TeamByUser(teams, u.id)
    case None => 0
    case Some(t) => t.competition
  }

  function InTrack(teams: seq<Team>, track: int): User -> bool {
    (u: User) => TrackOf(teams, u) == track
  }

  /** One more user adds one to a track's count exactly when their team is in it. */
  lemma TrackCountStep(users: seq<User>, i: nat, teams: seq<Team>, track: int)
    requires i < |users|
    ensures |Filter(users[..i + 1], InTrack(teams, track))|
              == |Filter(users[..i], InTrack(teams, track))| + (if TrackOf(teams, users[i]) == track then 1 else 0)
  {
    assert users[..i + 1] == users[..i] + [users[i]];
    FilterSnoc(users[..i], users[i], InTrack(teams, track));
  }

  /** GetTotalParticipant: how many users' teams are in the design track
      and how many in the business track; every other user is ignored. */
  method GetTotalParticipant(users: seq<User>, teams: seq<Team>) returns (uiux: nat, bp: nat)
    ensures uiux == Count(users, InTrack(teams, UiUxCompetition))
    ensures bp == Count(users, InTrack(teams, BusinessCompetition))
    ensures uiux + bp <= |users|
  {
    uiux, bp := 0, 0;
    var i := 0;
    while i < |users|
      invariant 0 <= i <= |users|
      invariant uiux == |Filter(users[..i], InTrack(teams, UiUxCompetition))|
      invariant bp == |Filter(users[..i], InTrack(teams, BusinessCompetition))|
      invariant uiux + bp <= i
    {
      var track := TrackOf(teams, users[i]);
      TrackCountStep(users, i, teams, UiUxCompetition);
      TrackCountStep(users, i, teams, BusinessCompetition);
      if track == UiUxCompetition {
        uiux := uiux + 1;
      } else if track == BusinessCompetition {
        bp := bp + 1;
      }
      i := i + 1;
    }
    assert users[..i] == users;
  }
}
