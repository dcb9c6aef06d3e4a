/** The OTP service (internal/service/otp.go): re-sending a verification
    code or a password-reset token, rate-limited by the time the stored code
    was last written. The new code and the mailer's outcome are parameters;
    `now` is the clock reading in seconds. */
module OtpService {
  import opened Wrappers
  import opened Domain
  import opened Repositories
  import opened UserService

  /** ResendOtp waits five minutes between codes; ResendToken waits one,
      although its error message speaks of five. */
  const OtpResendWindow := 5 * MinuteSeconds
  const TokenResendWindow := 1 * MinuteSeconds

  /** The stored code was written strictly within the last `window` seconds. */
  predicate TooSoon(otp: Otp, window: int, now: Time) {
    otp.updatedAt > now - window
  }

  /** The shared tail of both operations: rate limit, then mail, then store
      the new code with `now` as its update time. */
  function Reissue(w: World, k: nat, window: int, code: string, delivered: bool, now: Time): (r: Result<World, Error>)
    requires k < |w.otps|
    ensures TooSoon(w.otps[k], window, now) ==> r == Err(ResendTooSoon)
    ensures !TooSoon(w.otps[k], window, now) && !delivered ==> r == Err(DeliveryFailed)
    ensures r.Ok? <==> !TooSoon(w.otps[k], window, now) && delivered
    ensures r.Ok? ==> r.value == w.(otps := w.otps[k := Otp(w.otps[k].user, Assign(w.otps[k].code, code), now)])
  {
    var otp := w.otps[k];
    if TooSoon(otp, window, now) then Err(ResendTooSoon)
    else if !delivered then Err(DeliveryFailed)
    else Ok(w.(otps := w.otps[k := Otp(otp.user, Assign(otp.code, code), now)]))
  }

  /** ResendOtp: an active account is refused before its code is read. */
  function ResendOtp(w: World, userId: Uuid, code: string, delivered: bool, now: Time): (r: Result<World, Error>)
    ensures UserIndex(w.users, userId).None? ==> r == Err(NotFound)
    ensures UserIndex(w.users, userId).Some? ==>
              var user := w.users[UserIndex(w.users, userId).value];
              && (user.account == Active ==> r == Err(AlreadyActive))
              && (user.account != Active && OtpIndex(w.otps, user.id).None? ==> r == Err(NotFound))
              && (user.account != Active && OtpIndex(w.otps, user.id).Some? ==>
                    r == Reissue(w, OtpIndex(w.otps, user.id).value, OtpResendWindow, code, delivered, now))
  {
    match UserIndex(w.users, userId)
    case None => Err(NotFound)
    case Some(i) =>
      var user := w.users[i];
      if user.account == Active then Err(AlreadyActive)
      else match OtpIndex(w.otps, user.id)
        case None => Err(NotFound)
        case Some(k) => Reissue(w, k, OtpResendWindow, code, delivered, now)
  }

  /** ResendToken: the same without the account check, on a one-minute window. */
  function ResendToken(w: World, userId: Uuid, code: string, delivered: bool, now: Time): (r: Result<World, Error>)
    ensures UserIndex(w.users, userId).None? ==> r == Err(NotFound)
    ensures UserIndex(w.users, userId).Some? ==>
              var user := w.users[UserIndex(w.users, userId).value];
              && (OtpIndex(w.otps, user.id).None? ==> r == Err(NotFound))
              && (OtpIndex(w.otps, user.id).Some? ==>
                    r == Reissue(w, OtpIndex(w.otps, user.id).value, TokenResendWindow, code, delivered, now))
  {
    match UserIndex(w.users, userId)
    case None => Err(NotFound)
    case Some(i) =>
      var user := w.users[i];
      match OtpIndex(w.otps, user.id)
      case None => Err(NotFound)
      case Some(k) => Reissue(w, k, TokenResendWindow, code, delivered, now)
  }

  /** Re-issuing keeps the code's owner in place, so the same lookup finds
      the re-issued code. */
  lemma ReissueKeepsLookup(w: World, user: Uuid, window: int, code: string, delivered: bool, now: Time)
    requires OtpIndex(w.otps, user).Some?
    requires Reissue(w, OtpIndex(w.otps, user).value, window, code, delivered, now).Ok?
    ensures var w' := Reissue(w, OtpIndex(w.otps, user).value, window, code, delivered, now).value;
            OtpIndex(w'.otps, user) == OtpIndex(w.otps, user)
            && w'.otps[OtpIndex(w.otps, user).value].updatedAt == now
  {
    var k := OtpIndex(w.otps, user).value;
    var w' := Reissue(w, k, window, code, delivered, now).value;
    assert forall j :: 0 <= j < |w.otps| && j != k ==> w'.otps[j] == w.otps[j];
    assert w'.otps[k].user == w.otps[k].user;
  }

  /** A code re-sent at `now` cannot be re-sent again before five minutes
      have passed. */
  lemma ResendOtpRateLimited(w: World, userId: Uuid, code: string, now: Time, code2: string, delivered2: bool, later: Time)
    requires ResendOtp(w, userId, code, true, now).Ok?
    requires now <= later < now + OtpResendWindow
    ensures ResendOtp(ResendOtp(w, userId, code, true, now).value, userId, code2, delivered2, later) == Err(ResendTooSoon)
  {
    var i := UserIndex(w.users, userId).value;
    var user := w.users[i];
    ReissueKeepsLookup(w, user.id, OtpResendWindow, code, true, now);
  }

  /** A token re-sent at `now` can be re-sent again a minute later. */
  lemma ResendTokenAfterAMinute(w: World, userId: Uuid, code: string, now: Time, code2: string)
    requires ResendToken(w, userId, code, true, now).Ok?
    ensures ResendToken(ResendToken(w, userId, code, true, now).value, userId, code2, true, now + TokenResendWindow).Ok?
  {
    var i := UserIndex(w.users, userId).value;
    var user := w.users[i];
    ReissueKeepsLookup(w, user.id, TokenResendWindow, code, true, now);
  }

  /** Once VerifyUser has activated the account, a new code is refused. */
  lemma VerifiedAccountRefusesResend(w: World, userId: Uuid, code: string, expiryMinutes: Option<int>, now: Time,
                                     code2: string, delivered2: bool, now2: Time)
    requires VerifyUser(w, userId, code, expiryMinutes, now).Ok?
    ensures ResendOtp(VerifyUser(w, userId, code, expiryMinutes, now).value, userId, code2, delivered2, now2) == Err(AlreadyActive)
  {
    var i := UserIndex(w.users, userId).value;
    var w' := VerifyUser(w, userId, code, expiryMinutes, now).value;
    assert forall j :: 0 <= j < |w.users| && j != i ==> w'.users[j] == w.users[j];
    assert w'.users[i].id == w.users[i].id;
    assert UserIndex(w'.users, userId) == Some(i);
  }
}
