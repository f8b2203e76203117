/** The mock-storage branch of the OTP verification route
    (app/api/auth/verify-otp/route.ts): input check, session lookup, attempt
    limit, code comparison, then verified flag and find-or-create user. */
module VerifyOtp {
  import opened Text
  import opened Otp
  import opened MockStorage

  const RequiredMessage := "Phone number and OTP are required"
  const NotFoundMessage := "OTP expired or not found"
  const TooManyAttemptsMessage := "Too many attempts. Please request a new OTP"
  const InvalidCodeMessage := "Invalid OTP code"
  const SuccessMessage := "OTP verified successfully"

  /** After this many wrong codes a session is refused. */
  const MaxAttempts := 3

  /** The JSON reply: an error with its HTTP status, or success. */
  datatype Response =
    | Failure(status: int, error: string)
    | Success(message: string, userId: string, phoneNumber: string)

  /** The two maps of the store, as values. */
  datatype State = State(sessions: Sessions, users: Users)

  /** What `createUser` draws if the route creates a user: its random id and
      its own clock reading. */
  datatype UserDraw = UserDraw(userId: string, clock: int)

  /** The route as a function of the store: the reply and the new store.
      `now` is the clock reading `getOTPSession` compares with the expiry,
      and `drawn` what a created user gets. */
  function Verify(st: State, phoneNumber: Option<string>, otp: Option<string>, now: int, drawn: UserDraw): (out: (Response, State))
    ensures out.0.Failure? ==> out.0.status == 400 && out.1.users == st.users
    ensures out.0.Failure? ==> out.1.sessions.Keys <= st.sessions.Keys
    ensures st.users.Keys <= out.1.users.Keys
  {
    if !Truthy(phoneNumber) || !Truthy(otp) then
      (Failure(400, RequiredMessage), st)
    else
      CheckCode(st, NormalizePhoneNumber(phoneNumber.value), otp.value, now, drawn)
  }

  /** The mock-storage steps once the phone is normalised: session lookup,
      attempt limit, code comparison, then verified flag and find-or-create
      user. */
  function CheckCode(st: State, phone: string, code: string, now: int, drawn: UserDraw): (out: (Response, State))
    ensures out.0.Failure? ==> out.0.status == 400 && out.1.users == st.users
    ensures out.0.Failure? ==> out.1.sessions.Keys <= st.sessions.Keys
    ensures st.users.Keys <= out.1.users.Keys
  {
    var found := ActiveSession(st.sessions, phone, now);
    var sessions := PruneExpired(st.sessions, phone, now);
    if found.None? then
      (Failure(400, NotFoundMessage), st.(sessions := sessions))
    else if found.value.attempts >= MaxAttempts then
      (Failure(400, TooManyAttemptsMessage), st.(sessions := sessions))
    else if found.value.otpCode != code then
      (Failure(400, InvalidCodeMessage),
       st.(sessions := UpdateSessions(sessions, phone, SetAttempts(found.value.attempts + 1)).1))
    else
      var verified := UpdateSessions(sessions, phone, SetVerified()).1;
      if phone in st.users then
        (Success(SuccessMessage, st.users[phone].id, phone), State(verified, st.users))
      else
        var user := NewUser(drawn.userId, phone, drawn.clock);
        (Success(SuccessMessage, user.id, phone), State(verified, st.users[phone := user]))
  }

  /** `POST` of the route, run against a store. */
  method VerifyOtpRoute(store: Store, phoneNumber: Option<string>, otp: Option<string>, now: int, drawn: UserDraw)
    returns (response: Response)
    modifies store
    ensures (response, State(store.otpSessions, store.users)) ==
      Verify(State(old(store.otpSessions), old(store.users)), phoneNumber, otp, now, drawn)
  {
    if !Truthy(phoneNumber) || !Truthy(otp) {
      return Failure(400, RequiredMessage);
    }
    var normalizedPhone := NormalizePhoneNumber(phoneNumber.value);
    var otpSession := store.GetOtpSession(normalizedPhone, now);
    if otpSession.None? {
      return Failure(400, NotFoundMessage);
    }
    if otpSession.value.attempts >= MaxAttempts {
      return Failure(400, TooManyAttemptsMessage);
    }
    if otpSession.value.otpCode != otp.value {
      var _ := store.UpdateOtpSession(normalizedPhone, SetAttempts(otpSession.value.attempts + 1));
      return Failure(400, InvalidCodeMessage);
    }
    var _ := store.UpdateOtpSession(normalizedPhone, SetVerified());
    var user := store.GetUser(normalizedPhone);
    if user.None? {
      var created := store.CreateUser(normalizedPhone, drawn.userId, drawn.clock);
      user := Some(created);
    }
    return Success(SuccessMessage, user.value.id, normalizedPhone);
  }

  /** A success names the normalised phone, whose stored user carries the
      returned id and whose session now holds the submitted code and is
      verified; at most one user was added. */
  lemma SuccessMeansVerified(st: State, phoneNumber: Option<string>, otp: Option<string>, now: int, drawn: UserDraw)
    ensures var (r, st') := Verify(st, phoneNumber, otp, now, drawn);
      r.Success? ==>
        && Truthy(phoneNumber) && Truthy(otp)
        && r.phoneNumber == NormalizePhoneNumber(phoneNumber.value)
        && r.phoneNumber in st'.users && st'.users[r.phoneNumber].id == r.userId
        && r.phoneNumber in st'.sessions && st'.sessions[r.phoneNumber].isVerified
        && st'.sessions[r.phoneNumber].otpCode == otp.value
        && |st'.users| <= |st.users| + 1
  {
  }

  /** A missing or empty phone number or code is refused with 400 and the
      store is not touched. */
  lemma MissingInputRefused(st: State, phoneNumber: Option<string>, otp: Option<string>, now: int, drawn: UserDraw)
    requires !Truthy(phoneNumber) || !Truthy(otp)
    ensures Verify(st, phoneNumber, otp, now, drawn) == (Failure(400, RequiredMessage), st)
  {
  }

  /** Without an active session for the normalised phone the reply is
      "OTP expired or not found", no user is created and only the expired
      entry, if any, is dropped. */
  lemma NoSessionRefused(st: State, phone: string, otp: string, now: int, drawn: UserDraw)
    requires phone != "" && otp != ""
    requires ActiveSession(st.sessions, NormalizePhoneNumber(phone), now).None?
    ensures var (r, st') := Verify(st, Some(phone), Some(otp), now, drawn);
      r == Failure(400, NotFoundMessage) && st'.users == st.users
      && st'.sessions == st.sessions - {NormalizePhoneNumber(phone)}
  {
    ActiveSessionSpec(st.sessions, NormalizePhoneNumber(phone), now);
  }

  /** Three or more recorded attempts refuse the session before the code is
      compared: even the right code changes nothing. */
  lemma TooManyAttemptsRefused(st: State, phone: string, otp: string, now: int, drawn: UserDraw)
    requires phone != "" && otp != ""
    requires var s := ActiveSession(st.sessions, NormalizePhoneNumber(phone), now);
      s.Some? && s.value.attempts >= 3
    ensures Verify(st, Some(phone), Some(otp), now, drawn) == (Failure(400, TooManyAttemptsMessage), st)
  {
    ActiveSessionSpec(st.sessions, NormalizePhoneNumber(phone), now);
  }

  /** A wrong code costs exactly one attempt and changes nothing else: the
      session stays unverified and no user is created. */
  lemma WrongCodeCountsAttempt(st: State, phone: string, otp: string, now: int, drawn: UserDraw)
    requires phone != "" && otp != ""
    requires var s := ActiveSession(st.sessions, NormalizePhoneNumber(phone), now);
      s.Some? && s.value.attempts < 3 && s.value.otpCode != otp
    ensures var p := NormalizePhoneNumber(phone);
      var s := st.sessions[p];
      var (r, st') := Verify(st, Some(phone), Some(otp), now, drawn);
      && r == Failure(400, InvalidCodeMessage)
      && st'.users == st.users
      && st'.sessions == st.sessions[p := s.(attempts := s.attempts + 1)]
  {
    ActiveSessionSpec(st.sessions, NormalizePhoneNumber(phone), now);
  }

  /** The right code marks the session verified and returns the normalised
      phone; an existing user's id is returned unchanged, otherwise exactly
      one user is created under the phone. */
  lemma RightCodeVerifies(st: State, phone: string, otp: string, now: int, drawn: UserDraw)
    requires phone != "" && otp != ""
    requires var s := ActiveSession(st.sessions, NormalizePhoneNumber(phone), now);
      s.Some? && s.value.attempts < 3 && s.value.otpCode == otp
    ensures var p := NormalizePhoneNumber(phone);
      var (r, st') := Verify(st, Some(phone), Some(otp), now, drawn);
      && r.Success? && r.phoneNumber == p
      && st'.sessions == st.sessions[p := st.sessions[p].(isVerified := true)]
      && (p in st.users ==> r.userId == st.users[p].id && st'.users == st.users)
      && (p !in st.users ==> r.userId == drawn.userId
                             && st'.users == st.users[p := User(drawn.userId, p, None, drawn.clock)]
                             && |st'.users| == |st.users| + 1)
  {
    ActiveSessionSpec(st.sessions, NormalizePhoneNumber(phone), now);
  }

  /** Two inputs that normalise alike are handled alike: every lookup and
      the reply use the normalised phone only. */
  lemma SeesOnlyNormalizedPhone(st: State, a: string, b: string, otp: Option<string>, now: int, drawn: UserDraw)
    requires a != "" && b != ""
    requires NormalizePhoneNumber(a) == NormalizePhoneNumber(b)
    ensures Verify(st, Some(a), otp, now, drawn) == Verify(st, Some(b), otp, now, drawn)
  {
  }

  /** Verification keeps every session and user filed under its own phone. */
  lemma VerifyKeepsKeyed(st: State, phoneNumber: Option<string>, otp: Option<string>, now: int, drawn: UserDraw)
    requires Keyed(st.sessions, st.users)
    ensures var st' := Verify(st, phoneNumber, otp, now, drawn).1;
      Keyed(st'.sessions, st'.users)
  {
    if Truthy(phoneNumber) && Truthy(otp) {
      CheckCodeKeepsKeyed(st, NormalizePhoneNumber(phoneNumber.value), otp.value, now, drawn);
    }
  }

  lemma CheckCodeKeepsKeyed(st: State, phone: string, code: string, now: int, drawn: UserDraw)
    requires Keyed(st.sessions, st.users)
    ensures var st' := CheckCode(st, phone, code, now, drawn).1;
      Keyed(st'.sessions, st'.users)
  {
    var found := ActiveSession(st.sessions, phone, now);
    var sessions := PruneExpired(st.sessions, phone, now);
    var after := CheckCode(st, phone, code, now, drawn).1;
    PruneKeepsKeyed(st.sessions, st.users, phone, now);
    if found.None? || found.value.attempts >= MaxAttempts {
      assert after == st.(sessions := sessions);
    } else if found.value.otpCode != code {
      UpdateKeepsKeyed(sessions, st.users, phone, SetAttempts(found.value.attempts + 1));
      assert after == st.(sessions := UpdateSessions(sessions, phone, SetAttempts(found.value.attempts + 1)).1);
    } else {
      var verified := UpdateSessions(sessions, phone, SetVerified()).1;
      UpdateKeepsKeyed(sessions, st.users, phone, SetVerified());
      if phone in st.users {
        assert after == State(verified, st.users);
      } else {
        var user := NewUser(drawn.userId, phone, drawn.clock);
        UserAddKeepsKeyed(verified, st.users, phone, user);
        assert after == State(verified, st.users[phone := user]);
      }
    }
  }

  lemma PruneKeepsKeyed(sessions: Sessions, users: Users, phone: string, now: int)
    requires Keyed(sessions, users)
    ensures Keyed(PruneExpired(sessions, phone, now), users)
  {
  }

  lemma UserAddKeepsKeyed(sessions: Sessions, users: Users, phone: string, user: User)
    requires Keyed(sessions, users) && user.phoneNumber == phone
    ensures Keyed(sessions, users[phone := user])
  {
  }

  lemma UpdateKeepsKeyed(sessions: Sessions, users: Users, p: string, u: SessionUpdate)
    requires Keyed(sessions, users) && u.phoneNumber.None?
    ensures Keyed(UpdateSessions(sessions, p, u).1, users)
  {
  }

  /** No stored session has more than three recorded attempts. */
  predicate AttemptsBounded(sessions: Sessions)
  {
    forall p :: p in sessions ==> 0 <= sessions[p].attempts <= MaxAttempts
  }

  /** The route never pushes a session's attempt count past three: a wrong
      code is counted only while fewer than three are recorded. */
  lemma VerifyKeepsAttemptsBounded(st: State, phoneNumber: Option<string>, otp: Option<string>, now: int, drawn: UserDraw)
    requires AttemptsBounded(st.sessions)
    ensures AttemptsBounded(Verify(st, phoneNumber, otp, now, drawn).1.sessions)
  {
    if Truthy(phoneNumber) && Truthy(otp) {
      CheckCodeKeepsAttemptsBounded(st, NormalizePhoneNumber(phoneNumber.value), otp.value, now, drawn);
    }
  }

  lemma CheckCodeKeepsAttemptsBounded(st: State, phone: string, code: string, now: int, drawn: UserDraw)
    requires AttemptsBounded(st.sessions)
    ensures AttemptsBounded(CheckCode(st, phone, code, now, drawn).1.sessions)
  {
    var found := ActiveSession(st.sessions, phone, now);
    var sessions := PruneExpired(st.sessions, phone, now);
    var after := CheckCode(st, phone, code, now, drawn).1.sessions;
    PruneKeepsAttemptsBounded(st.sessions, phone, now);
    if found.None? || found.value.attempts >= MaxAttempts {
      assert after == sessions;
    } else if found.value.otpCode != code {
      UpdateKeepsAttemptsBounded(sessions, phone, SetAttempts(found.value.attempts + 1));
      assert after == UpdateSessions(sessions, phone, SetAttempts(found.value.attempts + 1)).1;
    } else {
      UpdateKeepsAttemptsBounded(sessions, phone, SetVerified());
      assert after == UpdateSessions(sessions, phone, SetVerified()).1;
    }
  }

  lemma PruneKeepsAttemptsBounded(sessions: Sessions, phone: string, now: int)
    requires AttemptsBounded(sessions)
    ensures AttemptsBounded(PruneExpired(sessions, phone, now))
  {
  }

  lemma UpdateKeepsAttemptsBounded(sessions: Sessions, phone: string, u: SessionUpdate)
    requires AttemptsBounded(sessions)
    requires u.attempts.Some? ==> 0 <= u.attempts.value <= MaxAttempts
    ensures AttemptsBounded(UpdateSessions(sessions, phone, u).1)
  {
  }

  /** A newly created session starts within the bound, and creating it keeps
      the bound for the whole store. */
  lemma CreateKeepsAttemptsBounded(sessions: Sessions, id: string, p: string, code: string, created: int, clock: int)
    requires AttemptsBounded(sessions)
    ensures AttemptsBounded(sessions[p := NewSession(id, p, code, created, clock)])
  {
  }

  /** Three wrong codes against a drawn session exhaust it: a fourth call is
      refused with "Too many attempts" even when it carries the right code. */
  lemma {:induction false} ThreeWrongCodesLockOut(
    st: State, phone: string, wrong: string, id: string, created: int, clock: int,
    t1: int, t2: int, t3: int, t4: int, drawn: UserDraw)
    requires phone != "" && wrong != ""
    requires var p := NormalizePhoneNumber(phone);
      p in st.sessions && st.sessions[p] == NewSession(id, p, st.sessions[p].otpCode, created, clock)
    requires wrong != st.sessions[NormalizePhoneNumber(phone)].otpCode
    requires st.sessions[NormalizePhoneNumber(phone)].otpCode != ""
    requires clock <= t1 <= t2 <= t3 <= t4 <= clock + SessionLifetime
    ensures var code := st.sessions[NormalizePhoneNumber(phone)].otpCode;
      var st1 := Verify(st, Some(phone), Some(wrong), t1, drawn).1;
      var st2 := Verify(st1, Some(phone), Some(wrong), t2, drawn).1;
      var st3 := Verify(st2, Some(phone), Some(wrong), t3, drawn).1;
      Verify(st3, Some(phone), Some(code), t4, drawn).0 == Failure(400, TooManyAttemptsMessage)
      && st3.users == st.users
  {
    var p := NormalizePhoneNumber(phone);
    var s := st.sessions[p];
    var st1 := Verify(st, Some(phone), Some(wrong), t1, drawn).1;
    WrongCodeCountsAttempt(st, phone, wrong, t1, drawn);
    assert st1.sessions[p] == s.(attempts := 1);
    var st2 := Verify(st1, Some(phone), Some(wrong), t2, drawn).1;
    WrongCodeCountsAttempt(st1, phone, wrong, t2, drawn);
    assert st2.sessions[p] == s.(attempts := 2);
    var st3 := Verify(st2, Some(phone), Some(wrong), t3, drawn).1;
    WrongCodeCountsAttempt(st2, phone, wrong, t3, drawn);
    assert st3.sessions[p] == s.(attempts := 3);
    TooManyAttemptsRefused(st3, phone, s.otpCode, t4, drawn);
  }

  /** Once a phone has a user, a later correct verification on a new session
      returns the same user id and creates nobody. */
  lemma {:induction false} ReverifyReturnsSameUser(
    st: State, phone: string, code: string, code2: string, id2: string,
    now: int, later: int, drawn: UserDraw, other: UserDraw)
    requires phone != "" && code != "" && code2 != ""
    requires var s := ActiveSession(st.sessions, NormalizePhoneNumber(phone), now);
      s.Some? && s.value.attempts < 3 && s.value.otpCode == code
    requires now <= later
    ensures var p := NormalizePhoneNumber(phone);
      var (r1, st1) := Verify(st, Some(phone), Some(code), now, drawn);
      var st2 := st1.(sessions := st1.sessions[p := NewSession(id2, p, code2, later, later)]);
      var (r2, st3) := Verify(st2, Some(phone), Some(code2), later, other);
      r1.Success? && r2.Success? && r2.userId == r1.userId && st3.users == st1.users
  {
    var p := NormalizePhoneNumber(phone);
    RightCodeVerifies(st, phone, code, now, drawn);
    var (r1, st1) := Verify(st, Some(phone), Some(code), now, drawn);
    assert p in st1.users && r1.userId == st1.users[p].id;
    var st2 := st1.(sessions := st1.sessions[p := NewSession(id2, p, code2, later, later)]);
    ActiveSessionSpec(st2.sessions, p, later);
    RightCodeVerifies(st2, phone, code2, later, other);
  }
}
