/** The in-memory session and user store used when no database is configured
    (lib/mock-storage.ts). One session and one user per phone number; expiry is
    checked lazily when a session is read. */
module MockStorage {
  import opened Text

  /** `OTPSession`; timestamps are milliseconds since the epoch. */
  datatype OtpSession = OtpSession(
    id: string,
    phoneNumber: string,
    otpCode: string,
    isVerified: bool,
    attempts: int,
    createdAt: int,
    expiresAt: int)

  /** `User` */
  datatype User = User(id: string, phoneNumber: string, fullName: Option<string>, createdAt: int)

  /** `Partial<OTPSession>`: each field is either supplied or absent. */
  datatype SessionUpdate = SessionUpdate(
    id: Option<string>,
    phoneNumber: Option<string>,
    otpCode: Option<string>,
    isVerified: Option<bool>,
    attempts: Option<int>,
    createdAt: Option<int>,
    expiresAt: Option<int>)

  const NoUpdate := SessionUpdate(None, None, None, None, None, None, None)

  /** A session lives for 10 minutes. */
  const SessionLifetime: int := 10 * 60 * 1000

  type Sessions = map<string, OtpSession>
  type Users = map<string, User>

  /** The record `createOTPSession` builds. `createdAt` is the `new Date()`
      reading and `clock` the later `Date.now()` reading the expiry counts
      from. */
  function NewSession(id: string, phoneNumber: string, otpCode: string, createdAt: int, clock: int): (s: OtpSession)
    ensures s.phoneNumber == phoneNumber && s.otpCode == otpCode
    ensures !s.isVerified && s.attempts == 0
    ensures s.createdAt == createdAt && s.expiresAt == clock + 600000
    ensures createdAt <= clock ==> s.expiresAt - s.createdAt >= 600000
  {
    OtpSession(id, phoneNumber, otpCode, false, 0, createdAt, clock + SessionLifetime)
  }

  /** The record `createUser` builds. */
  function NewUser(id: string, phoneNumber: string, now: int): (user: User)
    ensures user.id == id && user.phoneNumber == phoneNumber
    ensures user.fullName.None? && user.createdAt == now
  {
    User(id, phoneNumber, None, now)
  }

  /** `Object.assign(session, updates)` */
  function Assign(s: OtpSession, u: SessionUpdate): (r: OtpSession)
    ensures u == NoUpdate ==> r == s
    ensures u.id.None? && u.phoneNumber.None? && u.otpCode.None? && u.createdAt.None? && u.expiresAt.None? ==>
      r.id == s.id && r.phoneNumber == s.phoneNumber && r.otpCode == s.otpCode
      && r.createdAt == s.createdAt && r.expiresAt == s.expiresAt
  {
    OtpSession(
      if u.id.Some? then u.id.value else s.id,
      if u.phoneNumber.Some? then u.phoneNumber.value else s.phoneNumber,
      if u.otpCode.Some? then u.otpCode.value else s.otpCode,
      if u.isVerified.Some? then u.isVerified.value else s.isVerified,
      if u.attempts.Some? then u.attempts.value else s.attempts,
      if u.createdAt.Some? then u.createdAt.value else s.createdAt,
      if u.expiresAt.Some? then u.expiresAt.value else s.expiresAt)
  }

  /** Assigning an update changes exactly the fields it supplies, each to
      the supplied value, and assigning it twice is the same as once. */
  lemma AssignChangesOnlySupplied(s: OtpSession, u: SessionUpdate)
    ensures Assign(Assign(s, u), u) == Assign(s, u)
    ensures Assign(s, u).id == if u.id.Some? then u.id.value else s.id
    ensures Assign(s, u).phoneNumber == if u.phoneNumber.Some? then u.phoneNumber.value else s.phoneNumber
    ensures Assign(s, u).otpCode == if u.otpCode.Some? then u.otpCode.value else s.otpCode
    ensures Assign(s, u).isVerified == if u.isVerified.Some? then u.isVerified.value else s.isVerified
    ensures Assign(s, u).attempts == if u.attempts.Some? then u.attempts.value else s.attempts
    ensures Assign(s, u).createdAt == if u.createdAt.Some? then u.createdAt.value else s.createdAt
    ensures Assign(s, u).expiresAt == if u.expiresAt.Some? then u.expiresAt.value else s.expiresAt
  {
  }

  /** The update the verification route makes after a wrong code. */
  function SetAttempts(n: int): SessionUpdate
  {
    NoUpdate.(attempts := Some(n))
  }

  /** The update the verification route makes after a correct code. */
  function SetVerified(): SessionUpdate
  {
    NoUpdate.(isVerified := Some(true))
  }

  /** `new Date() > session.expires_at`: a session is still live at exactly its
      expiry instant. */
  predicate IsExpired(s: OtpSession, now: int)
  {
    now > s.expiresAt
  }

  /** What `getOTPSession` returns. */
  function ActiveSession(sessions: Sessions, phoneNumber: string, now: int): (r: Option<OtpSession>)
    ensures r.Some? ==> phoneNumber in sessions && r.value == sessions[phoneNumber] && now <= r.value.expiresAt
    ensures r.None? ==> phoneNumber !in sessions || now > sessions[phoneNumber].expiresAt
  {
    if phoneNumber !in sessions || IsExpired(sessions[phoneNumber], now) then None
    else Some(sessions[phoneNumber])
  }

  /** The sessions after `getOTPSession`: an expired entry for the phone is
      deleted. */
  function PruneExpired(sessions: Sessions, phoneNumber: string, now: int): (r: Sessions)
    ensures r.Keys <= sessions.Keys
    ensures forall p :: p in r ==> r[p] == sessions[p]
    ensures forall p :: p in sessions && p != phoneNumber ==> p in r
  {
    if phoneNumber in sessions && IsExpired(sessions[phoneNumber], now) then sessions - {phoneNumber}
    else sessions
  }

  /** What `updateOTPSession` returns and leaves behind. */
  function UpdateSessions(sessions: Sessions, phoneNumber: string, u: SessionUpdate): (out: (bool, Sessions))
    ensures out.0 <==> phoneNumber in sessions
    ensures out.1.Keys == sessions.Keys
    ensures forall p :: p in sessions && p != phoneNumber ==> out.1[p] == sessions[p]
    ensures out.0 ==> out.1[phoneNumber] == Assign(sessions[phoneNumber], u)
  {
    if phoneNumber !in sessions then (false, sessions)
    else (true, sessions[phoneNumber := Assign(sessions[phoneNumber], u)])
  }

  /** A lookup at `now` returns the stored session, verified or not, exactly
      when one exists and `now` has not passed its expiry; the entry is
      deleted exactly when it exists and has expired. */
  lemma ActiveSessionSpec(sessions: Sessions, phoneNumber: string, now: int)
    ensures ActiveSession(sessions, phoneNumber, now).Some? <==>
      phoneNumber in sessions && now <= sessions[phoneNumber].expiresAt
    ensures ActiveSession(sessions, phoneNumber, now).Some? ==>
      ActiveSession(sessions, phoneNumber, now).value == sessions[phoneNumber]
    ensures ActiveSession(sessions, phoneNumber, now).Some? ==>
      PruneExpired(sessions, phoneNumber, now) == sessions
    ensures ActiveSession(sessions, phoneNumber, now).None? ==>
      PruneExpired(sessions, phoneNumber, now) == sessions - {phoneNumber}
  {
  }

  /** A session whose expiry was counted from the clock reading `clock` is
      returned by every lookup up to and including `clock + 600000`, and by
      none after, whether or not it has been verified. */
  lemma CreatedSessionLifetime(sessions: Sessions, id: string, phoneNumber: string, code: string,
                               created: int, clock: int, now: int, verified: bool)
    ensures var s := NewSession(id, phoneNumber, code, created, clock);
      var stored := sessions[phoneNumber := s.(isVerified := verified)];
      ActiveSession(stored, phoneNumber, now) ==
        if now <= clock + 600000 then Some(s.(isVerified := verified)) else None
  {
  }

  /** Creating a session for one phone leaves every other phone's lookup as
      it was. */
  lemma CreateKeepsOtherPhones(sessions: Sessions, s: OtpSession, phoneNumber: string, other: string, now: int)
    requires other != phoneNumber
    ensures ActiveSession(sessions[phoneNumber := s], other, now) == ActiveSession(sessions, other, now)
  {
  }

  /** The store keys every session and user by its own phone number. */
  predicate Keyed(sessions: Sessions, users: Users)
  {
    (forall p :: p in sessions ==> sessions[p].phoneNumber == p)
    && (forall p :: p in users ==> users[p].phoneNumber == p)
  }

  /** The store of lib/mock-storage.ts: two maps changed in place. */
  class Store {
    var otpSessions: Sessions
    var users: Users

    constructor ()
      ensures otpSessions == map[] && users == map[]
      ensures Keyed(otpSessions, users)
    {
      otpSessions := map[];
      users := map[];
    }

    /** `createOTPSession`; the random id and the two clock readings are
      parameters. */
    method CreateOtpSession(phoneNumber: string, otpCode: string, id: string, createdAt: int, clock: int)
      returns (session: OtpSession)
      modifies this
      ensures session == OtpSession(id, phoneNumber, otpCode, false, 0, createdAt, clock + 600000)
      ensures otpSessions == old(otpSessions)[phoneNumber := session]
      ensures users == old(users)
      ensures old(Keyed(otpSessions, users)) ==> Keyed(otpSessions, users)
    {
      session := NewSession(id, phoneNumber, otpCode, createdAt, clock);
      otpSessions := otpSessions[phoneNumber := session];
    }

    /** `getOTPSession` at time `now`. */
    method GetOtpSession(phoneNumber: string, now: int) returns (session: Option<OtpSession>)
      modifies this
      ensures session == ActiveSession(old(otpSessions), phoneNumber, now)
      ensures otpSessions == PruneExpired(old(otpSessions), phoneNumber, now)
      ensures users == old(users)
      ensures old(Keyed(otpSessions, users)) ==> Keyed(otpSessions, users)
    {
      if phoneNumber !in otpSessions {
        return None;
      }
      var s := otpSessions[phoneNumber];
      if now > s.expiresAt {
        otpSessions := otpSessions - {phoneNumber};
        return None;
      }
      return Some(s);
    }

    /** `updateOTPSession` */
    method UpdateOtpSession(phoneNumber: string, updates: SessionUpdate) returns (updated: bool)
      modifies this
      ensures updated == (phoneNumber in old(otpSessions))
      ensures otpSessions == UpdateSessions(old(otpSessions), phoneNumber, updates).1
      ensures !updated ==> otpSessions == old(otpSessions)
      ensures users == old(users)
      ensures old(Keyed(otpSessions, users)) && updates.phoneNumber.None? ==> Keyed(otpSessions, users)
    {
      if phoneNumber !in otpSessions {
        return false;
      }
      otpSessions := otpSessions[phoneNumber := Assign(otpSessions[phoneNumber], updates)];
      return true;
    }

    /** `createUser`; the random id and the clock are parameters. */
    method CreateUser(phoneNumber: string, id: string, now: int) returns (user: User)
      modifies this
      ensures user == User(id, phoneNumber, None, now)
      ensures users == old(users)[phoneNumber := user]
      ensures otpSessions == old(otpSessions)
      ensures old(Keyed(otpSessions, users)) ==> Keyed(otpSessions, users)
    {
      user := NewUser(id, phoneNumber, now);
      users := users[phoneNumber := user];
    }

    /** `getUser`: the user stored under the phone, if any. */
    method GetUser(phoneNumber: string) returns (user: Option<User>)
      ensures user.Some? <==> phoneNumber in users
      ensures user.Some? ==> user.value == users[phoneNumber]
    {
      if phoneNumber in users {
        return Some(users[phoneNumber]);
      }
      return None;
    }

    /** `getUserById`: a search over the stored users. */
    method GetUserById(id: string) returns (user: Option<User>)
      ensures user.Some? ==> user.value.id == id && exists p :: p in users && users[p] == user.value
      ensures user.None? ==> forall p :: p in users ==> users[p].id != id
    {
      var unvisited := users.Keys;
      while unvisited != {}
        invariant unvisited <= users.Keys
        invariant forall p :: p in users && p !in unvisited ==> users[p].id != id
        decreases unvisited
      {
        var p :| p in unvisited;
        if users[p].id == id {
          return Some(users[p]);
        }
        unvisited := unvisited - {p};
      }
      return None;
    }
  }
}
