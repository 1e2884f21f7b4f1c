/** The server's authentication tables: login cache, sessions and trusted device
    keys (todoers-server/src/db.rs:614-846). Times are whole seconds. */
module AuthTables {
  import opened Helpers
  import opened Updates

  type LoginId = nat
  type TokenHash = nat
  type DeviceId = nat
  type DeviceKey = nat
  type Nonce = nat
  type Time = int

  const LOGIN_TTL: Time := 60
  const SESSION_TTL: Time := 30 * 24 * 60 * 60
  const STEP_UP_TTL: Time := 5 * 60

  /** The transient state of a login: an opaque password exchange, or a device
      challenge with its nonce. */
  datatype Stash = Opaque(state: nat) | Challenge(device: DeviceId, nonce: Nonce)

  /** No member: the unknown-user path, which cannot be told apart from outside. */
  datatype LoginRow = LoginRow(stash: Stash, member: Option<MemberId>, expires: Time)

  /** No device: a password login. */
  datatype SessionRow = SessionRow(member: MemberId, device: Option<DeviceId>, created: Time, expires: Time)

  datatype DeviceRow = DeviceRow(key: DeviceKey, revoked: bool)

  datatype Tables = Tables(
    now: Time,
    users: set<MemberId>,
    logins: map<LoginId, LoginRow>,
    sessions: map<TokenHash, SessionRow>,
    devices: map<(MemberId, DeviceId), DeviceRow>)

  /** `fetch_active_device_pub` */
  function ActiveKey(t: Tables, member: MemberId, device: DeviceId): Option<DeviceKey> {
    if (member, device) in t.devices && !t.devices[(member, device)].revoked then Some(t.devices[(member, device)].key)
    else None
  }

  /** `lookup_session` */
  function Lookup(t: Tables, token: TokenHash): Option<SessionRow> {
    if token in t.sessions && t.sessions[token].expires > t.now then Some(t.sessions[token]) else None
  }

  /** `login_start` */
  function Stashed(t: Tables, id: LoginId, stash: Stash, member: Option<MemberId>): Tables {
    t.(logins := t.logins[id := LoginRow(stash, member, t.now + LOGIN_TTL)])
  }

  /** What `login_finish` finds; it deletes the row either way. */
  function Found(t: Tables, id: LoginId): Option<LoginRow> {
    if id in t.logins && t.logins[id].expires > t.now then Some(t.logins[id]) else None
  }

  function Consumed(t: Tables, id: LoginId): Tables {
    t.(logins := t.logins - {id})
  }

  /** `create_session`; the creation time is the clock's. */
  function Minted(t: Tables, token: TokenHash, member: MemberId, device: Option<DeviceId>): Tables {
    t.(sessions := t.sessions[token := SessionRow(member, device, t.now, t.now + SESSION_TTL)])
  }

  /** `enroll_trusted_device_key` */
  function Enrolled(t: Tables, member: MemberId, device: DeviceId, key: DeviceKey): Tables {
    t.(devices := t.devices[(member, device) := DeviceRow(key, false)])
  }

  function SessionsWithout(sessions: map<TokenHash, SessionRow>, member: MemberId, device: DeviceId)
    : map<TokenHash, SessionRow>
  {
    map k | k in sessions && !(sessions[k].member == member && sessions[k].device == Some(device)) :: sessions[k]
  }

  /** `revoke_trusted_device_key`: the row stays, marked, and the sessions the
      device minted go. */
  function Revoked(t: Tables, member: MemberId, device: DeviceId): Tables {
    t.(devices := if (member, device) in t.devices
                  then t.devices[(member, device) := t.devices[(member, device)].(revoked := true)] else t.devices,
       sessions := SessionsWithout(t.sessions, member, device))
  }

  function SessionsAfter(sessions: map<TokenHash, SessionRow>, now: Time): map<TokenHash, SessionRow> {
    map k | k in sessions && sessions[k].expires > now :: sessions[k]
  }

  function LoginsAfter(logins: map<LoginId, LoginRow>, now: Time): map<LoginId, LoginRow> {
    map k | k in logins && logins[k].expires > now :: logins[k]
  }

  // ── the handlers' decisions ───────────────────────────────────────────────

  datatype Refusal = Unauthorized | StepUpRequired

  datatype Answer<+T> = Granted(value: T) | Refused(why: Refusal)

  /** The extractor, then `require_password_step_up`. */
  function SteppedUp(t: Tables, token: TokenHash): Answer<MemberId> {
    match Lookup(t, token)
    case None => Refused(Unauthorized)
    case Some(s) =>
      if s.device.Some? || t.now - s.created > STEP_UP_TTL then Refused(StepUpRequired) else Granted(s.member)
  }

  /** An ideal signature over the device challenge view. */
  datatype Signature = Signature(key: DeviceKey, member: MemberId, device: DeviceId, nonce: Nonce) | Forged

  /** What a finished login proves. */
  datatype Proof = Knows(state: nat) | Signed(signature: Signature)

  /** Whom a consumed login authenticates, and as which device. */
  datatype Identity = Identity(member: MemberId, device: Option<DeviceId>)

  /** The password half of `login_finish`. */
  function PasswordIdentity(t: Tables, row: LoginRow, proof: Proof): Answer<Identity> {
    if row.member.None? then Refused(Unauthorized)
    else if !row.stash.Opaque? || proof != Knows(row.stash.state) then Refused(Unauthorized)
    else if row.member.value !in t.users then Refused(Unauthorized)
    else Granted(Identity(row.member.value, None))
  }

  /** The device half. */
  function DeviceIdentity(t: Tables, row: LoginRow, proof: Proof): Answer<Identity> {
    if row.member.None? || !row.stash.Challenge? then Refused(Unauthorized)
    else
      var m, d := row.member.value, row.stash.device;
      match ActiveKey(t, m, d)
      case None => Refused(Unauthorized)
      case Some(key) =>
        if proof != Signed(Signature(key, m, d, row.stash.nonce)) then Refused(Unauthorized)
        else if m !in t.users then Refused(Unauthorized)
        else Granted(Identity(m, Some(d)))
  }

  /** The database connection behind the handlers. */
  class AuthDb {
    var now: Time
    var users: set<MemberId>
    var logins: map<LoginId, LoginRow>
    var sessions: map<TokenHash, SessionRow>
    var devices: map<(MemberId, DeviceId), DeviceRow>

    function View(): Tables
      reads this
    {
      Tables(now, users, logins, sessions, devices)
    }

    method LoginStart(id: LoginId, stash: Stash, member: Option<MemberId>)
      modifies this
      ensures View() == Stashed(old(View()), id, stash, member)
    {
      logins := logins[id := LoginRow(stash, member, now + LOGIN_TTL)];
    }

    method LoginFinish(id: LoginId) returns (row: Option<LoginRow>)
      modifies this
      ensures row == Found(old(View()), id) && View() == Consumed(old(View()), id)
    {
      row := if id in logins && logins[id].expires > now then Some(logins[id]) else None;
      logins := logins - {id};
    }

    method CreateSession(token: TokenHash, member: MemberId, device: Option<DeviceId>)
      modifies this
      ensures View() == Minted(old(View()), token, member, device)
    {
      sessions := sessions[token := SessionRow(member, device, now, now + SESSION_TTL)];
    }

    /** `POST /v1/auth/devices` */
    method Enroll(token: TokenHash, device: DeviceId, key: DeviceKey) returns (answer: Answer<()>)
      modifies this
      ensures var caller := SteppedUp(old(View()), token);
        && answer == (if caller.Granted? then Granted(()) else Refused(caller.why))
        && View() == if caller.Granted? then Enrolled(old(View()), caller.value, device, key) else old(View())
    {
      var caller := SteppedUp(View(), token);
      if caller.Refused? {
        return Refused(caller.why);
      }
      devices := devices[(caller.value, device) := DeviceRow(key, false)];
      answer := Granted(());
    }

    /** `DELETE /v1/auth/devices` */
    method Revoke(token: TokenHash, device: DeviceId) returns (answer: Answer<()>)
      modifies this
      ensures var caller := SteppedUp(old(View()), token);
        && answer == (if caller.Granted? then Granted(()) else Refused(caller.why))
        && View() == if caller.Granted? then Revoked(old(View()), caller.value, device) else old(View())
    {
      var caller := SteppedUp(View(), token);
      if caller.Refused? {
        return Refused(caller.why);
      }
      var key := (caller.value, device);
      if key in devices {
        devices := devices[key := devices[key].(revoked := true)];
      }
      sessions := SessionsWithout(sessions, caller.value, device);
      answer := Granted(());
    }

    method Logout(token: TokenHash) returns (answer: Answer<()>)
      modifies this
      ensures answer.Granted? == Lookup(old(View()), token).Some?
      ensures View() == if answer.Granted? then old(View()).(sessions := old(sessions) - {token}) else old(View())
    {
      if Lookup(View(), token).None? {
        return Refused(Unauthorized);
      }
      sessions := sessions - {token};
      answer := Granted(());
    }

    /** `POST /v1/auth/device-login/start` */
    method DeviceLoginStart(member: MemberId, device: DeviceId, id: LoginId, nonce: Nonce)
      returns (answer: Answer<LoginId>)
      modifies this
      ensures answer == if ActiveKey(old(View()), member, device).Some? then Granted(id) else Refused(Unauthorized)
      ensures View() == if answer.Granted? then Stashed(old(View()), id, Challenge(device, nonce), Some(member))
                        else old(View())
    {
      if ActiveKey(View(), member, device).None? {
        return Refused(Unauthorized);
      }
      LoginStart(id, Challenge(device, nonce), Some(member));
      answer := Granted(id);
    }

    /** `POST /v1/auth/device-login/finish` and `POST /v1/auth/login/finish`, run
        without interruption. */
    method FinishLogin(id: LoginId, proof: Proof, token: TokenHash, asDevice: bool) returns (answer: Answer<Identity>)
      modifies this
      ensures answer == Finishing(old(View()), id, proof, asDevice)
      ensures View() == if answer.Granted?
                        then Minted(Consumed(old(View()), id), token, answer.value.member, answer.value.device)
                        else Consumed(old(View()), id)
    {
      var row := LoginFinish(id);
      if row.None? {
        return Refused(Unauthorized);
      }
      answer := if asDevice then DeviceIdentity(View(), row.value, proof)
          else PasswordIdentity(View(), row.value, proof);
      if answer.Granted? {
        CreateSession(token, answer.value.member, answer.value.device);
      }
    }
  }

  function Finishing(t: Tables, id: LoginId, proof: Proof, asDevice: bool): Answer<Identity> {
    match Found(t, id)
    case None => Refused(Unauthorized)
    case Some(row) => if asDevice then DeviceIdentity(t, row, proof) else PasswordIdentity(t, row, proof)
  }

  /** From the start of a password login to its finish: a session for exactly one
      member comes of it exactly when the login names that member, who is registered,
      the finish comes within a minute on the password's route, and it proves the
      very state the login was started with. */
  lemma PasswordLoginIff(t: Tables, id: LoginId, state: nat, member: Option<MemberId>, seconds: nat, proof: Proof,
                         asDevice: bool, who: Identity)
    ensures var started := Stashed(t, id, Opaque(state), member);
            Finishing(started.(now := t.now + seconds), id, proof, asDevice) == Granted(who) <==>
              && !asDevice && seconds < 60 && proof == Knows(state)
              && who == Identity(who.member, None) && member == Some(who.member) && who.member in t.users
  {
  }

  /** The same for a device: exactly when it is active under some key, and the
      finish is signed with that key over this member, device and nonce. */
  lemma DeviceLoginIff(t: Tables, id: LoginId, m: MemberId, d: DeviceId, nonce: Nonce, seconds: nat, proof: Proof,
                       asDevice: bool, who: Identity)
    ensures var started := Stashed(t, id, Challenge(d, nonce), Some(m));
            Finishing(started.(now := t.now + seconds), id, proof, asDevice) == Granted(who) <==>
              && asDevice && seconds < 60 && who == Identity(m, Some(d)) && m in t.users
              && (m, d) in t.devices && !t.devices[(m, d)].revoked
              && proof == Signed(Signature(t.devices[(m, d)].key, m, d, nonce))
  {
  }
}
