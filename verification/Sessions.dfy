/** Whole runs of the authentication server. The finishing handlers
    (todoers-server/src/routes/device.rs:106-172,
    todoers-server/src/routes/auth.rs:231-275) are taken apart into reading the
    login, deleting it (todoers-server/src/db.rs:680-702, a transaction at the
    database's default isolation level), proving the identity and minting the
    session, and any other request, which is one step, may fall in between. */
module Sessions {
  import opened Helpers
  import opened Updates
  import opened AuthTables

  /** A finish request under way. */
  datatype Flight =
    | Reading(id: LoginId, found: Option<LoginRow>)  // read, not deleted yet
    | Taken(id: LoginId, row: LoginRow)
    | Proven(id: LoginId, who: Identity)

  datatype Enrolment = Enrolment(member: MemberId, device: DeviceId, at: Time)

  /** The login and the request a token came from. */
  datatype Minting = Minting(login: LoginId, flight: nat)

  /** What has happened: ids handed out, finish requests begun, the tokens minted,
      password logins and enrolments with their times. */
  datatype Past = Past(
    ids: set<LoginId>,
    flights: set<nat>,
    tokens: map<TokenHash, Minting>,
    passwords: set<(MemberId, Time)>,
    enrolments: set<Enrolment>)

  datatype World = World(tables: Tables, flights: map<nat, Flight>, past: Past)

  datatype Event =
    | Tick(seconds: nat)
    | Register(who: MemberId)
    | StartPassword(id: LoginId, state: nat, user: Option<MemberId>)
    | StartDevice(id: LoginId, who: MemberId, device: DeviceId, nonce: Nonce)
    | Read(flight: nat, id: LoginId)
    | Delete(flight: nat)
    | Prove(flight: nat, proof: Proof, asDevice: bool)
    | Mint(flight: nat, token: TokenHash)
    | Abandon(flight: nat)
    | Enroll(token: TokenHash, device: DeviceId, key: DeviceKey)
    | Revoke(token: TokenHash, device: DeviceId)
    | Logout(token: TokenHash)
    | Sweep

  /** Random ids and tokens do not repeat; a handler does its steps in order. */
  predicate Allowed(w: World, e: Event) {
    match e
    case StartPassword(id, _, _) => id !in w.past.ids
    case StartDevice(id, _, _, _) => id !in w.past.ids
    case Read(f, _) => f !in w.past.flights
    case Delete(f) => f in w.flights && w.flights[f].Reading?
    case Prove(f, _, _) => f in w.flights && w.flights[f].Taken?
    case Mint(f, token) => f in w.flights && w.flights[f].Proven? && token !in w.past.tokens
    case _ => true
  }

  function Next(w: World, e: Event): World
    requires Allowed(w, e)
  {
    var t, past := w.tables, w.past;
    match e
    case Tick(seconds) => w.(tables := t.(now := t.now + seconds))
    case Register(m) => w.(tables := t.(users := t.users + {m}))
    case StartPassword(id, state, member) =>
      w.(tables := Stashed(t, id, Opaque(state), member), past := past.(ids := past.ids + {id}))
    case StartDevice(id, m, d, nonce) =>
      if ActiveKey(t, m, d).Some?
      then w.(tables := Stashed(t, id, Challenge(d, nonce), Some(m)), past := past.(ids := past.ids + {id}))
      else w
    case Read(f, id) =>
      w.(flights := w.flights[f := Reading(id, Found(t, id))], past := past.(flights := past.flights + {f}))
    case Delete(f) => (
      var id := w.flights[f].id;
      match w.flights[f].found
      case Some(row) => w.(tables := Consumed(t, id), flights := w.flights[f := Taken(id, row)])
      case None => w.(tables := Consumed(t, id), flights := w.flights - {f}))
    case Prove(f, proof, asDevice) =>
      var taken := w.flights[f];
      var answer := if asDevice then DeviceIdentity(t, taken.row, proof) else PasswordIdentity(t, taken.row, proof);
      if answer.Granted? then w.(flights := w.flights[f := Proven(taken.id, answer.value)])
      else w.(flights := w.flights - {f})
    case Mint(f, token) =>
      var flight := w.flights[f];
      World(Minted(t, token, flight.who.member, flight.who.device), w.flights - {f},
            past.(tokens := past.tokens[token := Minting(flight.id, f)],
                  passwords := past.passwords + if flight.who.device.None? then {(flight.who.member, t.now)} else {}))
    case Abandon(f) => w.(flights := w.flights - {f})
    case Enroll(token, d, key) =>
      var caller := SteppedUp(t, token);
      if caller.Granted?
      then w.(tables := Enrolled(t, caller.value, d, key),
              past := past.(enrolments := past.enrolments + {Enrolment(caller.value, d, t.now)}))
      else w
    case Revoke(token, d) =>
      var caller := SteppedUp(t, token);
      if caller.Granted? then w.(tables := Revoked(t, caller.value, d)) else w
    case Logout(token) =>
      if Lookup(t, token).Some? then w.(tables := t.(sessions := t.sessions - {token})) else w
    case Sweep => w.(tables := t.(sessions := SessionsAfter(t.sessions, t.now), logins := LoginsAfter(t.logins, t.now)))
  }

  predicate Start(w: World) {
    && w.tables.logins == map[] && w.tables.sessions == map[] && w.tables.devices == map[]
    && w.flights == map[] && w.past == Past({}, {}, map[], {}, {})
  }

  ghost predicate Run(ws: seq<World>, es: seq<Event>) {
    && |ws| == |es| + 1 && Start(ws[0])
    && forall i | 0 <= i < |es| :: Allowed(ws[i], es[i]) && ws[i + 1] == Next(ws[i], es[i])
  }

  // ── how often a login id mints ────────────────────────────────────────────

  /** The request got the row and can still mint from it. */
  predicate Carries(w: World, f: nat, id: LoginId) {
    f in w.flights && w.flights[f].id == id && (w.flights[f].Reading? ==> w.flights[f].found.Some?)
  }

  ghost predicate MintedBy(w: World, f: nat, id: LoginId) {
    exists k :: k in w.past.tokens && w.past.tokens[k] == Minting(id, f)
  }

  ghost predicate Got(w: World, f: nat, id: LoginId) {
    Carries(w, f, id) || MintedBy(w, f, id)
  }

  /** Both requests have read the row and neither has deleted it. */
  predicate BothReading(w: World, f: nat, g: nat, id: LoginId) {
    f != g && Carries(w, f, id) && Carries(w, g, id) && w.flights[f].Reading? && w.flights[g].Reading?
  }

  /** A request mints at most once, and a row some request has deleted is gone. */
  ghost predicate Tracked(w: World) {
    && w.tables.logins.Keys <= w.past.ids && w.flights.Keys <= w.past.flights
    && (forall f | f in w.flights && !w.flights[f].Reading? ::
          w.flights[f].id in w.past.ids && w.flights[f].id !in w.tables.logins)
    && (forall f | f in w.flights && w.flights[f].Reading? && w.flights[f].found.Some? :: w.flights[f].id in w.past.ids)
    && (forall k | k in w.past.tokens :: var m := w.past.tokens[k];
          m.login in w.past.ids && m.login !in w.tables.logins && m.flight in w.past.flights && m.flight !in w.flights)
    && (forall j, k | j in w.past.tokens && k in w.past.tokens && w.past.tokens[j].flight == w.past.tokens[k].flight ::
          j == k)
  }

  lemma FlightStepKeepsTracked(w: World, e: Event)
    requires Tracked(w) && Allowed(w, e) && (e.Read? || e.Delete? || e.Prove? || e.Mint? || e.Abandon?)
    ensures Tracked(Next(w, e))
  {
  }

  lemma StepKeepsTracked(w: World, e: Event)
    requires Tracked(w) && Allowed(w, e)
    ensures Tracked(Next(w, e))
  {
    if e.Read? || e.Delete? || e.Prove? || e.Mint? || e.Abandon? {
      FlightStepKeepsTracked(w, e);
    }
  }

  lemma {:induction false} RunKeepsTracked(ws: seq<World>, es: seq<Event>, n: nat)
    requires Run(ws, es) && n <= |es|
    ensures Tracked(ws[n])
    decreases n
  {
    if n > 0 {
      RunKeepsTracked(ws, es, n - 1);
      StepKeepsTracked(ws[n - 1], es[n - 1]);
    }
  }

  /** Only a read gives a request a row. */
  lemma CarriersAreNotNew(w: World, e: Event, f: nat, id: LoginId)
    requires Allowed(w, e) && !(e.Read? && e.flight == f)
    requires Got(Next(w, e), f, id)
    ensures Got(w, f, id)
  {
    var w' := Next(w, e);
    if MintedBy(w', f, id) {
      var k :| k in w'.past.tokens && w'.past.tokens[k] == Minting(id, f);
      if k in w.past.tokens && w.past.tokens[k] == Minting(id, f) {
        assert MintedBy(w, f, id);
      }
    }
  }

  /** Whoever reads a row meets only requests that have not deleted it either. */
  lemma ReaderMeetsReaders(w: World, f: nat, g: nat, id: LoginId)
    requires Tracked(w) && Allowed(w, Read(f, id)) && f != g
    requires Carries(Next(w, Read(f, id)), f, id)
    requires Got(w, g, id)
    ensures BothReading(Next(w, Read(f, id)), f, g, id)
  {
    assert id in w.tables.logins;
  }

  ghost predicate Raced(ws: seq<World>, n: nat, f: nat, g: nat, id: LoginId)
    requires n < |ws|
  {
    exists i :: 0 <= i <= n && BothReading(ws[i], f, g, id)
  }

  /** Two requests that got the same row had both read it before either deleted it. */
  lemma {:induction false} CarriersRaced(ws: seq<World>, es: seq<Event>, n: nat, f: nat, g: nat, id: LoginId)
    requires Run(ws, es) && n <= |es| && f != g
    requires Got(ws[n], f, id) && Got(ws[n], g, id)
    ensures Raced(ws, n, f, g, id)
    decreases n
  {
    if n > 0 {
      RunKeepsTracked(ws, es, n - 1);
      if es[n - 1].Read? && (es[n - 1].flight == f || es[n - 1].flight == g) {
        NewCarrierRaced(ws[n - 1], es[n - 1], f, g, id);
      } else {
        BothGotBefore(ws[n - 1], es[n - 1], f, g, id);
        CarriersRaced(ws, es, n - 1, f, g, id);
        RacedLater(ws, n - 1, f, g, id);
      }
    }
  }

  lemma RacedLater(ws: seq<World>, n: nat, f: nat, g: nat, id: LoginId)
    requires n + 1 < |ws| && Raced(ws, n, f, g, id)
    ensures Raced(ws, n + 1, f, g, id)
  {
    var i :| 0 <= i <= n && BothReading(ws[i], f, g, id);
    assert 0 <= i <= n + 1 && BothReading(ws[i], f, g, id);
  }

  lemma BothGotBefore(w: World, e: Event, f: nat, g: nat, id: LoginId)
    requires Allowed(w, e) && !(e.Read? && (e.flight == f || e.flight == g))
    requires Got(Next(w, e), f, id) && Got(Next(w, e), g, id)
    ensures Got(w, f, id) && Got(w, g, id)
  {
    CarriersAreNotNew(w, e, f, id);
    CarriersAreNotNew(w, e, g, id);
  }

  lemma NewCarrierRaced(w: World, e: Event, f: nat, g: nat, id: LoginId)
    requires Tracked(w) && Allowed(w, e) && e.Read? && (e.flight == f || e.flight == g) && f != g
    requires Got(Next(w, e), f, id) && Got(Next(w, e), g, id)
    ensures BothReading(Next(w, e), f, g, id)
  {
    var reader, other := e.flight, if e.flight == f then g else f;
    assert !MintedBy(w, reader, id);
    CarriersAreNotNew(w, e, other, id);
    assert Carries(Next(w, e), reader, id);
    ReaderMeetsReaders(w, reader, other, id);
  }

  ghost predicate TwoTokens(w: World, id: LoginId) {
    exists j, k :: j in w.past.tokens && k in w.past.tokens && j != k
      && w.past.tokens[j].login == id && w.past.tokens[k].login == id
  }

  ghost predicate RacedAndMinted(ws: seq<World>, n: nat, f: nat, g: nat, id: LoginId)
    requires n < |ws|
  {
    Raced(ws, n, f, g, id) && MintedBy(ws[n], f, id) && MintedBy(ws[n], g, id)
  }

  /** However requests interleave, a login id mints more than one session exactly
      when two finish requests both read it before either deleted it and both went
      on to mint. */
  lemma DoubleMintIff(ws: seq<World>, es: seq<Event>, id: LoginId)
    requires Run(ws, es)
    ensures TwoTokens(ws[|es|], id) <==> exists f, g :: RacedAndMinted(ws, |es|, f, g, id)
  {
    var n, w := |es|, ws[|es|];
    RunKeepsTracked(ws, es, n);
    if TwoTokens(w, id) {
      var j, k :| j in w.past.tokens && k in w.past.tokens && j != k
        && w.past.tokens[j].login == id && w.past.tokens[k].login == id;
      var f, g := w.past.tokens[j].flight, w.past.tokens[k].flight;
      assert w.past.tokens[j] == Minting(id, f) && w.past.tokens[k] == Minting(id, g);
      CarriersRaced(ws, es, n, f, g, id);
      assert RacedAndMinted(ws, n, f, g, id);
    }
    if f, g :| RacedAndMinted(ws, n, f, g, id) {
      var j :| j in w.past.tokens && w.past.tokens[j] == Minting(id, f);
      var k :| k in w.past.tokens && w.past.tokens[k] == Minting(id, g);
      assert j != k;
    }
  }

  /** So it mints at most one if no two requests read it while neither has deleted
      it, as with serializable transactions. */
  lemma LoginMintsOnce(ws: seq<World>, es: seq<Event>, j: TokenHash, k: TokenHash)
    requires Run(ws, es)
    requires var tokens := ws[|es|].past.tokens; j in tokens && k in tokens && tokens[j].login == tokens[k].login
    requires forall i, f, g | 0 <= i <= |es| :: !BothReading(ws[i], f, g, ws[|es|].past.tokens[j].login)
    ensures j == k
  {
    DoubleMintIff(ws, es, ws[|es|].past.tokens[j].login);
  }

  // ── where sessions and devices come from ──────────────────────────────────

  ghost predicate SteppedUpAt(past: Past, member: MemberId, at: Time) {
    exists since :: (member, since) in past.passwords && since <= at <= since + 300
  }

  ghost predicate Rooted(w: World) {
    && (forall k | k in w.tables.sessions ::
          && k in w.past.tokens
          && var s := w.tables.sessions[k];
             && s.created <= w.tables.now && s.expires == s.created + SESSION_TTL
             && (s.device.None? ==> (s.member, s.created) in w.past.passwords)
             && (s.device.Some? ==> (s.member, s.device.value) in w.tables.devices))
    && (forall f | f in w.flights && w.flights[f].Proven? && w.flights[f].who.device.Some? ::
          (w.flights[f].who.member, w.flights[f].who.device.value) in w.tables.devices)
    && (forall m, d | (m, d) in w.tables.devices :: exists at :: Enrolment(m, d, at) in w.past.enrolments)
    && (forall x | x in w.past.enrolments :: SteppedUpAt(w.past, x.member, x.at))
  }

  lemma CallerStepKeepsRoots(w: World, e: Event)
    requires Rooted(w) && Allowed(w, e) && (e.Enroll? || e.Revoke? || e.Logout?)
    ensures Rooted(Next(w, e))
  {
    if e.Enroll? {
      var caller := SteppedUp(w.tables, e.token);
      if caller.Granted? {
        assert SteppedUpAt(w.past, caller.value, w.tables.now);
      }
    }
  }

  lemma StepKeepsRoots(w: World, e: Event)
    requires Rooted(w) && Allowed(w, e)
    ensures Rooted(Next(w, e))
  {
    if e.Enroll? || e.Revoke? || e.Logout? {
      CallerStepKeepsRoots(w, e);
    }
  }

  lemma {:induction false} RunKeeps(ws: seq<World>, es: seq<Event>)
    requires Run(ws, es)
    ensures Rooted(ws[|es|])
    decreases |es|
  {
    if es != [] {
      var n := |es| - 1;
      RunKeeps(ws[..n + 1], es[..n]);
      assert ws[..n + 1][n] == ws[n] && Allowed(ws[n], es[n]);
      StepKeepsRoots(ws[n], es[n]);
    }
  }

  /** Every session goes back to a password: its member logged in with one, and a
      device session's device was enrolled within five minutes of such a login. */
  lemma SessionsGoBackToAPassword(ws: seq<World>, es: seq<Event>, k: TokenHash)
    requires Run(ws, es) && k in ws[|es|].tables.sessions
    ensures var w := ws[|es|];
            var s := w.tables.sessions[k];
            match s.device
            case None => (s.member, s.created) in w.past.passwords
            case Some(d) =>
              exists at :: Enrolment(s.member, d, at) in w.past.enrolments && SteppedUpAt(w.past, s.member, at)
  {
    RunKeeps(ws, es);
    var w := ws[|es|];
    var s := w.tables.sessions[k];
    if s.device.Some? {
      assert (s.member, s.device.value) in w.tables.devices;
      var at :| Enrolment(s.member, s.device.value, at) in w.past.enrolments;
      assert SteppedUpAt(w.past, s.member, at);
    }
  }

  // ── device sessions belong to active devices ──────────────────────────────

  /** Every live session of a device is of one enrolled and not revoked. */
  ghost predicate LiveDevicesActive(t: Tables) {
    forall k | Lookup(t, k).Some? && t.sessions[k].device.Some? ::
      ActiveKey(t, t.sessions[k].member, t.sessions[k].device.value).Some?
  }

  /** A session is minted for a password, or for a device still active. */
  predicate MintsActive(w: World, e: Event) {
    e.Mint? && e.flight in w.flights && w.flights[e.flight].Proven? && w.flights[e.flight].who.device.Some? ==>
      ActiveKey(w.tables, w.flights[e.flight].who.member, w.flights[e.flight].who.device.value).Some?
  }

  /** An expired session does not come back to life, so the clock cannot break it. */
  lemma StepKeepsActive(w: World, e: Event)
    requires Allowed(w, e) && LiveDevicesActive(w.tables)
    ensures LiveDevicesActive(Next(w, e).tables) <==> MintsActive(w, e)
  {
    var t, t' := w.tables, Next(w, e).tables;
    if MintsActive(w, e) {
      forall k | Lookup(t', k).Some? && t'.sessions[k].device.Some?
        ensures ActiveKey(t', t'.sessions[k].member, t'.sessions[k].device.value).Some?
      {
        if !(e.Mint? && e.token == k) {
          assert Lookup(t, k) == Some(t'.sessions[k]);
        }
      }
    } else {
      assert Lookup(t', e.token).Some?;
    }
  }

  lemma {:induction false} ActiveUpTo(ws: seq<World>, es: seq<Event>, n: nat)
    requires Run(ws, es) && n <= |es|
    requires forall i | 0 <= i < n :: MintsActive(ws[i], es[i])
    ensures LiveDevicesActive(ws[n].tables)
    decreases n
  {
    if n > 0 {
      ActiveUpTo(ws, es, n - 1);
      StepKeepsActive(ws[n - 1], es[n - 1]);
    }
  }

  /** In any run, every live device session belongs to an active device at all
      times exactly when no session is minted for a device that was revoked
      after its proof was checked. */
  lemma DeviceSessionsActiveIff(ws: seq<World>, es: seq<Event>)
    requires Run(ws, es)
    ensures (forall i | 0 <= i <= |es| :: LiveDevicesActive(ws[i].tables))
       <==> (forall i | 0 <= i < |es| :: MintsActive(ws[i], es[i]))
  {
    if forall i | 0 <= i <= |es| :: LiveDevicesActive(ws[i].tables) {
      forall i | 0 <= i < |es|
        ensures MintsActive(ws[i], es[i])
      {
        assert LiveDevicesActive(ws[i].tables) && LiveDevicesActive(ws[i + 1].tables);
        StepKeepsActive(ws[i], es[i]);
      }
    }
    if forall i | 0 <= i < |es| :: MintsActive(ws[i], es[i]) {
      forall i | 0 <= i <= |es|
        ensures LiveDevicesActive(ws[i].tables)
      {
        ActiveUpTo(ws, es, i);
      }
    }
  }

  /** When each finish handler runs without interruption, that is always so. */
  lemma UninterruptedHandlersAreSafe(ws: seq<World>, es: seq<Event>, i: nat)
    requires Run(ws, es) && i <= |es|
    requires forall j | 0 <= j < |es| && es[j].Mint? :: j > 0 && es[j - 1].Prove? && es[j - 1].flight == es[j].flight
    ensures LiveDevicesActive(ws[i].tables)
  {
    forall j | 0 <= j < |es|
      ensures MintsActive(ws[j], es[j])
    {
      if es[j].Mint? {
        assert Allowed(ws[j], es[j]);
        assert Allowed(ws[j - 1], es[j - 1]) && ws[j - 1 + 1] == Next(ws[j - 1], es[j - 1]);
      }
    }
    DeviceSessionsActiveIff(ws, es);
  }

  /** The finish handler as one call is the four steps in a row. */
  lemma FinishIsFourSteps(w: World, f: nat, id: LoginId, proof: Proof, asDevice: bool, token: TokenHash)
    requires f !in w.past.flights && f !in w.flights && token !in w.past.tokens
    ensures var answer := Finishing(w.tables, id, proof, asDevice);
            && Allowed(Next(w, Read(f, id)), Delete(f))
            && var w1 := Next(Next(w, Read(f, id)), Delete(f));
            && (f !in w1.flights ==> answer == Refused(Unauthorized) && w1.tables == Consumed(w.tables, id))
            && (f in w1.flights ==>
                  && Allowed(w1, Prove(f, proof, asDevice))
                  && var w2 := Next(w1, Prove(f, proof, asDevice));
                  && w2.tables == Consumed(w.tables, id)
                  && (answer.Refused? <==> f !in w2.flights)
                  && (answer.Granted? ==>
                        && Allowed(w2, Mint(f, token))
                        && Next(w2, Mint(f, token)).tables
                           == Minted(Consumed(w.tables, id), token, answer.value.member, answer.value.device)))
  {
    var w1 := Next(Next(w, Read(f, id)), Delete(f));
    if f in w1.flights {
      assert Allowed(w1, Prove(f, proof, asDevice));
    }
  }

  // ── a dead token stays dead ───────────────────────────────────────────────

  /** A token that was minted and no longer opens a session: logged out, expired,
      swept, or killed with its device. */
  predicate Dead(w: World, k: TokenHash) {
    k in w.past.tokens && Lookup(w.tables, k).None?
  }

  lemma {:induction false} DeadStaysDead(ws: seq<World>, es: seq<Event>, i: nat, j: nat, k: TokenHash)
    requires Run(ws, es) && i <= j <= |es| && Dead(ws[i], k)
    ensures Dead(ws[j], k)
    decreases j - i
  {
    if i < j {
      assert Allowed(ws[i], es[i]) && ws[i + 1] == Next(ws[i], es[i]);
      DeadStaysDead(ws, es, i + 1, j, k);
    }
  }

  /** Revoking a device ends its sessions for good. */
  lemma RevocationIsFinal(ws: seq<World>, es: seq<Event>, i: nat, j: nat, k: TokenHash)
    requires Run(ws, es) && i < j <= |es| && es[i].Revoke? && Lookup(ws[i].tables, k).Some?
    requires var caller := SteppedUp(ws[i].tables, es[i].token);
             && caller.Granted? && ws[i].tables.sessions[k].member == caller.value
             && ws[i].tables.sessions[k].device == Some(es[i].device)
    ensures Lookup(ws[j].tables, k).None?
  {
    RunKeeps(ws[..i + 1], es[..i]);
    assert Allowed(ws[i], es[i]) && ws[i + 1] == Next(ws[i], es[i]);
    assert ws[..i + 1][i] == ws[i];
    DeadStaysDead(ws, es, i + 1, j, k);
  }
}
