/** Runs of the authentication server that reach the failing side of the exact
    conditions. */
module AuthExamples {
  import opened Helpers
  import opened Updates
  import opened AuthTables
  import opened Sessions

  /** Some run of exactly these events leads from `w0` to `w`. */
  ghost predicate Reaches(w0: World, es: seq<Event>, w: World) {
    exists ws :: Run(ws, es) && ws[0] == w0 && ws[|es|] == w
  }

  lemma Further(w0: World, es: seq<Event>, w: World, e: Event) returns (w': World)
    requires Reaches(w0, es, w) && Allowed(w, e)
    ensures Reaches(w0, es + [e], w') && w' == Next(w, e)
  {
    var ws :| Run(ws, es) && ws[0] == w0 && ws[|es|] == w;
    w' := Next(w, e);
    var ws' := ws + [w'];
    forall i | 0 <= i < |es + [e]|
      ensures Allowed(ws'[i], (es + [e])[i]) && ws'[i + 1] == Next(ws'[i], (es + [e])[i])
    {
      if i < |es| {
        assert ws'[i] == ws[i] && ws'[i + 1] == ws[i + 1] && (es + [e])[i] == es[i];
      }
    }
    assert Run(ws', es + [e]) && ws'[0] == w0 && ws'[|es + [e]|] == w';
  }

  lemma Begin(w0: World)
    requires Start(w0)
    ensures Reaches(w0, [], w0)
  {
    assert Run([w0], []);
  }

  // ── two sessions from one login ───────────────────────────────────────────

  function PasswordRow(w0: World, m: MemberId, state: nat): LoginRow {
    LoginRow(Opaque(state), Some(m), w0.tables.now + LOGIN_TTL)
  }

  function ReadByTwo(m: MemberId, id: LoginId, state: nat): seq<Event> {
    [Register(m), StartPassword(id, state, Some(m)), Read(0, id), Read(1, id)]
  }

  lemma BothRead(w0: World, m: MemberId, id: LoginId, state: nat) returns (w: World)
    requires Start(w0)
    ensures Reaches(w0, ReadByTwo(m, id, state), w) && m in w.tables.users && w.past.tokens == map[]
    ensures var row := PasswordRow(w0, m, state);
            w.flights == map[0 := Reading(id, Some(row)), 1 := Reading(id, Some(row))]
  {
    var row := PasswordRow(w0, m, state);
    Begin(w0);
    w := Further(w0, [], w0, Register(m));
    w := Further(w0, [Register(m)], w, StartPassword(id, state, Some(m)));
    assert Found(w.tables, id) == Some(row);
    assert [Register(m)] + [StartPassword(id, state, Some(m))] == ReadByTwo(m, id, state)[..2];
    w := Further(w0, ReadByTwo(m, id, state)[..2], w, Read(0, id));
    assert ReadByTwo(m, id, state)[..2] + [Read(0, id)] == ReadByTwo(m, id, state)[..3];
    w := Further(w0, ReadByTwo(m, id, state)[..3], w, Read(1, id));
    assert ReadByTwo(m, id, state)[..3] + [Read(1, id)] == ReadByTwo(m, id, state);
    assert w.flights == map[0 := Reading(id, Some(row)), 1 := Reading(id, Some(row))];
  }

  /** Whom the login proves, when it is finished the right way. */
  function Answered(t: Tables, row: LoginRow, proof: Proof, asDevice: bool): Answer<Identity> {
    if asDevice then DeviceIdentity(t, row, proof) else PasswordIdentity(t, row, proof)
  }

  /** Both requests hold a row whose identity they can prove. */
  ghost predicate BothCan(w: World, f: nat, g: nat, id: LoginId, proof: Proof, asDevice: bool) {
    && BothReading(w, f, g, id)
    && Answered(w.tables, w.flights[f].found.value, proof, asDevice).Granted?
    && Answered(w.tables, w.flights[g].found.value, proof, asDevice).Granted?
  }

  function DeleteBoth(f: nat, g: nat): seq<Event> { [Delete(f), Delete(g)] }

  function ProveBoth(f: nat, g: nat, proof: Proof, asDevice: bool): seq<Event> {
    [Prove(f, proof, asDevice), Prove(g, proof, asDevice)]
  }

  function MintBoth(f: nat, g: nat, j: TokenHash, k: TokenHash): seq<Event> { [Mint(f, j), Mint(g, k)] }

  lemma RacersDelete(w0: World, es: seq<Event>, w: World, f: nat, g: nat, id: LoginId, proof: Proof, asDevice: bool)
    returns (w': World)
    requires Reaches(w0, es, w) && BothCan(w, f, g, id, proof, asDevice)
    ensures Reaches(w0, es + DeleteBoth(f, g), w') && w'.past == w.past && f in w'.flights && g in w'.flights
    ensures w'.flights[f] == Taken(id, w.flights[f].found.value) && w'.flights[g] == Taken(id, w.flights[g].found.value)
    ensures forall row :: Answered(w'.tables, row, proof, asDevice) == Answered(w.tables, row, proof, asDevice)
  {
    w' := Further(w0, es, w, Delete(f));
    w' := Further(w0, es + [Delete(f)], w', Delete(g));
    assert es + [Delete(f)] + [Delete(g)] == es + DeleteBoth(f, g);
  }

  lemma RacersProve(w0: World, es: seq<Event>, w: World, f: nat, g: nat, id: LoginId, a: LoginRow, b: LoginRow,
                    proof: Proof, asDevice: bool) returns (w': World)
    requires Reaches(w0, es, w) && f != g && f in w.flights && g in w.flights
    requires w.flights[f] == Taken(id, a) && w.flights[g] == Taken(id, b)
    requires Answered(w.tables, a, proof, asDevice).Granted? && Answered(w.tables, b, proof, asDevice).Granted?
    ensures Reaches(w0, es + ProveBoth(f, g, proof, asDevice), w') && w'.past == w.past
    ensures f in w'.flights && g in w'.flights && w'.flights[f].Proven? && w'.flights[g].Proven?
    ensures w'.flights[f].id == id && w'.flights[g].id == id
  {
    w' := Further(w0, es, w, Prove(f, proof, asDevice));
    w' := Further(w0, es + [Prove(f, proof, asDevice)], w', Prove(g, proof, asDevice));
    assert es + [Prove(f, proof, asDevice)] + [Prove(g, proof, asDevice)] == es + ProveBoth(f, g, proof, asDevice);
  }

  lemma RacersMint(w0: World, es: seq<Event>, w: World, f: nat, g: nat, id: LoginId, j: TokenHash, k: TokenHash)
    returns (w': World)
    requires Reaches(w0, es, w) && f != g && f in w.flights && g in w.flights
    requires w.flights[f].Proven? && w.flights[g].Proven? && w.flights[f].id == id && w.flights[g].id == id
    requires j !in w.past.tokens && k !in w.past.tokens && j != k
    ensures Reaches(w0, es + MintBoth(f, g, j, k), w') && TwoTokens(w', id)
    ensures Lookup(w'.tables, j).Some? && Lookup(w'.tables, k).Some?
  {
    w' := Further(w0, es, w, Mint(f, j));
    w' := Further(w0, es + [Mint(f, j)], w', Mint(g, k));
    assert es + [Mint(f, j)] + [Mint(g, k)] == es + MintBoth(f, g, j, k);
    assert j in w'.past.tokens && k in w'.past.tokens;
  }

  /** From every reachable state in which two requests have read a row that neither
      has deleted and whose identity they can prove, six more steps mint twice. */
  lemma RaceMintsTwice(w0: World, es: seq<Event>, w: World, f: nat, g: nat, id: LoginId, proof: Proof, asDevice: bool,
                       j: TokenHash, k: TokenHash) returns (w': World)
    requires Reaches(w0, es, w) && BothCan(w, f, g, id, proof, asDevice)
    requires j !in w.past.tokens && k !in w.past.tokens && j != k
    ensures Reaches(w0, es + DeleteBoth(f, g) + ProveBoth(f, g, proof, asDevice) + MintBoth(f, g, j, k), w')
    ensures TwoTokens(w', id) && Lookup(w'.tables, j).Some? && Lookup(w'.tables, k).Some?
  {
    var a, b := w.flights[f].found.value, w.flights[g].found.value;
    w' := RacersDelete(w0, es, w, f, g, id, proof, asDevice);
    w' := RacersProve(w0, es + DeleteBoth(f, g), w', f, g, id, a, b, proof, asDevice);
    w' := RacersMint(w0, es + DeleteBoth(f, g) + ProveBoth(f, g, proof, asDevice), w', f, g, id, j, k);
  }

  /** Two finish requests read one login before either deletes it, both prove the
      password, and both mint. */
  lemma OneLoginTwoSessions(w0: World, m: MemberId, id: LoginId, state: nat, j: TokenHash, k: TokenHash)
    returns (w: World)
    requires Start(w0) && j != k
    ensures Reaches(w0, ReadByTwo(m, id, state) + DeleteBoth(0, 1) + ProveBoth(0, 1, Knows(state), false)
                        + MintBoth(0, 1, j, k), w)
    ensures TwoTokens(w, id) && Lookup(w.tables, j).Some? && Lookup(w.tables, k).Some?
  {
    w := BothRead(w0, m, id, state);
    w := RaceMintsTwice(w0, ReadByTwo(m, id, state), w, 0, 1, id, Knows(state), false, j, k);
  }

  // ── a session of a revoked device ─────────────────────────────────────────

  /** A login read, deleted and proven by one request. */
  function Finish(f: nat, id: LoginId, proof: Proof, asDevice: bool): seq<Event> {
    [Read(f, id), Delete(f), Prove(f, proof, asDevice)]
  }

  /** A request alone with a waiting login takes it and proves the identity. */
  lemma Finishes(w0: World, es: seq<Event>, w: World, f: nat, id: LoginId, row: LoginRow, proof: Proof,
                 asDevice: bool, who: Identity) returns (w': World)
    requires Reaches(w0, es, w) && w.flights == map[] && f !in w.past.flights && Found(w.tables, id) == Some(row)
    requires (if asDevice then DeviceIdentity(w.tables, row, proof) else PasswordIdentity(w.tables, row, proof))
          == Granted(who)
    ensures Reaches(w0, es + Finish(f, id, proof, asDevice), w')
    ensures w'.flights == map[f := Proven(id, who)] && w'.tables == Consumed(w.tables, id)
    ensures w'.past == w.past.(flights := w.past.flights + {f})
  {
    w' := Further(w0, es, w, Read(f, id));
    assert w'.flights == map[f := Reading(id, Some(row))];
    w' := Further(w0, es + [Read(f, id)], w', Delete(f));
    assert w'.flights == map[f := Taken(id, row)];
    w' := Further(w0, es + [Read(f, id)] + [Delete(f)], w', Prove(f, proof, asDevice));
    assert es + [Read(f, id)] + [Delete(f)] + [Prove(f, proof, asDevice)] == es + Finish(f, id, proof, asDevice);
  }

  function PasswordLogin(m: MemberId, p: TokenHash): seq<Event> {
    [Register(m)] + [StartPassword(0, 0, Some(m))] + Finish(0, 0, Knows(0), false) + [Mint(0, p)]
  }

  /** The member has just logged in with a password. */
  ghost predicate LoggedIn(w: World, m: MemberId, p: TokenHash) {
    && m in w.tables.users && w.flights == map[] && 1 !in w.past.ids && 1 !in w.past.flights
    && w.tables.sessions == map[p := SessionRow(m, None, w.tables.now, w.tables.now + SESSION_TTL)]
    && w.past.tokens.Keys == {p}
  }

  lemma Starts(w0: World, m: MemberId) returns (w: World)
    requires Start(w0)
    ensures Reaches(w0, [Register(m)] + [StartPassword(0, 0, Some(m))], w)
    ensures Found(w.tables, 0) == Some(PasswordRow(w0, m, 0)) && m in w.tables.users && w.flights == map[]
    ensures w.tables.sessions == map[] && w.past.ids == {0} && w.past.flights == {} && w.past.tokens == map[]
  {
    Begin(w0);
    w := Further(w0, [], w0, Register(m));
    assert [] + [Register(m)] == [Register(m)];
    w := Further(w0, [Register(m)], w, StartPassword(0, 0, Some(m)));
  }

  lemma LogsIn(w0: World, m: MemberId, p: TokenHash) returns (w: World)
    requires Start(w0)
    ensures Reaches(w0, PasswordLogin(m, p), w) && LoggedIn(w, m, p)
  {
    w := Starts(w0, m);
    var es := [Register(m)] + [StartPassword(0, 0, Some(m))];
    w := Finishes(w0, es, w, 0, 0, PasswordRow(w0, m, 0), Knows(0), false, Identity(m, None));
    w := Further(w0, es + Finish(0, 0, Knows(0), false), w, Mint(0, p));
  }

  /** The member's device is enrolled and has asked for a challenge. */
  lemma Challenged(w0: World, es: seq<Event>, w: World, m: MemberId, d: DeviceId, key: DeviceKey, p: TokenHash)
    returns (w': World)
    requires Reaches(w0, es, w) && LoggedIn(w, m, p)
    ensures Reaches(w0, es + [Enroll(p, d, key)] + [StartDevice(1, m, d, 0)], w')
    ensures Found(w'.tables, 1) == Some(LoginRow(Challenge(d, 0), Some(m), w.tables.now + LOGIN_TTL))
    ensures ActiveKey(w'.tables, m, d) == Some(key) && LoggedIn(w'.(past := w.past), m, p)
    ensures w'.past.flights == w.past.flights && w'.past.tokens == w.past.tokens
  {
    w' := Further(w0, es, w, Enroll(p, d, key));
    w' := Further(w0, es + [Enroll(p, d, key)], w', StartDevice(1, m, d, 0));
  }

  /** A device with a proven challenge is revoked before its session is minted. */
  lemma MintsRevoked(w0: World, es: seq<Event>, w: World, m: MemberId, d: DeviceId, p: TokenHash, q: TokenHash)
    returns (w': World)
    requires Reaches(w0, es, w) && w.flights == map[1 := Proven(1, Identity(m, Some(d)))]
    requires p in w.tables.sessions && SteppedUp(w.tables, p) == Granted(m) && q !in w.past.tokens
    ensures Reaches(w0, es + [Revoke(p, d)] + [Mint(1, q)], w')
    ensures Lookup(w'.tables, q).Some? && w'.tables.sessions[q].member == m && w'.tables.sessions[q].device == Some(d)
    ensures ActiveKey(w'.tables, m, d).None?
  {
    w' := Further(w0, es, w, Revoke(p, d));
    w' := Further(w0, es + [Revoke(p, d)], w', Mint(1, q));
  }

  /** A device answers its challenge, is revoked, and still gets its session, which
      stays open. */
  lemma RevokedDeviceKeepsASession(w0: World, m: MemberId, d: DeviceId, key: DeviceKey, p: TokenHash, q: TokenHash)
    returns (w: World)
    requires Start(w0) && p != q
    ensures Reaches(w0, PasswordLogin(m, p) + [Enroll(p, d, key)] + [StartDevice(1, m, d, 0)]
                        + Finish(1, 1, Signed(Signature(key, m, d, 0)), true) + [Revoke(p, d)] + [Mint(1, q)], w)
    ensures Lookup(w.tables, q).Some? && w.tables.sessions[q].member == m && w.tables.sessions[q].device == Some(d)
    ensures ActiveKey(w.tables, m, d).None? && !LiveDevicesActive(w.tables)
  {
    var es, proof := PasswordLogin(m, p), Signed(Signature(key, m, d, 0));
    w := LogsIn(w0, m, p);
    var row := LoginRow(Challenge(d, 0), Some(m), w.tables.now + LOGIN_TTL);
    w := Challenged(w0, es, w, m, d, key, p);
    es := es + [Enroll(p, d, key)] + [StartDevice(1, m, d, 0)];
    w := Finishes(w0, es, w, 1, 1, row, proof, true, Identity(m, Some(d)));
    w := MintsRevoked(w0, es + Finish(1, 1, proof, true), w, m, d, p, q);
  }
}
