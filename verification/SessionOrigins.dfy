/** Where each session of a run comes from, event by event, and what ends it. */
module SessionOrigins {
  import opened Helpers
  import opened Updates
  import opened AuthTables
  import opened Sessions

  // ── one step back at a time ───────────────────────────────────────────────

  /** The event that stashed a login, and when the login runs out. */
  predicate Stashes(w: World, e: Event, id: LoginId, row: LoginRow) {
    && row.expires == w.tables.now + 60
    && match row.stash
       case Opaque(state) => e == StartPassword(id, state, row.member)
       case Challenge(d, nonce) =>
         && row.member.Some? && e == StartDevice(id, row.member.value, d, nonce)
         && (row.member.value, d) in w.tables.devices && !w.tables.devices[(row.member.value, d)].revoked
  }

  lemma LoginIsOldOrNew(w: World, e: Event, id: LoginId)
    requires Allowed(w, e) && id in Next(w, e).tables.logins
    ensures var row := Next(w, e).tables.logins[id];
            (id in w.tables.logins && w.tables.logins[id] == row) || Stashes(w, e, id, row)
  {
  }

  lemma {:induction false} StartOf(ws: seq<World>, es: seq<Event>, n: nat, id: LoginId) returns (s: nat)
    requires Run(ws, es) && n <= |es| && id in ws[n].tables.logins
    ensures s < n && Stashes(ws[s], es[s], id, ws[n].tables.logins[id])
    decreases n
  {
    s := n - 1;
    LoginIsOldOrNew(ws[s], es[s], id);
    if id in ws[s].tables.logins && ws[s].tables.logins[id] == ws[n].tables.logins[id] {
      s := StartOf(ws, es, s, id);
    }
  }

  /** The row a request holds. */
  function Holds(w: World, f: nat): Option<LoginRow> {
    if f !in w.flights then None
    else
      match w.flights[f]
      case Reading(_, found) => found
      case Taken(_, row) => Some(row)
      case Proven(_, _) => None
  }

  lemma {:induction false} ReadOf(ws: seq<World>, es: seq<Event>, n: nat, f: nat) returns (r: nat)
    requires Run(ws, es) && n <= |es| && Holds(ws[n], f).Some?
    ensures r < n && es[r] == Read(f, ws[n].flights[f].id)
    ensures Found(ws[r].tables, ws[n].flights[f].id) == Holds(ws[n], f)
    decreases n
  {
    r := n - 1;
    if es[r] != Read(f, ws[n].flights[f].id) {
      r := ReadOf(ws, es, r, f);
    }
  }

  lemma {:induction false} ProofOf(ws: seq<World>, es: seq<Event>, n: nat, f: nat) returns (p: nat)
    requires Run(ws, es) && n <= |es| && f in ws[n].flights && ws[n].flights[f].Proven?
    ensures p < n && es[p].Prove? && es[p].flight == f
    ensures f in ws[p].flights && ws[p].flights[f].Taken? && ws[p].flights[f].id == ws[n].flights[f].id
    ensures Granted(ws[n].flights[f].who)
         == if es[p].asDevice then DeviceIdentity(ws[p].tables, ws[p].flights[f].row, es[p].proof)
            else PasswordIdentity(ws[p].tables, ws[p].flights[f].row, es[p].proof)
    decreases n
  {
    p := n - 1;
    if !(es[p].Prove? && es[p].flight == f) {
      p := ProofOf(ws, es, p, f);
    }
  }

  lemma {:induction false} MintOf(ws: seq<World>, es: seq<Event>, n: nat, k: TokenHash) returns (x: nat)
    requires Run(ws, es) && n <= |es| && k in ws[n].tables.sessions
    ensures x < n && es[x].Mint? && es[x].token == k
    ensures var f := es[x].flight;
            && f in ws[x].flights && ws[x].flights[f].Proven?
            && ws[n].tables.sessions[k] == SessionRow(ws[x].flights[f].who.member, ws[x].flights[f].who.device,
                                                      ws[x].tables.now, ws[x].tables.now + 2592000)
    decreases n
  {
    x := n - 1;
    if !(es[x].Mint? && es[x].token == k) {
      x := MintOf(ws, es, x, k);
    }
  }

  /** No request has taken the device out of use from `i` on. */
  ghost predicate NotRevoked(ws: seq<World>, es: seq<Event>, i: nat, n: nat, m: MemberId, d: DeviceId)
    requires |ws| == |es| + 1 && n <= |es|
  {
    forall j | i <= j < n && es[j].Revoke? && es[j].device == d :: SteppedUp(ws[j].tables, es[j].token) != Granted(m)
  }

  /** `token` is open, a password session of `m`, and at most five minutes old. */
  predicate FreshPassword(t: Tables, token: TokenHash, m: MemberId) {
    && token in t.sessions && t.sessions[token].expires > t.now
    && t.sessions[token].member == m && t.sessions[token].device == None && t.now <= t.sessions[token].created + 300
  }

  lemma KeyIsOldOrNew(w: World, e: Event, m: MemberId, d: DeviceId)
    requires Allowed(w, e) && ActiveKey(Next(w, e).tables, m, d).Some?
    ensures var key := ActiveKey(Next(w, e).tables, m, d);
            || (e.Enroll? && e.device == d && Some(e.key) == key && FreshPassword(w.tables, e.token, m))
            || (ActiveKey(w.tables, m, d) == key
                && !(e.Revoke? && e.device == d && SteppedUp(w.tables, e.token) == Granted(m)))
  {
  }

  lemma {:induction false} EnrolmentOf(ws: seq<World>, es: seq<Event>, n: nat, m: MemberId, d: DeviceId)
    returns (e: nat)
    requires Run(ws, es) && n <= |es| && ActiveKey(ws[n].tables, m, d).Some?
    ensures e < n && es[e].Enroll? && es[e].device == d && Some(es[e].key) == ActiveKey(ws[n].tables, m, d)
    ensures FreshPassword(ws[e].tables, es[e].token, m) && NotRevoked(ws, es, e, n, m, d)
    decreases n
  {
    e := n - 1;
    KeyIsOldOrNew(ws[e], es[e], m, d);
    if !(es[e].Enroll? && es[e].device == d && Some(es[e].key) == ActiveKey(ws[n].tables, m, d)
         && FreshPassword(ws[e].tables, es[e].token, m)) {
      e := EnrolmentOf(ws, es, e, m, d);
    }
  }

  // ── every session was proven ──────────────────────────────────────────────

  /** The four events a session comes from, by their places in the run. */
  datatype Steps = Steps(start: nat, read: nat, prove: nat, mint: nat)

  ghost predicate InOrder(ws: seq<World>, es: seq<Event>, k: TokenHash, s: SessionRow, o: Steps) {
    && |ws| == |es| + 1 && o.start < o.read < o.prove < o.mint < |es|
    && es[o.mint].Mint? && es[o.mint].token == k
    && (es[o.start].StartPassword? || es[o.start].StartDevice?)
    && es[o.read] == Read(es[o.mint].flight, es[o.start].id)
    && ws[o.read].tables.now < ws[o.start].tables.now + 60
    && s.member in ws[o.prove].tables.users
    && s.created == ws[o.mint].tables.now && s.expires == s.created + 2592000
  }

  /** The login started with some state, and that state was proved. */
  ghost predicate ByPassword(ws: seq<World>, es: seq<Event>, k: TokenHash, s: SessionRow, o: Steps) {
    && InOrder(ws, es, k, s, o)
    && es[o.start].StartPassword? && es[o.start].user == Some(s.member)
    && es[o.prove] == Prove(es[o.mint].flight, Knows(es[o.start].state), false)
  }

  /** The challenge's nonce was signed, for this member and device, with the key that
      a password session not five minutes old had enrolled and nobody revoked since. */
  ghost predicate ByDevice(ws: seq<World>, es: seq<Event>, k: TokenHash, s: SessionRow, d: DeviceId, o: Steps, e: nat) {
    && InOrder(ws, es, k, s, o)
    && es[o.start].StartDevice? && es[o.start].who == s.member && es[o.start].device == d
    && (s.member, d) in ws[o.start].tables.devices && !ws[o.start].tables.devices[(s.member, d)].revoked
    && e < o.prove && es[e].Enroll? && es[e].device == d && FreshPassword(ws[e].tables, es[e].token, s.member)
    && NotRevoked(ws, es, e, o.prove, s.member, d)
    && es[o.prove] == Prove(es[o.mint].flight, Signed(Signature(es[e].key, s.member, d, es[o.start].nonce)), true)
  }

  /** In every run, whoever sends what in whatever order, each session was minted for
      a finish request that proved it: without a device, by the state the login of
      that member was started with; with one, by a signature over that login's nonce
      under the key enrolled at that moment. */
  lemma SessionsWereProven(ws: seq<World>, es: seq<Event>, n: nat, k: TokenHash)
    requires Run(ws, es) && n <= |es| && k in ws[n].tables.sessions
    ensures var s := ws[n].tables.sessions[k];
            match s.device
            case None => exists o :: ByPassword(ws, es, k, s, o)
            case Some(d) => exists o, e :: ByDevice(ws, es, k, s, d, o, e)
  {
    var s := ws[n].tables.sessions[k];
    var x := MintOf(ws, es, n, k);
    var f := es[x].flight;
    var p := ProofOf(ws, es, x, f);
    var r := ReadOf(ws, es, p, f);
    var i := StartOf(ws, es, r, ws[p].flights[f].id);
    var o := Steps(i, r, p, x);
    if s.device.Some? {
      var e := EnrolmentOf(ws, es, p, s.member, s.device.value);
      assert ByDevice(ws, es, k, s, s.device.value, o, e);
    } else {
      assert ByPassword(ws, es, k, s, o);
    }
  }

  /** The password logins on record are just those that minted. */
  lemma {:induction false} RecordedLogin(ws: seq<World>, es: seq<Event>, n: nat, m: MemberId, t: Time) returns (x: nat)
    requires Run(ws, es) && n <= |es| && (m, t) in ws[n].past.passwords
    ensures x < n && es[x].Mint? && ws[x].tables.now == t
    ensures es[x].flight in ws[x].flights && ws[x].flights[es[x].flight].Proven?
    ensures ws[x].flights[es[x].flight].who == Identity(m, None)
    decreases n
  {
    x := n - 1;
    if (m, t) in ws[x].past.passwords {
      x := RecordedLogin(ws, es, x, m, t);
    }
  }

  // ── what ends a session ───────────────────────────────────────────────────

  /** The event that ends the open session behind `k`. */
  predicate Ends(w: World, e: Event, k: TokenHash)
    requires k in w.tables.sessions
  {
    var s := w.tables.sessions[k];
    || e == Logout(k)
    || (e.Tick? && s.expires <= w.tables.now + e.seconds)
    || (e.Revoke? && s.device == Some(e.device) && FreshPassword(w.tables, e.token, s.member))
  }

  lemma StepEndsIff(w: World, e: Event, k: TokenHash)
    requires Rooted(w) && Allowed(w, e) && Lookup(w.tables, k).Some?
    ensures Lookup(Next(w, e).tables, k) == if Ends(w, e, k) then None else Lookup(w.tables, k)
  {
  }

  /** An open session stays open, and the same, exactly until its own holder logs
      out, thirty days have passed, or a fresh password session of its member revokes
      its device: no other request, and no sweep, touches it. */
  lemma {:induction false} OpenUntil(ws: seq<World>, es: seq<Event>, i: nat, j: nat, k: TokenHash)
    requires Run(ws, es) && i <= j <= |es| && Lookup(ws[i].tables, k).Some?
    ensures Lookup(ws[j].tables, k) == Lookup(ws[i].tables, k)
       <==> forall n | i <= n < j :: k in ws[n].tables.sessions && !Ends(ws[n], es[n], k)
    ensures Lookup(ws[j].tables, k) in {None, Lookup(ws[i].tables, k)}
    decreases j - i
  {
    if i < j {
      RunKeeps(ws[..i + 1], es[..i]);
      assert ws[..i + 1][i] == ws[i];
      StepEndsIff(ws[i], es[i], k);
      if Ends(ws[i], es[i], k) {
        DeadStaysDead(ws, es, i + 1, j, k);
      } else {
        OpenUntil(ws, es, i + 1, j, k);
      }
    }
  }
}
