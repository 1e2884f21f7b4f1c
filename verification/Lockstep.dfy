/** Runs that lose no command: the server follows the client step by step exactly
    when no listing is ingested whose epoch is below the client's. */
module Lockstep {
  import opened Helpers
  import opened Updates
  import opened Keys
  import opened ServerLists
  import opened StoreKeys
  import opened KeyRefinement
  import opened Rotation

  /** Every member has a slot for the current epoch; no slot is beyond it or
      belongs to anyone else. */
  ghost predicate GoodKeys(l: Listing) {
    && l.epoch >= 1
    && (forall m | m in l.members :: (l.epoch, m) in l.slots)
    && (forall k | k in l.slots :: k.1 in l.members && 1 <= k.0 <= l.epoch)
  }

  ghost predicate Seated(c: Setup, server: Option<Listing>) {
    server.Some? ==> GoodKeys(server.value) && IsOwner(server, c.me.id)
  }

  /** The server's rows once the queue has been worked off. */
  function Ends(c: Setup, server: Option<Listing>, queue: seq<Request>): Option<Listing>
    decreases |queue|
  {
    if queue == [] then server
    else
      var r := Handle(server, c.users.Keys, c.me.id, queue[0]);
      Ends(c, if r.Ok? then Some(r.value) else server, queue[1..])
  }

  /** The request carries the epoch the server is at. */
  predicate SentFrom(server: Option<Listing>, req: Request) {
    if req.Create? then server.None? else server.Some? && req.epoch == server.value.epoch
  }

  /** Every waiting request will be accepted at the epoch it was sent with, with good
      keys after each. */
  ghost predicate Served(c: Setup, server: Option<Listing>, queue: seq<Request>)
    decreases |queue|
  {
    && Seated(c, server)
    && (queue != [] ==>
          var r := Handle(server, c.users.Keys, c.me.id, queue[0]);
          SentFrom(server, queue[0]) && r.Ok? && Served(c, Some(r.value), queue[1..]))
  }

  lemma {:induction false} ServedOneMore(c: Setup, server: Option<Listing>, queue: seq<Request>, req: Request)
    requires Served(c, server, queue)
    requires SentFrom(Ends(c, server, queue), req)
    requires var r := Handle(Ends(c, server, queue), c.users.Keys, c.me.id, req);
             r.Ok? && Seated(c, Some(r.value))
    ensures Served(c, server, queue + [req])
    ensures var r := Handle(Ends(c, server, queue), c.users.Keys, c.me.id, req);
            Ends(c, server, queue + [req]) == Some(r.value)
    decreases |queue|
  {
    if queue == [] {
      assert queue + [req] == [req] && [req][1..] == [];
      var r := Handle(server, c.users.Keys, c.me.id, req);
      assert Served(c, Some(r.value), []) && Ends(c, Some(r.value), []) == Some(r.value);
    } else {
      var r := Handle(server, c.users.Keys, c.me.id, queue[0]);
      assert Ends(c, server, queue) == Ends(c, Some(r.value), queue[1..]);
      ServedOneMore(c, Some(r.value), queue[1..], req);
      assert (queue + [req])[1..] == queue[1..] + [req] && (queue + [req])[0] == queue[0];
      assert Ends(c, server, queue + [req]) == Ends(c, Some(r.value), queue[1..] + [req]);
    }
  }

  /** The client's rows and the server's: same epoch, same members. */
  predicate Agrees(l: LocalList, server: Option<Listing>) {
    server.Some? && server.value.epoch == l.epoch && server.value.members.Keys == Roles(l.members).Keys
  }

  ghost predicate InStep(c: Setup, w: World) {
    && Served(c, w.server, w.queue)
    && (c.list in w.store.lists ==> Agrees(w.store.lists[c.list], Ends(c, w.server, w.queue)))
  }

  lemma {:induction false} EndsSeated(c: Setup, server: Option<Listing>, queue: seq<Request>)
    requires Served(c, server, queue)
    ensures Seated(c, Ends(c, server, queue))
    decreases |queue|
  {
    if queue != [] {
      EndsSeated(c, Some(Handle(server, c.users.Keys, c.me.id, queue[0]).value), queue[1..]);
    }
  }

  lemma AddIsGood(c: Setup, l: Listing, m: Member, box: Wrapped)
    requires GoodKeys(l) && IsOwner(Some(l), c.me.id) && m.id in c.users && m.id != c.me.id
    ensures var r := Handle(Some(l), c.users.Keys, c.me.id, Add(m.id, m.role, box, l.epoch));
            && r.Ok? && Seated(c, Some(r.value))
            && r.value.epoch == l.epoch && r.value.members == l.members[m.id := m.role]
  {
    InsertOne(l.slots, l.epoch, m.id, box);
  }

  /** Where a rotation's boxes land. */
  lemma RotatedKeys(slots: map<(Epoch, MemberId), Wrapped>, epoch: Epoch, rest: seq<Member>, dek: Dek,
      k: (Epoch, MemberId))
    ensures k in InsertSlots(slots, epoch, SealAll(rest, dek)) <==> k in slots || (k.0 == epoch && k.1 in Roles(rest))
  {
    var entries := SealAll(rest, dek);
    InsertedSlots(slots, epoch, entries, k);
    RolesHas(rest, k.1);
    if k.1 in Roles(rest) {
      var m :| m in rest && m.id == k.1;
      var i :| 0 <= i < |rest| && rest[i] == m;
      assert entries[i].member == k.1;
    }
    if i :| 0 <= i < |entries| && entries[i].member == k.1 {
      assert rest[i] in rest && rest[i].id == k.1;
    }
  }

  /** A rotation passes the server's checks, whatever epoch it was sent with, and
      this is what it leaves. */
  lemma RotationServed(c: Setup, l: Listing, members: seq<Member>, removed: MemberId, epoch: Epoch, dek: Dek)
    requires IsOwner(Some(l), c.me.id) && epoch >= 0
    requires forall m | m in members :: m.id in c.users
    ensures var r := Handle(Some(l), c.users.Keys, c.me.id,
                            Remove(removed, epoch, SealAll(Without(members, removed), dek)));
            && r.Ok? && r.value.epoch == epoch + 1 && r.value.members == l.members - {removed}
            && forall k: (Epoch, MemberId) :: k in r.value.slots <==>
                 k.1 != removed && (k in l.slots || (k.0 == epoch + 1 && k.1 in Roles(Without(members, removed))))
  {
    var rest := Without(members, removed);
    WithoutFacts(members, removed);
    forall i | 0 <= i < |rest|
      ensures rest[i].id in c.users && rest[i].id != removed
    {
      assert rest[i] in rest;
    }
    FaultFreeIff(SealAll(rest, dek), removed, c.users.Keys, epoch + 1);
    forall k: (Epoch, MemberId)
      ensures k in InsertSlots(l.slots, epoch + 1, SealAll(rest, dek)) <==>
        k in l.slots || (k.0 == epoch + 1 && k.1 in Roles(rest))
    {
      RotatedKeys(l.slots, epoch + 1, rest, dek, k);
    }
  }

  lemma RemoveIsGood(c: Setup, l: Listing, members: seq<Member>, removed: MemberId, dek: Dek)
    requires GoodKeys(l) && IsOwner(Some(l), c.me.id) && removed != c.me.id
    requires l.members.Keys == Roles(members).Keys && forall m | m in members :: m.id in c.users
    ensures var r := Handle(Some(l), c.users.Keys, c.me.id,
                            Remove(removed, l.epoch, SealAll(Without(members, removed), dek)));
            && r.Ok? && Seated(c, Some(r.value))
            && r.value.epoch == l.epoch + 1 && r.value.members == l.members - {removed}
            && r.value.members.Keys == Roles(Without(members, removed)).Keys
  {
    RolesWithout(members, removed);
    RotationServed(c, l, members, removed, l.epoch, dek);
  }

  // ── listings that lag behind ──────────────────────────────────────────────

  /** The server's rows only move forward while the queue is worked off. */
  lemma {:induction false} EndsGrow(c: Setup, server: Option<Listing>, queue: seq<Request>)
    requires Served(c, server, queue) && server.Some?
    ensures var ends := Ends(c, server, queue);
            && ends.Some? && server.value.epoch <= ends.value.epoch
            && (server.value.epoch == ends.value.epoch ==> server.value.members.Keys <= ends.value.members.Keys)
    decreases |queue|
  {
    if queue != [] {
      EndsGrow(c, Some(Handle(server, c.users.Keys, c.me.id, queue[0]).value), queue[1..]);
    }
  }

  /** A fetched listing is of an earlier epoch, or of this one with some of its members. */
  predicate Lags(l: LocalList, f: Listing) {
    f.epoch <= l.epoch && (f.epoch == l.epoch ==> f.members.Keys <= Roles(l.members).Keys)
  }

  ghost predicate Lagging(c: Setup, w: World) {
    c.list in w.store.lists ==> forall i | 0 <= i < |w.fetched| :: Lags(w.store.lists[c.list], w.fetched[i])
  }

  lemma {:induction false} RolesMerged(mine: seq<Member>, members: seq<Member>)
    requires DistinctIds(members)
    ensures Roles(UpsertAll(mine, members)) == Roles(mine) + Roles(members)
    decreases |members|
  {
    if members != [] {
      RolesUpserted(mine, members[0]);
      RolesMerged(Upsert(mine, members[0]), members[1..]);
      RolesHas(members[1..], members[0].id);
    }
  }

  /** No listing is ingested whose epoch is below the client's. */
  predicate NotBehind(c: Setup, w: World, e: Event) {
    e.Ingest? && w.fetched != [] && c.list in w.store.lists ==> w.store.lists[c.list].epoch <= w.fetched[0].epoch
  }

  lemma CreateInStep(c: Setup, w: World, dek: Dek)
    requires Proper(c) && Sound(c, w) && InStep(c, w) && Allowed(c, w, CreateList(dek))
    ensures InStep(c, Next(c, w, CreateList(dek))) && Lagging(c, Next(c, w, CreateList(dek)))
  {
    var made := Created(w.store, c.list, dek).1;
    assert [made][1..] == [] && w.queue + [made] == [made];
    var r := Handle(None, c.users.Keys, c.me.id, made);
    assert Served(c, Some(r.value), []);
    var me := c.me.(role := Owner);
    assert Roles([me]) == map[c.me.id := Owner] by { assert [me][1..] == []; }
    assert Ends(c, None, [made]) == Ends(c, Some(r.value), []);
  }

  lemma AddInStep(c: Setup, w: World, m: Member)
    requires Proper(c) && Sound(c, w) && InStep(c, w) && Allowed(c, w, AddMember(m))
    ensures InStep(c, Next(c, w, AddMember(m)))
  {
    var done := AddedLocally(w.store, c.list, m);
    if done.Done? {
      EndsSeated(c, w.server, w.queue);
      AddIsGood(c, Ends(c, w.server, w.queue).value, m, done.out.wrapped);
      ServedOneMore(c, w.server, w.queue, done.out);
      RolesUpserted(w.store.lists[c.list].members, m);
    }
  }

  lemma RemoveInStep(c: Setup, w: World, id: MemberId, dek: Dek)
    requires Proper(c) && Sound(c, w) && InStep(c, w) && Allowed(c, w, RemoveMember(id, dek))
    ensures InStep(c, Next(c, w, RemoveMember(id, dek)))
  {
    var done := RemovedLocally(w.store, c.list, id, dek);
    if done.Done? {
      EndsSeated(c, w.server, w.queue);
      RemoveIsGood(c, Ends(c, w.server, w.queue).value, w.store.lists[c.list].members, id, dek);
      ServedOneMore(c, w.server, w.queue, done.out);
    }
  }

  lemma CommandKeepsLagging(c: Setup, w: World, e: Event)
    requires Lagging(c, w) && Allowed(c, w, e) && (e.AddMember? || e.RemoveMember?)
    ensures Lagging(c, Next(c, w, e))
  {
    if e.AddMember? && c.list in w.store.lists {
      RolesUpserted(w.store.lists[c.list].members, e.added);
    }
  }

  lemma MergedAgreesIff(c: Setup, l: LocalList, f: Listing, ends: Option<Listing>, members: seq<Member>)
    requires Directory(c, f, members) && Lags(l, f) && Agrees(l, ends)
    ensures Agrees(Merged(c, l, f, members), ends) <==> l.epoch <= f.epoch
  {
    RolesMerged(l.members, members);
  }

  lemma MergedKeepsLag(c: Setup, l: LocalList, f: Listing, members: seq<Member>, g: Listing)
    requires Directory(c, f, members) && Lags(l, f) && l.epoch <= f.epoch && Lags(l, g)
    ensures Lags(Merged(c, l, f, members), g)
  {
    RolesMerged(l.members, members);
  }

  lemma IngestInStepIff(c: Setup, w: World, members: seq<Member>)
    requires InStep(c, w) && Lagging(c, w) && Allowed(c, w, Ingest(members)) && c.list in w.store.lists
    ensures InStep(c, Next(c, w, Ingest(members))) <==> NotBehind(c, w, Ingest(members))
  {
    IngestMerges(c, w, members);
    MergedAgreesIff(c, w.store.lists[c.list], w.fetched[0], Ends(c, w.server, w.queue), members);
  }

  lemma IngestKeepsLagging(c: Setup, w: World, members: seq<Member>)
    requires Lagging(c, w) && Allowed(c, w, Ingest(members)) && c.list in w.store.lists
    requires NotBehind(c, w, Ingest(members))
    ensures Lagging(c, Next(c, w, Ingest(members)))
  {
    IngestMerges(c, w, members);
    var w' := Next(c, w, Ingest(members));
    forall i | 0 <= i < |w'.fetched|
      ensures Lags(w'.store.lists[c.list], w'.fetched[i])
    {
      assert w'.fetched[i] == w.fetched[i + 1];
      MergedKeepsLag(c, w.store.lists[c.list], w.fetched[0], members, w.fetched[i + 1]);
    }
  }

  lemma StepInStepIff(c: Setup, w: World, e: Event)
    requires Proper(c) && Sound(c, w) && InStep(c, w) && Lagging(c, w) && Allowed(c, w, e) && e != Lose
    ensures InStep(c, Next(c, w, e)) <==> NotBehind(c, w, e)
    ensures NotBehind(c, w, e) ==> Lagging(c, Next(c, w, e))
  {
    match e
    case CreateList(dek) => CreateInStep(c, w, dek);
    case AddMember(m) =>
      AddInStep(c, w, m);
      CommandKeepsLagging(c, w, e);
    case RemoveMember(id, dek) =>
      RemoveInStep(c, w, id, dek);
      CommandKeepsLagging(c, w, e);
    case Ingest(members) =>
      assert c.list in w.store.lists;
      IngestInStepIff(c, w, members);
      if NotBehind(c, w, e) {
        IngestKeepsLagging(c, w, members);
      }
    case Discover => EndsGrow(c, w.server, w.queue);
    case _ =>
  }

  // ── whole runs ────────────────────────────────────────────────────────────

  lemma {:induction false} InStepAt(c: Setup, ws: seq<World>, es: seq<Event>, n: nat)
    requires Proper(c) && Run(c, ws, es) && n <= |es| && Lose !in es[..n]
    requires forall i | 0 <= i < n :: NotBehind(c, ws[i], es[i])
    ensures Sound(c, ws[n]) && InStep(c, ws[n]) && Lagging(c, ws[n])
    decreases n
  {
    RunKeepsSound(c, ws, es, n);
    if n > 0 {
      assert es[n - 1] in es[..n] && forall e | e in es[..n - 1] :: e in es[..n];
      InStepAt(c, ws, es, n - 1);
      StepInStepIff(c, ws[n - 1], es[n - 1]);
    }
  }

  lemma {:induction false} LaggingAt(c: Setup, ws: seq<World>, es: seq<Event>, n: nat)
    requires Proper(c) && Run(c, ws, es) && n <= |es| && Lose !in es
    requires forall i | 0 <= i <= n :: InStep(c, ws[i])
    ensures Lagging(c, ws[n])
    decreases n
  {
    if n > 0 {
      LaggingAt(c, ws, es, n - 1);
      RunKeepsSound(c, ws, es, n - 1);
      assert es[n - 1] in es && InStep(c, ws[n - 1]) && InStep(c, ws[n]);
      StepInStepIff(c, ws[n - 1], es[n - 1]);
    }
  }

  /** Over whole runs that lose no command: what waits in the queue takes the server
      to the client's epoch and members, with good keys at every step, at all times,
      if and only if no listing is ingested whose epoch is below the client's. */
  lemma InStepIff(c: Setup, ws: seq<World>, es: seq<Event>)
    requires Proper(c) && Run(c, ws, es) && Lose !in es
    ensures (forall i | 0 <= i <= |es| :: InStep(c, ws[i]))
       <==> (forall i | 0 <= i < |es| :: NotBehind(c, ws[i], es[i]))
  {
    if forall i | 0 <= i <= |es| :: InStep(c, ws[i]) {
      forall i | 0 <= i < |es|
        ensures NotBehind(c, ws[i], es[i])
      {
        RunKeepsSound(c, ws, es, i);
        LaggingAt(c, ws, es, i);
        assert es[i] in es && InStep(c, ws[i]) && InStep(c, ws[i + 1]);
        StepInStepIff(c, ws[i], es[i]);
      }
    }
    if forall i | 0 <= i < |es| :: NotBehind(c, ws[i], es[i]) {
      forall i | 0 <= i <= |es|
        ensures InStep(c, ws[i])
      {
        assert forall e | e in es[..i] :: e in es;
        InStepAt(c, ws, es, i);
      }
    }
  }

  /** In every run that loses no command and ingests no listing behind the client: at
      every moment every member has a slot for the server's current epoch, no slot is
      beyond it and none belongs to a non-member; and when the queue is empty the
      server has the client's epoch and members. */
  lemma MembersHoldTheCurrentKey(c: Setup, ws: seq<World>, es: seq<Event>)
    requires Proper(c) && Run(c, ws, es) && Lose !in es
    requires forall i | 0 <= i < |es| :: NotBehind(c, ws[i], es[i])
    ensures var w := ws[|es|];
            && (w.server.Some? ==>
                  && (forall m | m in w.server.value.members :: (w.server.value.epoch, m) in w.server.value.slots)
                  && (forall k | k in w.server.value.slots :: k.1 in w.server.value.members
                        && 1 <= k.0 <= w.server.value.epoch))
            && (w.queue == [] && c.list in w.store.lists ==> Agrees(w.store.lists[c.list], w.server))
  {
    assert es[..|es|] == es;
    InStepAt(c, ws, es, |es|);
  }

  // ── roles ─────────────────────────────────────────────────────────────────

  /** The listing gives nobody a role other than the client's own row does. */
  predicate SameRoles(c: Setup, w: World, e: Event) {
    e.Ingest? && w.fetched != [] && c.list in w.store.lists ==>
      var mine := Roles(w.store.lists[c.list].members);
      forall id | id in w.fetched[0].members && id in mine :: w.fetched[0].members[id] == mine[id]
  }

  ghost predicate RolesAgree(c: Setup, w: World) {
    c.list in w.store.lists ==>
      var ends := Ends(c, w.server, w.queue);
      ends.Some? && ends.value.members == Roles(w.store.lists[c.list].members)
  }

  lemma CreateKeepsRoles(c: Setup, w: World, dek: Dek)
    requires Proper(c) && Sound(c, w) && Allowed(c, w, CreateList(dek))
    ensures RolesAgree(c, Next(c, w, CreateList(dek)))
  {
    var made := Created(w.store, c.list, dek).1;
    assert [made][1..] == [] && w.queue + [made] == [made];
    var me := c.me.(role := Owner);
    assert Roles([me]) == map[c.me.id := Owner] by { assert [me][1..] == []; }
    assert Ends(c, None, [made]) == Ends(c, Some(Handle(None, c.users.Keys, c.me.id, made).value), []);
  }

  lemma AddKeepsRoles(c: Setup, w: World, m: Member)
    requires Proper(c) && Sound(c, w) && InStep(c, w) && RolesAgree(c, w) && Allowed(c, w, AddMember(m))
    ensures RolesAgree(c, Next(c, w, AddMember(m)))
  {
    var done := AddedLocally(w.store, c.list, m);
    if done.Done? {
      EndsSeated(c, w.server, w.queue);
      AddIsGood(c, Ends(c, w.server, w.queue).value, m, done.out.wrapped);
      ServedOneMore(c, w.server, w.queue, done.out);
      RolesUpserted(w.store.lists[c.list].members, m);
    }
  }

  lemma RemoveKeepsRoles(c: Setup, w: World, id: MemberId, dek: Dek)
    requires Proper(c) && Sound(c, w) && InStep(c, w) && RolesAgree(c, w) && Allowed(c, w, RemoveMember(id, dek))
    ensures RolesAgree(c, Next(c, w, RemoveMember(id, dek)))
  {
    var done := RemovedLocally(w.store, c.list, id, dek);
    if done.Done? {
      EndsSeated(c, w.server, w.queue);
      RemoveIsGood(c, Ends(c, w.server, w.queue).value, w.store.lists[c.list].members, id, dek);
      ServedOneMore(c, w.server, w.queue, done.out);
      RolesWithout(w.store.lists[c.list].members, id);
    }
  }

  lemma MergedRolesIff(l: LocalList, f: Listing, members: seq<Member>)
    requires Roles(members) == f.members && DistinctIds(members) && f.members.Keys <= Roles(l.members).Keys
    ensures Roles(UpsertAll(l.members, members)) == Roles(l.members)
       <==> forall id | id in f.members && id in Roles(l.members) :: f.members[id] == Roles(l.members)[id]
  {
    RolesMerged(l.members, members);
    var mine := Roles(l.members);
    if mine + f.members == mine {
      forall id | id in f.members
        ensures f.members[id] == mine[id]
      {
        assert (mine + f.members)[id] == f.members[id];
      }
    }
  }

  lemma IngestRolesIff(c: Setup, w: World, members: seq<Member>)
    requires InStep(c, w) && Lagging(c, w) && RolesAgree(c, w) && Allowed(c, w, Ingest(members))
    requires c.list in w.store.lists && NotBehind(c, w, Ingest(members))
    ensures RolesAgree(c, Next(c, w, Ingest(members))) <==> SameRoles(c, w, Ingest(members))
  {
    IngestMerges(c, w, members);
    assert Lags(w.store.lists[c.list], w.fetched[0]);
    MergedRolesIff(w.store.lists[c.list], w.fetched[0], members);
  }

  lemma StepRolesIff(c: Setup, w: World, e: Event)
    requires Proper(c) && Sound(c, w) && InStep(c, w) && Lagging(c, w) && RolesAgree(c, w)
    requires Allowed(c, w, e) && e != Lose && NotBehind(c, w, e)
    ensures RolesAgree(c, Next(c, w, e)) <==> SameRoles(c, w, e)
  {
    match e
    case CreateList(dek) => CreateKeepsRoles(c, w, dek);
    case AddMember(m) => AddKeepsRoles(c, w, m);
    case RemoveMember(id, dek) => RemoveKeepsRoles(c, w, id, dek);
    case Ingest(members) =>
      assert c.list in w.store.lists;
      IngestRolesIff(c, w, members);
    case _ =>
  }

  lemma {:induction false} RolesAgreeAt(c: Setup, ws: seq<World>, es: seq<Event>, n: nat)
    requires Proper(c) && Run(c, ws, es) && n <= |es| && Lose !in es
    requires forall i | 0 <= i < n :: NotBehind(c, ws[i], es[i]) && SameRoles(c, ws[i], es[i])
    ensures RolesAgree(c, ws[n])
    decreases n
  {
    if n > 0 {
      RolesAgreeAt(c, ws, es, n - 1);
      assert es[n - 1] in es && forall e | e in es[..n - 1] :: e in es;
      InStepAt(c, ws, es, n - 1);
      StepRolesIff(c, ws[n - 1], es[n - 1]);
    }
  }

  /** In such a run the server ends with the client's roles, too, at all times, if and
      only if no listing ingested gives anybody a role other than the client's. */
  lemma RolesAgreeIff(c: Setup, ws: seq<World>, es: seq<Event>)
    requires Proper(c) && Run(c, ws, es) && Lose !in es
    requires forall i | 0 <= i < |es| :: NotBehind(c, ws[i], es[i])
    ensures (forall i | 0 <= i <= |es| :: RolesAgree(c, ws[i]))
       <==> (forall i | 0 <= i < |es| :: SameRoles(c, ws[i], es[i]))
  {
    if forall i | 0 <= i <= |es| :: RolesAgree(c, ws[i]) {
      forall i | 0 <= i < |es|
        ensures SameRoles(c, ws[i], es[i])
      {
        assert es[i] in es && forall e | e in es[..i] :: e in es;
        InStepAt(c, ws, es, i);
        assert RolesAgree(c, ws[i]) && RolesAgree(c, ws[i + 1]);
        StepRolesIff(c, ws[i], es[i]);
      }
    }
    if forall i | 0 <= i < |es| :: SameRoles(c, ws[i], es[i]) {
      forall i | 0 <= i <= |es|
        ensures RolesAgree(c, ws[i])
      {
        RolesAgreeAt(c, ws, es, i);
      }
    }
  }
}
