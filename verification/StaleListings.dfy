/** Two runs in which the owner's client ingests a listing older than its own rows
    and then rotates: a removed member gets a later key, and two keys share an epoch. */
module StaleListings {
  import opened Helpers
  import opened Updates
  import opened Keys
  import opened ServerLists
  import opened StoreKeys
  import opened KeyRefinement
  import opened Rotation
  import opened Lockstep

  ghost predicate Known(c: Setup, members: seq<Member>) {
    forall m | m in members :: m.id in c.users && c.users[m.id] == m.identityPub
  }

  function Rotated(c: Setup, l: Listing, members: seq<Member>, removed: MemberId, epoch: Epoch, dek: Dek)
    : Result<Listing, Error>
  {
    Handle(Some(l), c.users.Keys, c.me.id, Remove(removed, epoch, SealAll(Without(members, removed), dek)))
  }

  /** Everyone the client lists gets the new key, unless a slot is there already. */
  lemma RotationSeals(c: Setup, l: Listing, members: seq<Member>, removed: MemberId, epoch: Epoch, dek: Dek,
                      id: MemberId)
    requires IsOwner(Some(l), c.me.id) && epoch >= 0 && Known(c, members)
    requires id in Roles(members) && id != removed
    ensures var r, k := Rotated(c, l, members, removed, epoch, dek), (epoch + 1, id);
            && r.Ok? && k in r.value.slots && id in c.users
            && r.value.slots[k] == if k in l.slots then l.slots[k] else SealTo(dek, c.users[id])
  {
    var rest := Without(members, removed);
    RotationServed(c, l, members, removed, epoch, dek);
    RolesHas(members, id);
    RolesWithout(members, removed);
    InsertedSlots(l.slots, epoch + 1, SealAll(rest, dek), (epoch + 1, id));
    WithoutFacts(members, removed);
    forall i | 0 <= i < |rest|
      ensures SealAll(rest, dek)[i].wrapped == SealTo(dek, c.users[rest[i].id])
    {
      assert rest[i] in rest;
    }
  }

  /** The client is where the server is, with nothing waiting. */
  ghost predicate Level(c: Setup, w: World) {
    && Sound(c, w) && w.queue == [] && w.fetched == [] && c.list in w.store.lists && w.server.Some?
    && GoodKeys(w.server.value) && Agrees(w.store.lists[c.list], w.server)
  }

  /** What of this the runs below use. */
  ghost predicate Even(c: Setup, w: World) {
    && w.queue == [] && w.fetched == [] && c.list in w.store.lists && IsOwner(w.server, c.me.id)
    && GoodKeys(w.server.value) && Agrees(w.store.lists[c.list], w.server)
    && Known(c, w.store.lists[c.list].members) && c.me.id in Roles(w.store.lists[c.list].members)
  }

  lemma LevelIsEven(c: Setup, w: World)
    requires Level(c, w)
    ensures Even(c, w)
  {
    assert c.me.(role := Owner) in w.store.lists[c.list].members;
    RolesHas(w.store.lists[c.list].members, c.me.id);
    assert ListingSound(c, w.issued, w.server.value);
  }

  lemma EvenAt(c: Setup, ws: seq<World>, es: seq<Event>)
    requires Proper(c) && Run(c, ws, es) && Lose !in es && (forall i | 0 <= i < |es| :: NotBehind(c, ws[i], es[i]))
    requires ws[|es|].queue == [] && ws[|es|].fetched == [] && c.list in ws[|es|].store.lists
    ensures Even(c, ws[|es|])
  {
    assert es[..|es|] == es;
    InStepAt(c, ws, es, |es|);
    LevelIsEven(c, ws[|es|]);
  }

  lemma RotatesAt(c: Setup, w: World, id: MemberId, dek: Dek)
    requires Allowed(c, w, RemoveMember(id, dek)) && c.list in w.store.lists
    ensures var w', l := Next(c, w, RemoveMember(id, dek)), w.store.lists[c.list];
            && w'.server == w.server && w'.fetched == w.fetched && c.list in w'.store.lists
            && w'.queue == w.queue + [Remove(id, l.epoch, SealAll(Without(l.members, id), dek))]
            && w'.store.lists[c.list].epoch == l.epoch + 1
            && w'.store.lists[c.list].members == Without(l.members, id)
            && id in w'.left && (forall m | m in w.left :: m in w'.left) && !NewDek(w'.drawn, dek)
  {
    assert Draw(w.store.lists[c.list].epoch + 1, dek) in Next(c, w, RemoveMember(id, dek)).drawn;
  }

  // ── a lost removal undone ─────────────────────────────────────────────────

  /** After the listing is ingested the client is back at its epoch and lists everyone
      it names again. */
  lemma BackAgain(c: Setup, w: World, w': World, members: seq<Member>)
    requires Allowed(c, w, Ingest(members)) && w' == Next(c, w, Ingest(members)) && c.list in w.store.lists
    requires Known(c, w.store.lists[c.list].members)
    ensures c.list in w'.store.lists && w'.store.lists[c.list].epoch == w.fetched[0].epoch
    ensures forall id | id in w.fetched[0].members :: id in Roles(w'.store.lists[c.list].members)
    ensures w'.left == w.left && w'.server == w.server && w'.queue == w.queue && w'.drawn == w.drawn
    ensures Known(c, w'.store.lists[c.list].members)
  {
    var mine := w.store.lists[c.list].members;
    IngestMerges(c, w, members);
    RolesMerged(mine, members);
    forall m | m in UpsertAll(mine, members)
      ensures m.id in c.users && c.users[m.id] == m.identityPub
    {
      UpsertAllHas(mine, members, m);
    }
  }

  /** The rotation that follows, on its arrival. */
  lemma ArrivesAlone(c: Setup, w: World, w1: World, removed: MemberId, dek: Dek, lost: MemberId)
    requires c.list in w.store.lists && w.queue == [] && IsOwner(w.server, c.me.id) && GoodKeys(w.server.value)
    requires w.server.value.epoch == w.store.lists[c.list].epoch && Known(c, w.store.lists[c.list].members)
    requires lost in Roles(w.store.lists[c.list].members) && lost != removed
    requires Allowed(c, w, RemoveMember(removed, dek)) && w1 == Next(c, w, RemoveMember(removed, dek))
    ensures w1.queue != []
    ensures var s := Next(c, w1, Arrive).server;
            && s.Some? && s.value.epoch == w.server.value.epoch + 1 && lost in c.users
            && (s.value.epoch, lost) in s.value.slots
            && s.value.slots[(s.value.epoch, lost)] == SealTo(dek, c.users[lost])
  {
    var l := w.store.lists[c.list];
    RotatesAt(c, w, removed, dek);
    RotationSeals(c, w.server.value, l.members, removed, l.epoch, dek, lost);
    var r := Rotated(c, w.server.value, l.members, removed, l.epoch, dek);
    assert w1.queue[0] == Remove(removed, l.epoch, SealAll(Without(l.members, removed), dek));
    assert Next(c, w1, Arrive).server == Some(r.value) && r.value.epoch == l.epoch + 1;
  }

  /** The listing the server has is fetched after the request was lost. */
  lemma DiscoveredAfterLoss(c: Setup, w: World, w1: World, w2: World, w3: World, lost: MemberId, dek: Dek)
    requires Even(c, w) && Allowed(c, w, RemoveMember(lost, dek)) && w1 == Next(c, w, RemoveMember(lost, dek))
    requires Allowed(c, w1, Lose) && w2 == Next(c, w1, Lose) && Allowed(c, w2, Discover) && w3 == Next(c, w2, Discover)
    ensures w3.server == w.server && w3.queue == [] && w3.fetched == [w.server.value]
    ensures c.list in w3.store.lists && lost in w3.left && !NewDek(w3.drawn, dek)
    ensures Known(c, w3.store.lists[c.list].members)
  {
    RotatesAt(c, w, lost, dek);
    WithoutFacts(w.store.lists[c.list].members, lost);
  }

  /** The owner removes a member and the request is lost; at the next start the
      listing puts the member back, and the next rotation seals its key to them. */
  lemma RemovedGetsLaterKey(c: Setup, before: seq<World>, bs: seq<Event>, ws: seq<World>, es: seq<Event>,
                            lost: MemberId, dek: Dek, members: seq<Member>, removed: MemberId, dek': Dek)
    requires Proper(c) && Run(c, before, bs) && Lose !in bs
    requires forall i | 0 <= i < |bs| :: NotBehind(c, before[i], bs[i])
    requires before[|bs|].queue == [] && before[|bs|].fetched == [] && c.list in before[|bs|].store.lists
    requires lost in Roles(before[|bs|].store.lists[c.list].members) && lost != removed
    requires es == [RemoveMember(lost, dek), Lose, Discover, Ingest(members), RemoveMember(removed, dek'), Arrive]
    requires Follows(c, ws, es) && ws[0] == before[|bs|]
    ensures var w := ws[6];
            && w.server.Some? && lost in w.left && lost in c.users && dek != dek'
            && (w.server.value.epoch, lost) in w.server.value.slots
            && w.server.value.slots[(w.server.value.epoch, lost)] == SealTo(dek', c.users[lost])
  {
    EvenAt(c, before, bs);
    LostThenBack(c, ws, es, lost, dek, members, removed, dek');
  }

  lemma LostThenBack(c: Setup, ws: seq<World>, es: seq<Event>, lost: MemberId, dek: Dek, members: seq<Member>,
                     removed: MemberId, dek': Dek)
    requires Follows(c, ws, es) && Even(c, ws[0])
    requires lost in Roles(ws[0].store.lists[c.list].members) && lost != removed
    requires es == [RemoveMember(lost, dek), Lose, Discover, Ingest(members), RemoveMember(removed, dek'), Arrive]
    ensures var w := ws[6];
            && w.server.Some? && lost in w.left && lost in c.users && dek != dek'
            && (w.server.value.epoch, lost) in w.server.value.slots
            && w.server.value.slots[(w.server.value.epoch, lost)] == SealTo(dek', c.users[lost])
  {
    var w0, w1, w2, w3, w4, w5 := ws[0], ws[1], ws[2], ws[3], ws[4], ws[5];
    assert Allowed(c, w0, es[0]) && Allowed(c, w1, es[1]) && Allowed(c, w2, es[2]);
    assert Allowed(c, w3, es[3]) && Allowed(c, w4, es[4]) && Allowed(c, w5, es[5]);
    DiscoveredAfterLoss(c, w0, w1, w2, w3, lost, dek);
    BackAgain(c, w3, w4, members);
    ArrivesAlone(c, w4, w5, removed, dek', lost);
    StaysLeft(c, w4, removed, dek', lost);
  }

  lemma StaysLeft(c: Setup, w: World, removed: MemberId, dek: Dek, lost: MemberId)
    requires Allowed(c, w, RemoveMember(removed, dek)) && w.queue == [] && c.list in w.store.lists && lost in w.left
    ensures var w1 := Next(c, w, RemoveMember(removed, dek)); w1.queue != [] && lost in Next(c, w1, Arrive).left
  {
    RotatesAt(c, w, removed, dek);
  }

  // ── a listing fetched too early ───────────────────────────────────────────

  /** The first rotation arrives. */
  lemma FirstArrives(c: Setup, l: Listing, first: seq<Member>, a: MemberId, dek: Dek)
    requires IsOwner(Some(l), c.me.id) && GoodKeys(l) && Known(c, first)
    requires c.me.id in Roles(first) && a != c.me.id
    ensures var r := Rotated(c, l, first, a, l.epoch, dek);
            && r.Ok? && c.me.id in c.users && IsOwner(Some(r.value), c.me.id)
            && a !in r.value.members && (l.epoch + 1, a) !in r.value.slots
            && (l.epoch + 1, c.me.id) in r.value.slots
            && r.value.slots[(l.epoch + 1, c.me.id)] == SealTo(dek, c.users[c.me.id])
  {
    RotationServed(c, l, first, a, l.epoch, dek);
    RotationSeals(c, l, first, a, l.epoch, dek, c.me.id);
  }

  /** The second arrives at the epoch the first led to. */
  lemma SecondArrives(c: Setup, l: Listing, second: seq<Member>, epoch: Epoch, a: MemberId, b: MemberId, dek: Dek)
    requires IsOwner(Some(l), c.me.id) && epoch >= 0 && Known(c, second)
    requires c.me.id in Roles(second) && a in Roles(second) && a != b && b != c.me.id
    requires a !in l.members && (epoch + 1, a) !in l.slots && (epoch + 1, c.me.id) in l.slots
    ensures var r := Rotated(c, l, second, b, epoch, dek);
            && r.Ok? && r.value.epoch == epoch + 1 && a !in r.value.members && a in c.users
            && (epoch + 1, c.me.id) in r.value.slots
            && r.value.slots[(epoch + 1, c.me.id)] == l.slots[(epoch + 1, c.me.id)]
            && (epoch + 1, a) in r.value.slots && r.value.slots[(epoch + 1, a)] == SealTo(dek, c.users[a])
  {
    RotationServed(c, l, second, b, epoch, dek);
    RotationSeals(c, l, second, b, epoch, dek, c.me.id);
    RotationSeals(c, l, second, b, epoch, dek, a);
  }

  /** One epoch, two keys, and one of them for a non-member. */
  ghost predicate Split(c: Setup, server: Option<Listing>, e: Epoch, a: MemberId, dek: Dek, dek': Dek) {
    && server.Some? && a in c.users && c.me.id in c.users && dek != dek'
    && var l := server.value;
       && l.epoch == e && a !in l.members
       && (e, c.me.id) in l.slots && l.slots[(e, c.me.id)] == SealTo(dek, c.users[c.me.id])
       && (e, a) in l.slots && l.slots[(e, a)] == SealTo(dek', c.users[a])
  }

  predicate SplittingEvents(es: seq<Event>, a: MemberId, dek: Dek, members: seq<Member>, b: MemberId, dek': Dek) {
    es == [Discover, RemoveMember(a, dek), Ingest(members), RemoveMember(b, dek'), Arrive, Arrive]
  }

  /** Nothing is lost: a listing is fetched, a member removed, the listing ingested
      and another member removed before the first request reaches the server. It
      ends with two keys in one epoch, one of them in a slot of a non-member. */
  lemma EarlyListingSplitsAnEpoch(c: Setup, before: seq<World>, bs: seq<Event>, ws: seq<World>, es: seq<Event>,
                                  a: MemberId, dek: Dek, members: seq<Member>, b: MemberId, dek': Dek)
    requires Proper(c) && Run(c, before, bs) && Lose !in bs
    requires forall i | 0 <= i < |bs| :: NotBehind(c, before[i], bs[i])
    requires before[|bs|].queue == [] && before[|bs|].fetched == [] && c.list in before[|bs|].store.lists
    requires a in Roles(before[|bs|].store.lists[c.list].members) && a != b
    requires SplittingEvents(es, a, dek, members, b, dek')
    requires Follows(c, ws, es) && ws[0] == before[|bs|]
    ensures Split(c, ws[6].server, before[|bs|].store.lists[c.list].epoch + 1, a, dek, dek')
    ensures ws[6].server.Some? && !GoodKeys(ws[6].server.value)
  {
    EvenAt(c, before, bs);
    EarlyThenBoth(c, ws, es, a, dek, members, b, dek');
    SplitIsBad(c, ws[6].server, before[|bs|].store.lists[c.list].epoch + 1, a, dek, dek');
  }

  lemma SplitIsBad(c: Setup, server: Option<Listing>, e: Epoch, a: MemberId, dek: Dek, dek': Dek)
    requires Split(c, server, e, a, dek, dek')
    ensures !GoodKeys(server.value)
  {
  }

  lemma EarlyThenBoth(c: Setup, ws: seq<World>, es: seq<Event>, a: MemberId, dek: Dek, members: seq<Member>,
                      b: MemberId, dek': Dek)
    requires Follows(c, ws, es) && SplittingEvents(es, a, dek, members, b, dek') && a != b && Even(c, ws[0])
    requires a in Roles(ws[0].store.lists[c.list].members)
    ensures Split(c, ws[6].server, ws[0].store.lists[c.list].epoch + 1, a, dek, dek')
  {
    var l := ws[0].server.value;
    FirstTwo(c, l, ws, es, a, dek, members, b, dek');
    OtherFour(c, l, ws[0].store.lists[c.list].members, ws, es, a, dek, members, b, dek');
  }

  lemma OtherFour(c: Setup, l: Listing, first: seq<Member>, ws: seq<World>, es: seq<Event>, a: MemberId, dek: Dek,
                  members: seq<Member>, b: MemberId, dek': Dek)
    requires Follows(c, ws, es) && SplittingEvents(es, a, dek, members, b, dek') && a != b
    requires Early(c, l, first, ws[2], a, dek) && IsOwner(Some(l), c.me.id) && GoodKeys(l) && Known(c, first)
    requires c.me.id in Roles(first) && a in l.members
    ensures Split(c, ws[6].server, l.epoch + 1, a, dek, dek')
  {
    MiddleTwo(c, l, first, ws, es, a, dek, members, b, dek');
    LastTwo(c, l, first, ws[3].store.lists[c.list].members, ws, es, a, dek, members, b, dek');
  }

  lemma FirstTwo(c: Setup, l: Listing, ws: seq<World>, es: seq<Event>, a: MemberId, dek: Dek, members: seq<Member>,
                 b: MemberId, dek': Dek)
    requires Follows(c, ws, es) && SplittingEvents(es, a, dek, members, b, dek')
    requires ws[0].server == Some(l) && ws[0].queue == [] && ws[0].fetched == [] && c.list in ws[0].store.lists
    requires Known(c, ws[0].store.lists[c.list].members) && l.epoch == ws[0].store.lists[c.list].epoch
    ensures Early(c, l, ws[0].store.lists[c.list].members, ws[2], a, dek)
  {
    assert Allowed(c, ws[0], es[0]) && Allowed(c, ws[1], es[1]);
    FetchedThenRemoved(c, l, ws[0], ws[1], ws[2], a, dek);
  }

  lemma MiddleTwo(c: Setup, l: Listing, first: seq<Member>, ws: seq<World>, es: seq<Event>, a: MemberId, dek: Dek,
                  members: seq<Member>, b: MemberId, dek': Dek)
    requires Follows(c, ws, es) && SplittingEvents(es, a, dek, members, b, dek') && Early(c, l, first, ws[2], a, dek)
    ensures Twice(c, l, first, ws[3], ws[4], a, dek, b, dek')
  {
    assert Allowed(c, ws[2], es[2]) && Allowed(c, ws[3], es[3]);
    RemovedAgain(c, l, first, ws[2], ws[3], ws[4], a, dek, members, b, dek');
  }

  lemma LastTwo(c: Setup, l: Listing, first: seq<Member>, second: seq<Member>, ws: seq<World>, es: seq<Event>,
                a: MemberId, dek: Dek, members: seq<Member>, b: MemberId, dek': Dek)
    requires Follows(c, ws, es) && SplittingEvents(es, a, dek, members, b, dek') && a != b
    requires Twice(c, l, first, ws[3], ws[4], a, dek, b, dek') && second == ws[3].store.lists[c.list].members
    requires IsOwner(Some(l), c.me.id) && GoodKeys(l) && Known(c, first)
    requires c.me.id in Roles(first) && a in l.members
    ensures Split(c, ws[6].server, l.epoch + 1, a, dek, dek')
  {
    assert Allowed(c, ws[1], es[1]) && Allowed(c, ws[3], es[3]);
    assert Allowed(c, ws[4], es[4]) && Allowed(c, ws[5], es[5]);
    BothArrive(c, l, ws[4], ws[5], ws[6], first, second, a, b, dek, dek');
  }

  /** The first removal waits while a listing fetched before it does. */
  ghost predicate Early(c: Setup, l: Listing, first: seq<Member>, w: World, a: MemberId, dek: Dek) {
    && w.server == Some(l) && w.fetched == [l] && c.list in w.store.lists && !NewDek(w.drawn, dek)
    && w.queue == [Remove(a, l.epoch, SealAll(Without(first, a), dek))]
    && Known(c, w.store.lists[c.list].members)
  }

  /** Both removals wait, the second sent from the listing's epoch. */
  ghost predicate Twice(c: Setup, l: Listing, first: seq<Member>, w1: World, w2: World, a: MemberId, dek: Dek,
                        b: MemberId, dek': Dek) {
    && c.list in w1.store.lists && w2.server == Some(l) && dek != dek'
    && var second := w1.store.lists[c.list].members;
       && Known(c, second) && (forall id | id in l.members :: id in Roles(second))
       && w2.queue == [Remove(a, l.epoch, SealAll(Without(first, a), dek)),
                       Remove(b, l.epoch, SealAll(Without(second, b), dek'))]
  }

  lemma FetchedThenRemoved(c: Setup, l: Listing, w: World, w1: World, w2: World, a: MemberId, dek: Dek)
    requires w.server == Some(l) && w.queue == [] && w.fetched == [] && c.list in w.store.lists
    requires Known(c, w.store.lists[c.list].members) && l.epoch == w.store.lists[c.list].epoch
    requires Allowed(c, w, Discover) && w1 == Next(c, w, Discover)
    requires Allowed(c, w1, RemoveMember(a, dek)) && w2 == Next(c, w1, RemoveMember(a, dek))
    ensures Early(c, l, w.store.lists[c.list].members, w2, a, dek)
  {
    RotatesAt(c, w1, a, dek);
    WithoutFacts(w.store.lists[c.list].members, a);
  }

  /** The listing is ingested and the second member removed. */
  lemma RemovedAgain(c: Setup, l: Listing, first: seq<Member>, w: World, w1: World, w2: World, a: MemberId, dek: Dek,
                     members: seq<Member>, b: MemberId, dek': Dek)
    requires Early(c, l, first, w, a, dek)
    requires Allowed(c, w, Ingest(members)) && w1 == Next(c, w, Ingest(members))
    requires Allowed(c, w1, RemoveMember(b, dek')) && w2 == Next(c, w1, RemoveMember(b, dek'))
    ensures Twice(c, l, first, w1, w2, a, dek, b, dek')
  {
    BackAgain(c, w, w1, members);
    RotatesAt(c, w1, b, dek');
  }

  lemma BothArrive(c: Setup, l: Listing, w: World, w1: World, w2: World, first: seq<Member>, second: seq<Member>,
                   a: MemberId, b: MemberId, dek: Dek, dek': Dek)
    requires IsOwner(Some(l), c.me.id) && GoodKeys(l) && Known(c, first) && Known(c, second) && dek != dek'
    requires c.me.id in Roles(first) && c.me.id in Roles(second) && a in Roles(second)
    requires a != b && a != c.me.id && b != c.me.id
    requires w.server == Some(l) && w.queue == [Remove(a, l.epoch, SealAll(Without(first, a), dek)),
                                                Remove(b, l.epoch, SealAll(Without(second, b), dek'))]
    requires Allowed(c, w, Arrive) && w1 == Next(c, w, Arrive) && Allowed(c, w1, Arrive) && w2 == Next(c, w1, Arrive)
    ensures Split(c, w2.server, l.epoch + 1, a, dek, dek')
  {
    FirstArrives(c, l, first, a, dek);
    var l1 := Rotated(c, l, first, a, l.epoch, dek).value;
    SecondArrives(c, l1, second, l.epoch, a, b, dek');
    ArriveInTurn(c, w, w1, w2, l, first, second, a, b, dek, dek');
  }

  lemma ArriveInTurn(c: Setup, w: World, w1: World, w2: World, l: Listing, first: seq<Member>, second: seq<Member>,
                     a: MemberId, b: MemberId, dek: Dek, dek': Dek)
    requires w.server == Some(l) && w.queue == [Remove(a, l.epoch, SealAll(Without(first, a), dek)),
                                                Remove(b, l.epoch, SealAll(Without(second, b), dek'))]
    requires Allowed(c, w, Arrive) && w1 == Next(c, w, Arrive) && Allowed(c, w1, Arrive) && w2 == Next(c, w1, Arrive)
    requires Rotated(c, l, first, a, l.epoch, dek).Ok?
    requires Rotated(c, Rotated(c, l, first, a, l.epoch, dek).value, second, b, l.epoch, dek').Ok?
    ensures w2.server == Some(Rotated(c, Rotated(c, l, first, a, l.epoch, dek).value, second, b, l.epoch, dek').value)
  {
    assert w1.queue == [Remove(b, l.epoch, SealAll(Without(second, b), dek'))];
  }
}
