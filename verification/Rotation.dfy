/** Whole runs of create, add, rotate and discover on one list by its owner's
    client: the owner's store (todoers-client/src/store.rs:95-137, 378-462 and
    530-569), the command queue to the sync engine, the listings the engine has
    fetched and the store not ingested yet (todoers-client/src/sync.rs:219-232),
    and the server's tables. */
module Rotation {
  import opened Helpers
  import opened Updates
  import opened Keys
  import opened ServerLists
  import opened StoreKeys
  import opened KeyRefinement

  /** The list, its owner, and the identity key of every registered user. */
  datatype Setup = Setup(list: ListId, me: Member, users: map<MemberId, Pub>)

  ghost predicate Proper(c: Setup) {
    && c.me.id in c.users && c.users[c.me.id] == c.me.identityPub
    && (forall m, n | m in c.users && n in c.users && c.users[m] == c.users[n] :: m == n)
  }

  /** A key drawn for an epoch. */
  datatype Draw = Draw(epoch: Epoch, dek: Dek)

  /** Beside the real state: the keys drawn so far, every box handed to the network
      with the epoch it was made for, and for each member removed and not added
      again how many keys had been drawn before the removal. */
  datatype World = World(
    store: Local,
    server: Option<Listing>,
    queue: seq<Request>,
    fetched: seq<Listing>,
    drawn: seq<Draw>,
    issued: set<(Epoch, Wrapped)>,
    left: map<MemberId, nat>)

  /** A failed command is logged and dropped: `Lose`. A process that ends loses what
      waits in either queue, one entry after the other. The server returns the
      members of a listing in some order. */
  datatype Event =
    | CreateList(dek: Dek)
    | AddMember(added: Member)
    | RemoveMember(removed: MemberId, dek: Dek)
    | Arrive
    | Lose
    | Discover
    | Ingest(members: seq<Member>)
    | Forget

  function Boxes(req: Request): set<(Epoch, Wrapped)> {
    match req
    case Create(wrapped) => {(1, wrapped)}
    case Add(_, _, wrapped, epoch) => {(epoch, wrapped)}
    case Remove(_, epoch, entries) => set i | 0 <= i < |entries| :: (epoch + 1, entries[i].wrapped)
  }

  ghost predicate NewDek(drawn: seq<Draw>, dek: Dek) {
    forall d | d in drawn :: d.dek != dek
  }

  /** A listing's members as the client receives them, with their identity keys. */
  ghost predicate Directory(c: Setup, l: Listing, members: seq<Member>) {
    && Roles(members) == l.members && DistinctIds(members)
    && forall m | m in members :: m.id in c.users && c.users[m.id] == m.identityPub
  }

  /** What the caller of the store keeps to: the owner neither adds nor removes
      themselves, an added member comes from the server's directory, and a drawn
      DEK was never drawn before. */
  ghost predicate Allowed(c: Setup, w: World, e: Event) {
    match e
    case CreateList(dek) => c.list !in w.store.lists && NewDek(w.drawn, dek)
    case AddMember(m) => m.id != c.me.id && m.id in c.users && c.users[m.id] == m.identityPub
    case RemoveMember(id, dek) => id != c.me.id && NewDek(w.drawn, dek)
    case Arrive => w.queue != []
    case Lose => w.queue != []
    case Discover => w.server.Some?
    case Ingest(members) => w.fetched != [] && Directory(c, w.fetched[0], members)
    case Forget => w.fetched != []
  }

  function EpochsOf(slots: map<(Epoch, MemberId), Wrapped>, id: MemberId): set<Epoch> {
    set k | k in slots && k.1 == id :: k.0
  }

  /** `fetch_my_key_slots` */
  function KeysOf(slots: map<(Epoch, MemberId), Wrapped>, id: MemberId): map<Epoch, Wrapped> {
    map e | e in EpochsOf(slots, id) :: slots[(e, id)]
  }

  function Next(c: Setup, w: World, e: Event): World
    requires Allowed(c, w, e)
  {
    match e
    case CreateList(dek) =>
      var (s, req) := Created(w.store, c.list, dek);
      w.(store := s, queue := w.queue + [req], drawn := w.drawn + [Draw(1, dek)], issued := w.issued + Boxes(req))
    case AddMember(m) => (
      match AddedLocally(w.store, c.list, m)
      case Done(s, req) =>
        w.(store := s, queue := w.queue + [req], issued := w.issued + Boxes(req), left := w.left - {m.id})
      case Failed(_) => w)
    case RemoveMember(id, dek) => (
      match RemovedLocally(w.store, c.list, id, dek)
      case Done(s, req) =>
        w.(store := s, queue := w.queue + [req], drawn := w.drawn + [Draw(s.lists[c.list].epoch, dek)],
           issued := w.issued + Boxes(req),
           left := if id in w.left then w.left else w.left[id := |w.drawn|])
      case Failed(_) => w)
    case Arrive =>
      var r := Handle(w.server, c.users.Keys, c.me.id, w.queue[0]);
      w.(server := if r.Ok? then Some(r.value) else w.server, queue := w.queue[1..])
    case Lose => w.(queue := w.queue[1..])
    case Discover => w.(fetched := w.fetched + [w.server.value])
    case Ingest(members) =>
      var l := w.fetched[0];
      w.(store := Ingested(w.store, c.list, l.epoch, members, KeysOf(l.slots, c.me.id)), fetched := w.fetched[1..])
    case Forget => w.(fetched := w.fetched[1..])
  }

  predicate Start(c: Setup, w: World) {
    && w.store.me == c.me && c.list !in w.store.lists && (forall e | e in w.store.deks :: e.0 != c.list)
    && w.server == None && w.queue == [] && w.fetched == [] && w.drawn == [] && w.issued == {} && w.left == map[]
  }

  /** The events lead from state to state. */
  ghost predicate Follows(c: Setup, ws: seq<World>, es: seq<Event>) {
    && |ws| == |es| + 1
    && forall i | 0 <= i < |es| :: Allowed(c, ws[i], es[i]) && ws[i + 1] == Next(c, ws[i], es[i])
  }

  /** A whole run. */
  ghost predicate Run(c: Setup, ws: seq<World>, es: seq<Event>) {
    Follows(c, ws, es) && Start(c, ws[0])
  }

  // ── what holds in every run ───────────────────────────────────────────────

  ghost predicate DrawnAt(drawn: seq<Draw>, e: Epoch) {
    exists d :: d in drawn && d.epoch == e
  }

  /** The epochs drawn for are 1 up to some number. */
  ghost predicate NoGap(drawn: seq<Draw>) {
    && (forall d | d in drawn :: d.epoch >= 1)
    && (forall d, e | d in drawn && 1 <= e <= d.epoch :: DrawnAt(drawn, e))
  }

  /** The list's rows at the client. */
  ghost predicate RowsSound(c: Setup, drawn: seq<Draw>, l: LocalList) {
    && DrawnAt(drawn, l.epoch)
    && c.me.(role := Owner) in l.members
    && (forall m | m in l.members :: m.id in c.users && c.users[m.id] == m.identityPub)
    && (forall e :: e in l.slots <==> DrawnAt(drawn, e))
    && (forall e | e in l.slots :: IsDraw(drawn, e, l.slots[e]) && l.slots[e].recipient == c.me.identityPub)
  }

  /** Every slot's key is in the session's map. */
  predicate CacheFull(list: ListId, l: LocalList, deks: DekMap) {
    forall e | e in l.slots :: (list, e) in deks
  }

  ghost predicate CacheSound(list: ListId, drawn: seq<Draw>, deks: DekMap) {
    forall k | k in deks && k.0 == list :: Draw(k.1, deks[k]) in drawn
  }

  ghost predicate ClientSound(c: Setup, w: World) {
    && w.store.me == c.me
    && (c.list !in w.store.lists ==>
          && w.drawn == [] && w.issued == {} && w.left == map[]
          && w.queue == [] && w.fetched == [] && w.server == None)
    && (c.list in w.store.lists ==>
          RowsSound(c, w.drawn, w.store.lists[c.list]) && CacheFull(c.list, w.store.lists[c.list], w.store.deks))
    && CacheSound(c.list, w.drawn, w.store.deks)
  }

  /** A box that holds a key drawn for its epoch. */
  predicate IsDraw(drawn: seq<Draw>, epoch: Epoch, box: Wrapped) {
    box.Sealed? && Draw(epoch, box.dek) in drawn
  }

  ghost predicate DrawsSound(drawn: seq<Draw>, issued: set<(Epoch, Wrapped)>) {
    && NoGap(drawn)
    && (forall i, j | 0 <= i < j < |drawn| :: drawn[i].dek != drawn[j].dek)
    && (forall e, box | (e, box) in issued :: IsDraw(drawn, e, box))
  }

  ghost predicate IssuedAt(issued: set<(Epoch, Wrapped)>, e: Epoch) {
    exists box :: (e, box) in issued
  }

  /** A stored or travelling box is one that was sent, for this member. */
  predicate Addressed(c: Setup, issued: set<(Epoch, Wrapped)>, m: MemberId, epoch: Epoch, box: Wrapped) {
    (epoch, box) in issued && box.Sealed? && m in c.users && box.recipient == c.users[m]
  }

  /** The boxes are addressed, and the owner neither adds nor removes themselves. */
  ghost predicate RequestSound(c: Setup, issued: set<(Epoch, Wrapped)>, req: Request) {
    match req
    case Create(wrapped) => Addressed(c, issued, c.me.id, 1, wrapped)
    case Add(id, _, wrapped, epoch) => Addressed(c, issued, id, epoch, wrapped) && id != c.me.id
    case Remove(id, epoch, entries) =>
      && id != c.me.id && IssuedAt(issued, epoch + 1)
      && forall i | 0 <= i < |entries| :: Addressed(c, issued, entries[i].member, epoch + 1, entries[i].wrapped)
  }

  ghost predicate QueueSound(c: Setup, issued: set<(Epoch, Wrapped)>, queue: seq<Request>) {
    forall i | 0 <= i < |queue| :: RequestSound(c, issued, queue[i])
  }

  ghost predicate ListingSound(c: Setup, issued: set<(Epoch, Wrapped)>, l: Listing) {
    && IsOwner(Some(l), c.me.id) && IssuedAt(issued, l.epoch)
    && forall k | k in l.slots :: Addressed(c, issued, k.1, k.0, l.slots[k])
  }

  ghost predicate TablesSound(c: Setup, issued: set<(Epoch, Wrapped)>, server: Option<Listing>, fetched: seq<Listing>) {
    && (server.Some? ==> ListingSound(c, issued, server.value))
    && forall i | 0 <= i < |fetched| :: ListingSound(c, issued, fetched[i])
  }

  ghost predicate Sound(c: Setup, w: World) {
    && ClientSound(c, w)
    && DrawsSound(w.drawn, w.issued)
    && QueueSound(c, w.issued, w.queue)
    && TablesSound(c, w.issued, w.server, w.fetched)
  }

  /** What has been sent only grows. */
  lemma WiderRequest(c: Setup, issued: set<(Epoch, Wrapped)>, more: set<(Epoch, Wrapped)>, req: Request)
    requires RequestSound(c, issued, req) && issued <= more
    ensures RequestSound(c, more, req)
  {
    if req.Remove? {
      var box :| (req.epoch + 1, box) in issued;
      assert (req.epoch + 1, box) in more;
    }
  }

  lemma WiderListing(c: Setup, issued: set<(Epoch, Wrapped)>, more: set<(Epoch, Wrapped)>, l: Listing)
    requires ListingSound(c, issued, l) && issued <= more
    ensures ListingSound(c, more, l)
  {
    var box :| (l.epoch, box) in issued;
    assert (l.epoch, box) in more;
  }

  /** Sending one more request leaves what was already sound so. */
  lemma Sent(c: Setup, w: World, req: Request)
    requires QueueSound(c, w.issued, w.queue) && TablesSound(c, w.issued, w.server, w.fetched)
    requires RequestSound(c, w.issued + Boxes(req), req)
    ensures QueueSound(c, w.issued + Boxes(req), w.queue + [req])
    ensures TablesSound(c, w.issued + Boxes(req), w.server, w.fetched)
  {
    var more := w.issued + Boxes(req);
    forall i | 0 <= i < |w.queue|
      ensures RequestSound(c, more, w.queue[i])
    {
      WiderRequest(c, w.issued, more, w.queue[i]);
    }
    if w.server.Some? {
      WiderListing(c, w.issued, more, w.server.value);
    }
    forall i | 0 <= i < |w.fetched|
      ensures ListingSound(c, more, w.fetched[i])
    {
      WiderListing(c, w.issued, more, w.fetched[i]);
    }
  }

  /** One more draw, for the epoch after one drawn for already or for epoch 1. */
  lemma DrawMore(drawn: seq<Draw>, issued: set<(Epoch, Wrapped)>, d: Draw, boxes: set<(Epoch, Wrapped)>)
    requires DrawsSound(drawn, issued) && NewDek(drawn, d.dek)
    requires d.epoch == 1 || DrawnAt(drawn, d.epoch - 1)
    requires forall e, box | (e, box) in boxes :: e == d.epoch && box.Sealed? && box.dek == d.dek
    ensures DrawsSound(drawn + [d], issued + boxes)
  {
    var more := drawn + [d];
    assert d in more && forall x | x in drawn :: x in more;
    forall x, e | x in more && 1 <= e <= x.epoch
      ensures DrawnAt(more, e)
    {
      if x in drawn {
        assert DrawnAt(drawn, e);
      } else if e < d.epoch {
        var y :| y in drawn && y.epoch == d.epoch - 1;
        assert DrawnAt(drawn, e);
      }
    }
    forall i, j | 0 <= i < j < |more|
      ensures more[i].dek != more[j].dek
    {
      assert more[i] in drawn;
    }
    forall e, box | (e, box) in issued + boxes
      ensures IsDraw(more, e, box)
    {
      if (e, box) in issued {
        assert IsDraw(drawn, e, box);
      }
    }
  }

  lemma OneDrawMore(drawn: seq<Draw>, d: Draw, e: Epoch)
    ensures DrawnAt(drawn + [d], e) <==> DrawnAt(drawn, e) || e == d.epoch
  {
    assert d in drawn + [d];
  }

  lemma CreateKeepsSound(c: Setup, w: World, dek: Dek)
    requires Proper(c) && Sound(c, w) && Allowed(c, w, CreateList(dek))
    ensures Sound(c, Next(c, w, CreateList(dek)))
  {
    Sent(c, w, Created(w.store, c.list, dek).1);
    DrawMore([], {}, Draw(1, dek), Boxes(Created(w.store, c.list, dek).1));
    assert w.drawn + [Draw(1, dek)] == [Draw(1, dek)] && Draw(1, dek) in [Draw(1, dek)];
  }

  lemma {:induction false} UpsertHas(members: seq<Member>, m: Member)
    ensures forall x | x in Upsert(members, m) :: x == m || x in members
    ensures forall x | x in members && x.id != m.id :: x in Upsert(members, m)
    ensures m in Upsert(members, m)
  {
    if members != [] {
      assert members == [members[0]] + members[1..];
      UpsertHas(members[1..], m);
    }
  }

  lemma AddKeepsSound(c: Setup, w: World, m: Member)
    requires Proper(c) && Sound(c, w) && Allowed(c, w, AddMember(m))
    ensures Sound(c, Next(c, w, AddMember(m)))
  {
    var done := AddedLocally(w.store, c.list, m);
    if done.Done? {
      UpsertHas(w.store.lists[c.list].members, m);
      Sent(c, w, done.out);
      var l := w.store.lists[c.list];
      assert IsDraw(w.drawn, l.epoch, done.out.wrapped);
    }
  }

  /** The boxes of one rotation. */
  lemma RotationBoxes(c: Setup, members: seq<Member>, removed: MemberId, epoch: Epoch, dek: Dek)
    requires Proper(c) && c.me.(role := Owner) in members && removed != c.me.id
    requires forall m | m in members :: m.id in c.users && c.users[m.id] == m.identityPub
    ensures var req := Remove(removed, epoch, SealAll(Without(members, removed), dek));
            && RequestSound(c, Boxes(req), req)
            && (epoch + 1, SealTo(dek, c.me.identityPub)) in Boxes(req)
            && forall e, box | (e, box) in Boxes(req) ::
                 && e == epoch + 1 && box.Sealed? && box.dek == dek
                 && exists m :: m in members && m.id != removed && m.identityPub == box.recipient
  {
    var rest := Without(members, removed);
    var req := Remove(removed, epoch, SealAll(rest, dek));
    WithoutFacts(members, removed);
    forall e, box | (e, box) in Boxes(req)
      ensures e == epoch + 1 && box.Sealed? && box.dek == dek
      ensures exists m :: m in members && m.id != removed && m.identityPub == box.recipient
    {
      var i :| 0 <= i < |rest| && (e, box) == (epoch + 1, req.entries[i].wrapped);
      assert rest[i] in rest;
    }
    forall i | 0 <= i < |rest|
      ensures Addressed(c, Boxes(req), req.entries[i].member, epoch + 1, req.entries[i].wrapped)
    {
      assert rest[i] in rest;
    }
    RotationBox(members, removed, epoch, dek, c.me.(role := Owner));
  }

  lemma RotationBox(members: seq<Member>, removed: MemberId, epoch: Epoch, dek: Dek, m: Member)
    requires m in members && m.id != removed
    ensures (epoch + 1, SealTo(dek, m.identityPub))
         in Boxes(Remove(removed, epoch, SealAll(Without(members, removed), dek)))
  {
    var rest := Without(members, removed);
    WithoutFacts(members, removed);
    var i :| 0 <= i < |rest| && rest[i] == m;
    assert (epoch + 1, SealAll(rest, dek)[i].wrapped) in Boxes(Remove(removed, epoch, SealAll(rest, dek)));
  }

  lemma RowsRemoved(c: Setup, drawn: seq<Draw>, l: LocalList, id: MemberId, dek: Dek)
    requires RowsSound(c, drawn, l) && id != c.me.id
    ensures RowsSound(c, drawn + [Draw(l.epoch + 1, dek)],
                      LocalList(l.epoch + 1, Without(l.members, id),
                                l.slots[l.epoch + 1 := SealTo(dek, c.me.identityPub)]))
  {
    WithoutFacts(l.members, id);
    var d := Draw(l.epoch + 1, dek);
    var more := drawn + [d];
    assert d in more && forall x | x in drawn :: x in more;
    forall e
      ensures DrawnAt(more, e) <==> DrawnAt(drawn, e) || e == l.epoch + 1
    {
      OneDrawMore(drawn, d, e);
    }
  }

  lemma CacheMore(list: ListId, drawn: seq<Draw>, deks: DekMap, d: Draw)
    requires CacheSound(list, drawn, deks)
    ensures CacheSound(list, drawn + [d], deks[(list, d.epoch) := d.dek])
  {
    assert d in drawn + [d] && forall x | x in drawn :: x in drawn + [d];
  }

  lemma RemoveKeepsClient(c: Setup, w: World, id: MemberId, dek: Dek)
    requires ClientSound(c, w) && Allowed(c, w, RemoveMember(id, dek)) && c.list in w.store.lists
    ensures ClientSound(c, Next(c, w, RemoveMember(id, dek)))
  {
    var l := w.store.lists[c.list];
    RowsRemoved(c, w.drawn, l, id, dek);
    CacheMore(c.list, w.drawn, w.store.deks, Draw(l.epoch + 1, dek));
  }

  /** `w'` is `w` after the removal, its client rows aside. */
  ghost predicate Removal(c: Setup, w: World, w': World, id: MemberId, dek: Dek)
    requires c.list in w.store.lists
  {
    var l := w.store.lists[c.list];
    var req := Remove(id, l.epoch, SealAll(Without(l.members, id), dek));
    && w'.server == w.server && w'.fetched == w.fetched && w'.queue == w.queue + [req]
    && w'.drawn == w.drawn + [Draw(l.epoch + 1, dek)] && w'.issued == w.issued + Boxes(req)
    && w'.left == if id in w.left then w.left else w.left[id := |w.drawn|]
  }

  lemma RemovalParts(c: Setup, w: World, id: MemberId, dek: Dek)
    requires Allowed(c, w, RemoveMember(id, dek)) && c.list in w.store.lists
    ensures Removal(c, w, Next(c, w, RemoveMember(id, dek)), id, dek)
  {
  }

  lemma RemovalIsQueued(c: Setup, w: World, w': World, id: MemberId, dek: Dek)
    requires Proper(c) && Sound(c, w) && c.list in w.store.lists && id != c.me.id && Removal(c, w, w', id, dek)
    ensures QueueSound(c, w'.issued, w'.queue) && TablesSound(c, w'.issued, w'.server, w'.fetched)
  {
    var l := w.store.lists[c.list];
    var req := Remove(id, l.epoch, SealAll(Without(l.members, id), dek));
    RotationBoxes(c, l.members, id, l.epoch, dek);
    WiderRequest(c, Boxes(req), w.issued + Boxes(req), req);
    Sent(c, w, req);
  }

  lemma RemovalIsDrawn(c: Setup, drawn: seq<Draw>, issued: set<(Epoch, Wrapped)>, l: LocalList, id: MemberId, dek: Dek)
    requires Proper(c) && RowsSound(c, drawn, l) && DrawsSound(drawn, issued) && NewDek(drawn, dek) && id != c.me.id
    ensures DrawsSound(drawn + [Draw(l.epoch + 1, dek)],
                       issued + Boxes(Remove(id, l.epoch, SealAll(Without(l.members, id), dek))))
  {
    RotationBoxes(c, l.members, id, l.epoch, dek);
    DrawMore(drawn, issued, Draw(l.epoch + 1, dek), Boxes(Remove(id, l.epoch, SealAll(Without(l.members, id), dek))));
  }

  lemma RemovalIsSound(c: Setup, w: World, w': World, id: MemberId, dek: Dek)
    requires Proper(c) && Sound(c, w) && c.list in w.store.lists && NewDek(w.drawn, dek) && id != c.me.id
    requires Removal(c, w, w', id, dek) && ClientSound(c, w')
    ensures Sound(c, w')
  {
    RemovalIsQueued(c, w, w', id, dek);
    RemovalDraws(c, w, w', id, dek);
  }

  lemma RemovalDraws(c: Setup, w: World, w': World, id: MemberId, dek: Dek)
    requires Proper(c) && Sound(c, w) && c.list in w.store.lists && NewDek(w.drawn, dek) && id != c.me.id
    requires Removal(c, w, w', id, dek)
    ensures DrawsSound(w'.drawn, w'.issued)
  {
    RemovalIsDrawn(c, w.drawn, w.issued, w.store.lists[c.list], id, dek);
  }

  lemma RemoveKeepsSound(c: Setup, w: World, id: MemberId, dek: Dek)
    requires Proper(c) && Sound(c, w) && Allowed(c, w, RemoveMember(id, dek))
    ensures Sound(c, Next(c, w, RemoveMember(id, dek)))
  {
    if c.list in w.store.lists {
      RemovalParts(c, w, id, dek);
      RemoveKeepsClient(c, w, id, dek);
      RemovalIsSound(c, w, Next(c, w, RemoveMember(id, dek)), id, dek);
    }
  }

  lemma TakeKeepsSound(c: Setup, w: World, e: Event)
    requires Proper(c) && Sound(c, w) && Allowed(c, w, e) && (e == Arrive || e == Lose)
    ensures Sound(c, Next(c, w, e))
  {
    assert RequestSound(c, w.issued, w.queue[0]);
    HandledListing(c, w.issued, w.server, w.queue[0]);
  }

  lemma HandledListing(c: Setup, issued: set<(Epoch, Wrapped)>, server: Option<Listing>, req: Request)
    requires Proper(c) && RequestSound(c, issued, req) && (server.Some? ==> ListingSound(c, issued, server.value))
    ensures var r := Handle(server, c.users.Keys, c.me.id, req);
            r.Ok? ==> ListingSound(c, issued, r.value)
  {
    var r := Handle(server, c.users.Keys, c.me.id, req);
    if r.Ok? {
      forall k | k in r.value.slots
        ensures Addressed(c, issued, k.1, k.0, r.value.slots[k])
      {
        match req
        case Create(_) =>
        case Add(id, _, wrapped, epoch) =>
          InsertOne(server.value.slots, epoch, id, wrapped);
        case Remove(_, epoch, entries) =>
          InsertedSlots(server.value.slots, epoch + 1, entries, k);
      }
    }
  }

  // ── discovery ─────────────────────────────────────────────────────────────

  /** The order in which a directory comes in does not matter: everyone in it is
      listed afterwards, as it says, beside those it does not name. */
  lemma {:induction false} UpsertAllHas(members: seq<Member>, more: seq<Member>, x: Member)
    requires DistinctIds(more)
    ensures x in UpsertAll(members, more) ==> x in members || x in more
    ensures x in more ==> x in UpsertAll(members, more)
    ensures x in members && (forall m | m in more :: m.id != x.id) ==> x in UpsertAll(members, more)
    decreases |more|
  {
    if more != [] {
      assert more == [more[0]] + more[1..];
      UpsertHas(members, more[0]);
      UpsertAllHas(Upsert(members, more[0]), more[1..], x);
      assert forall m | m in more[1..] :: m.id != more[0].id;
    }
  }

  lemma DiscoverKeepsSound(c: Setup, w: World, e: Event)
    requires Sound(c, w) && Allowed(c, w, e) && (e == Discover || e == Forget)
    ensures Sound(c, Next(c, w, e))
  {
  }

  /** The owner's row in a listing is the row the store has. */
  lemma OwnerListed(c: Setup, l: Listing, members: seq<Member>)
    requires Proper(c) && Directory(c, l, members) && IsOwner(Some(l), c.me.id)
    ensures c.me.(role := Owner) in members
  {
    RolesHas(members, c.me.id);
    var m :| m in members && m.id == c.me.id;
    RoleOf(members, m);
  }

  lemma {:induction false} RoleOf(members: seq<Member>, m: Member)
    requires DistinctIds(members) && m in members
    ensures m.id in Roles(members) && Roles(members)[m.id] == m.role
  {
    if m != members[0] {
      assert m in members[1..];
      RoleOf(members[1..], m);
    }
  }

  /** The keys a listing brings are draws for their epochs. */
  lemma KeysAreDraws(c: Setup, drawn: seq<Draw>, issued: set<(Epoch, Wrapped)>, f: Listing, e: Epoch)
    requires DrawsSound(drawn, issued) && ListingSound(c, issued, f) && e in KeysOf(f.slots, c.me.id)
    ensures IsDraw(drawn, e, KeysOf(f.slots, c.me.id)[e]) && DrawnAt(drawn, e)
    ensures Proper(c) ==> KeysOf(f.slots, c.me.id)[e].recipient == c.me.identityPub
  {
    assert (e, c.me.id) in f.slots;
    assert Addressed(c, issued, c.me.id, e, f.slots[(e, c.me.id)]);
    assert IsDraw(drawn, e, f.slots[(e, c.me.id)]);
  }

  lemma EpochIsDrawn(c: Setup, drawn: seq<Draw>, issued: set<(Epoch, Wrapped)>, f: Listing)
    requires DrawsSound(drawn, issued) && ListingSound(c, issued, f)
    ensures DrawnAt(drawn, f.epoch)
  {
    var box :| (f.epoch, box) in issued;
    assert IsDraw(drawn, f.epoch, box);
  }

  /** The list's rows after a listing is merged into them. */
  function Merged(c: Setup, l: LocalList, f: Listing, members: seq<Member>): LocalList {
    LocalList(f.epoch, UpsertAll(l.members, members), l.slots + KeysOf(f.slots, c.me.id))
  }

  lemma RowsIngested(c: Setup, drawn: seq<Draw>, issued: set<(Epoch, Wrapped)>, l: LocalList, f: Listing,
                     members: seq<Member>)
    requires Proper(c) && RowsSound(c, drawn, l) && DrawsSound(drawn, issued) && ListingSound(c, issued, f)
    requires Directory(c, f, members)
    ensures RowsSound(c, drawn, Merged(c, l, f, members))
  {
    EpochIsDrawn(c, drawn, issued, f);
    OwnerListed(c, f, members);
    UpsertAllHas(l.members, members, c.me.(role := Owner));
    forall m | m in UpsertAll(l.members, members)
      ensures m.id in c.users && c.users[m.id] == m.identityPub
    {
      UpsertAllHas(l.members, members, m);
    }
    forall e | e in KeysOf(f.slots, c.me.id)
      ensures IsDraw(drawn, e, KeysOf(f.slots, c.me.id)[e]) && DrawnAt(drawn, e)
      ensures KeysOf(f.slots, c.me.id)[e].recipient == c.me.identityPub
    {
      KeysAreDraws(c, drawn, issued, f, e);
    }
  }

  lemma CacheRehydrated(list: ListId, drawn: seq<Draw>, deks: DekMap, lists: map<ListId, LocalList>, mine: Pub)
    requires CacheSound(list, drawn, deks) && list in lists
    requires forall e | e in lists[list].slots ::
               IsDraw(drawn, e, lists[list].slots[e]) && lists[list].slots[e].recipient == mine
    ensures CacheSound(list, drawn, deks + Opened(lists, mine))
    ensures CacheFull(list, lists[list], deks + Opened(lists, mine))
  {
    forall e | e in lists[list].slots
      ensures (list, e) in Opened(lists, mine)
    {
      assert Opens(lists, mine, list, e);
    }
  }

  lemma IngestMerges(c: Setup, w: World, members: seq<Member>)
    requires Allowed(c, w, Ingest(members)) && c.list in w.store.lists
    ensures var w' := Next(c, w, Ingest(members));
            && w'.left == w.left && w'.server == w.server && w'.queue == w.queue && w'.fetched == w.fetched[1..]
            && c.list in w'.store.lists
            && w'.store.lists[c.list] == Merged(c, w.store.lists[c.list], w.fetched[0], members)
  {
  }

  lemma IngestKeepsClient(c: Setup, w: World, members: seq<Member>)
    requires Proper(c) && Sound(c, w) && Allowed(c, w, Ingest(members)) && c.list in w.store.lists
    ensures ClientSound(c, Next(c, w, Ingest(members)))
  {
    RowsIngested(c, w.drawn, w.issued, w.store.lists[c.list], w.fetched[0], members);
    CacheRehydrated(c.list, w.drawn, w.store.deks, Next(c, w, Ingest(members)).store.lists, c.me.identityPub);
  }

  /** Only the client's rows and the fetched listings change. */
  lemma TablesStaySound(c: Setup, w: World, w': World)
    requires Sound(c, w) && w.fetched != [] && w' == w.(store := w'.store, fetched := w.fetched[1..])
    ensures TablesSound(c, w'.issued, w'.server, w'.fetched)
  {
  }

  lemma IngestKeepsSound(c: Setup, w: World, members: seq<Member>)
    requires Proper(c) && Sound(c, w) && Allowed(c, w, Ingest(members))
    ensures Sound(c, Next(c, w, Ingest(members)))
  {
    assert c.list in w.store.lists;
    IngestKeepsClient(c, w, members);
    TablesStaySound(c, w, Next(c, w, Ingest(members)));
  }

  lemma StepKeepsSound(c: Setup, w: World, e: Event)
    requires Proper(c) && Sound(c, w) && Allowed(c, w, e)
    ensures Sound(c, Next(c, w, e))
  {
    match e
    case CreateList(dek) => CreateKeepsSound(c, w, dek);
    case AddMember(m) => AddKeepsSound(c, w, m);
    case RemoveMember(id, dek) => RemoveKeepsSound(c, w, id, dek);
    case Arrive => TakeKeepsSound(c, w, e);
    case Lose => TakeKeepsSound(c, w, e);
    case Discover => DiscoverKeepsSound(c, w, e);
    case Ingest(members) => IngestKeepsSound(c, w, members);
    case Forget => DiscoverKeepsSound(c, w, e);
  }

  lemma {:induction false} RunKeepsSound(c: Setup, ws: seq<World>, es: seq<Event>, n: nat)
    requires Proper(c) && Run(c, ws, es) && n <= |es|
    ensures Sound(c, ws[n])
    decreases n
  {
    if n > 0 {
      RunKeepsSound(c, ws, es, n - 1);
      StepKeepsSound(c, ws[n - 1], es[n - 1]);
    }
  }

  /** In every run, whatever is lost or ingested, each stored slot holds a key drawn
      for its epoch, sealed to the member whose slot it is. */
  lemma SlotsHoldDraws(c: Setup, ws: seq<World>, es: seq<Event>, k: (Epoch, MemberId))
    requires Proper(c) && Run(c, ws, es)
    requires var w := ws[|es|]; w.server.Some? && k in w.server.value.slots
    ensures var w := ws[|es|];
            var box := w.server.value.slots[k];
            && k.1 in c.users && box.Sealed? && box == SealTo(box.dek, c.users[k.1])
            && Draw(k.0, box.dek) in w.drawn
  {
    RunKeepsSound(c, ws, es, |es|);
    var w := ws[|es|];
    assert Addressed(c, w.issued, k.1, k.0, w.server.value.slots[k]);
    assert IsDraw(w.drawn, k.0, w.server.value.slots[k]);
  }

  // ── one key per epoch ─────────────────────────────────────────────────────

  /** All boxes ever sent for one epoch hold one key. */
  ghost predicate OneKeyEach(issued: set<(Epoch, Wrapped)>) {
    forall e, a, b | (e, a) in issued && (e, b) in issued && a.Sealed? && b.Sealed? :: a.dek == b.dek
  }

  /** What a client can check before it rotates: it has no slot for the next epoch. */
  predicate FreshEpoch(c: Setup, w: World) {
    c.list in w.store.lists ==> w.store.lists[c.list].epoch + 1 !in w.store.lists[c.list].slots
  }

  /** Every key drawn was sealed to the owner. */
  ghost predicate OwnerGets(c: Setup, drawn: seq<Draw>, issued: set<(Epoch, Wrapped)>) {
    forall i | 0 <= i < |drawn| :: (drawn[i].epoch, SealTo(drawn[i].dek, c.me.identityPub)) in issued
  }

  lemma StepKeepsOwnerGets(c: Setup, w: World, e: Event)
    requires Proper(c) && Sound(c, w) && Allowed(c, w, e) && OwnerGets(c, w.drawn, w.issued)
    ensures OwnerGets(c, Next(c, w, e).drawn, Next(c, w, e).issued)
  {
    if e.RemoveMember? && c.list in w.store.lists {
      var l := w.store.lists[c.list];
      RotationBox(l.members, e.removed, l.epoch, e.dek, c.me.(role := Owner));
    }
  }

  lemma {:induction false} RunKeepsOwnerGets(c: Setup, ws: seq<World>, es: seq<Event>, n: nat)
    requires Proper(c) && Run(c, ws, es) && n <= |es|
    ensures OwnerGets(c, ws[n].drawn, ws[n].issued)
    decreases n
  {
    if n > 0 {
      RunKeepsOwnerGets(c, ws, es, n - 1);
      RunKeepsSound(c, ws, es, n - 1);
      StepKeepsOwnerGets(c, ws[n - 1], es[n - 1]);
    }
  }

  /** One more box under an epoch fits if and only if it holds that epoch's key. */
  lemma OneBoxMore(c: Setup, drawn: seq<Draw>, issued: set<(Epoch, Wrapped)>, epoch: Epoch, box: Wrapped)
    requires OwnerGets(c, drawn, issued) && OneKeyEach(issued) && IsDraw(drawn, epoch, box) && DrawsSound(drawn, issued)
    ensures OneKeyEach(issued + {(epoch, box)})
  {
    var i :| 0 <= i < |drawn| && drawn[i] == Draw(epoch, box.dek);
    assert (epoch, SealTo(box.dek, c.me.identityPub)) in issued;
  }

  lemma IssuedIsDrawn(drawn: seq<Draw>, issued: set<(Epoch, Wrapped)>, e: Epoch)
    requires DrawsSound(drawn, issued) && IssuedAt(issued, e)
    ensures DrawnAt(drawn, e)
  {
    var box :| (e, box) in issued;
    assert IsDraw(drawn, e, box);
  }

  lemma FreshRotation(drawn: seq<Draw>, issued: set<(Epoch, Wrapped)>, boxes: set<(Epoch, Wrapped)>, epoch: Epoch,
                      dek: Dek)
    requires DrawsSound(drawn, issued) && OneKeyEach(issued) && !DrawnAt(drawn, epoch)
    requires forall e, box | (e, box) in boxes :: e == epoch && box.Sealed? && box.dek == dek
    ensures OneKeyEach(issued + boxes)
  {
    if IssuedAt(issued, epoch) {
      IssuedIsDrawn(drawn, issued, epoch);
    }
  }

  lemma StaleRotation(c: Setup, drawn: seq<Draw>, issued: set<(Epoch, Wrapped)>, boxes: set<(Epoch, Wrapped)>,
                      epoch: Epoch, dek: Dek)
    requires OwnerGets(c, drawn, issued) && DrawnAt(drawn, epoch) && NewDek(drawn, dek)
    requires (epoch, SealTo(dek, c.me.identityPub)) in boxes
    ensures !OneKeyEach(issued + boxes)
  {
    var d :| d in drawn && d.epoch == epoch;
    var i :| 0 <= i < |drawn| && drawn[i] == d;
    assert (epoch, SealTo(d.dek, c.me.identityPub)) in issued + boxes;
    assert (epoch, SealTo(dek, c.me.identityPub)) in issued + boxes;
  }

  lemma RotationIsFreshIff(c: Setup, drawn: seq<Draw>, issued: set<(Epoch, Wrapped)>, l: LocalList, id: MemberId,
                           dek: Dek)
    requires Proper(c) && RowsSound(c, drawn, l) && DrawsSound(drawn, issued) && NewDek(drawn, dek) && id != c.me.id
    requires OwnerGets(c, drawn, issued) && OneKeyEach(issued)
    ensures OneKeyEach(issued + Boxes(Remove(id, l.epoch, SealAll(Without(l.members, id), dek))))
       <==> l.epoch + 1 !in l.slots
  {
    var boxes := Boxes(Remove(id, l.epoch, SealAll(Without(l.members, id), dek)));
    RotationBoxes(c, l.members, id, l.epoch, dek);
    if DrawnAt(drawn, l.epoch + 1) {
      StaleRotation(c, drawn, issued, boxes, l.epoch + 1, dek);
    } else {
      FreshRotation(drawn, issued, boxes, l.epoch + 1, dek);
    }
  }

  lemma StepOneKeyIff(c: Setup, w: World, e: Event)
    requires Proper(c) && Sound(c, w) && Allowed(c, w, e) && OwnerGets(c, w.drawn, w.issued) && OneKeyEach(w.issued)
    ensures OneKeyEach(Next(c, w, e).issued) <==> (e.RemoveMember? ==> FreshEpoch(c, w))
  {
    if c.list in w.store.lists {
      var l := w.store.lists[c.list];
      if e.RemoveMember? {
        RotationIsFreshIff(c, w.drawn, w.issued, l, e.removed, e.dek);
      } else if e.AddMember? && AddedLocally(w.store, c.list, e.added).Done? {
        OneBoxMore(c, w.drawn, w.issued, l.epoch, AddedLocally(w.store, c.list, e.added).out.wrapped);
      }
    }
  }

  lemma {:induction false} OneKeyUpTo(c: Setup, ws: seq<World>, es: seq<Event>, n: nat)
    requires Proper(c) && Run(c, ws, es) && n <= |es|
    requires forall i | 0 <= i < n && es[i].RemoveMember? :: FreshEpoch(c, ws[i])
    ensures OneKeyEach(ws[n].issued)
    decreases n
  {
    if n > 0 {
      OneKeyUpTo(c, ws, es, n - 1);
      RunKeepsSound(c, ws, es, n - 1);
      RunKeepsOwnerGets(c, ws, es, n - 1);
      StepOneKeyIff(c, ws[n - 1], es[n - 1]);
    }
  }

  /** Over whole runs: the boxes of one epoch hold one key at all times if and only
      if every rotation was made without a slot for the next epoch. */
  lemma OneKeyEachIff(c: Setup, ws: seq<World>, es: seq<Event>)
    requires Proper(c) && Run(c, ws, es)
    ensures (forall i | 0 <= i <= |es| :: OneKeyEach(ws[i].issued))
       <==> (forall i | 0 <= i < |es| && es[i].RemoveMember? :: FreshEpoch(c, ws[i]))
  {
    if forall i | 0 <= i <= |es| :: OneKeyEach(ws[i].issued) {
      forall i | 0 <= i < |es| && es[i].RemoveMember?
        ensures FreshEpoch(c, ws[i])
      {
        RunKeepsSound(c, ws, es, i);
        RunKeepsOwnerGets(c, ws, es, i);
        assert OneKeyEach(ws[i].issued) && OneKeyEach(ws[i + 1].issued);
        StepOneKeyIff(c, ws[i], es[i]);
      }
    }
    if forall i | 0 <= i < |es| && es[i].RemoveMember? :: FreshEpoch(c, ws[i]) {
      forall i | 0 <= i <= |es|
        ensures OneKeyEach(ws[i].issued)
      {
        OneKeyUpTo(c, ws, es, i);
      }
    }
  }

  /** With such rotations all stored slots of one epoch hold one key, each sealed to
      the member whose slot it is. */
  lemma OneDekPerEpoch(c: Setup, ws: seq<World>, es: seq<Event>, j: (Epoch, MemberId), k: (Epoch, MemberId))
    requires Proper(c) && Run(c, ws, es)
    requires forall i | 0 <= i < |es| && es[i].RemoveMember? :: FreshEpoch(c, ws[i])
    requires var w := ws[|es|]; w.server.Some? && j in w.server.value.slots && k in w.server.value.slots && j.0 == k.0
    ensures var slots := ws[|es|].server.value.slots;
            && slots[j].Sealed? && j.1 in c.users && k.1 in c.users
            && slots[j] == SealTo(slots[j].dek, c.users[j.1]) && slots[k] == SealTo(slots[j].dek, c.users[k.1])
  {
    OneKeyUpTo(c, ws, es, |es|);
    RunKeepsSound(c, ws, es, |es|);
    var w := ws[|es|];
    assert Addressed(c, w.issued, j.1, j.0, w.server.value.slots[j]);
    assert Addressed(c, w.issued, k.1, k.0, w.server.value.slots[k]);
  }

  // ── removed members ───────────────────────────────────────────────────────

  /** No box ever sent gives a removed member a key drawn since the removal. */
  ghost predicate RemovedOut(c: Setup, w: World) {
    forall e, box, m, i | (e, box) in w.issued && box.Sealed? && m in w.left && m in c.users
        && c.users[m] == box.recipient && w.left[m] <= i < |w.drawn| :: box.dek != w.drawn[i].dek
  }

  /** A rotation that removes `id` seals to nobody removed before and not added again. */
  predicate SealsToPresent(c: Setup, w: World, id: MemberId) {
    c.list in w.store.lists ==> forall m | m in w.store.lists[c.list].members && m.id != id :: m.id !in w.left
  }

  ghost predicate LeftBefore(w: World) {
    forall m | m in w.left :: w.left[m] <= |w.drawn|
  }

  lemma {:induction false} RunKeepsLeft(c: Setup, ws: seq<World>, es: seq<Event>, n: nat)
    requires Run(c, ws, es) && n <= |es|
    ensures LeftBefore(ws[n])
    decreases n
  {
    if n > 0 {
      RunKeepsLeft(c, ws, es, n - 1);
    }
  }

  lemma AddKeepsOut(c: Setup, w: World, m: Member)
    requires Proper(c) && Sound(c, w) && Allowed(c, w, AddMember(m)) && RemovedOut(c, w)
    ensures RemovedOut(c, Next(c, w, AddMember(m)))
  {
  }

  lemma RotationKeepsOut(c: Setup, w: World, w': World, id: MemberId, dek: Dek)
    requires Proper(c) && Sound(c, w) && c.list in w.store.lists && NewDek(w.drawn, dek) && id != c.me.id
    requires RemovedOut(c, w) && LeftBefore(w) && Removal(c, w, w', id, dek) && SealsToPresent(c, w, id)
    ensures RemovedOut(c, w')
  {
    var l := w.store.lists[c.list];
    RotationBoxes(c, l.members, id, l.epoch, dek);
    forall e, box, m, i | (e, box) in w'.issued && box.Sealed? && m in w'.left && m in c.users
        && c.users[m] == box.recipient && w'.left[m] <= i < |w'.drawn|
      ensures box.dek != w'.drawn[i].dek
    {
      if (e, box) in w.issued {
        assert IsDraw(w.drawn, e, box);
        if i < |w.drawn| {
          assert w'.drawn[i] == w.drawn[i];
        }
      }
    }
  }

  lemma RotationLetsIn(c: Setup, w: World, w': World, id: MemberId, dek: Dek)
    requires Proper(c) && Sound(c, w) && c.list in w.store.lists && NewDek(w.drawn, dek) && id != c.me.id
    requires LeftBefore(w) && Removal(c, w, w', id, dek) && !SealsToPresent(c, w, id)
    ensures !RemovedOut(c, w')
  {
    var l := w.store.lists[c.list];
    var m :| m in l.members && m.id != id && m.id in w.left;
    RotationBox(l.members, id, l.epoch, dek, m);
    assert (l.epoch + 1, SealTo(dek, m.identityPub)) in w'.issued && w'.drawn[|w.drawn|].dek == dek;
  }

  lemma StepOutIff(c: Setup, w: World, e: Event)
    requires Proper(c) && Sound(c, w) && Allowed(c, w, e) && RemovedOut(c, w) && LeftBefore(w)
    ensures RemovedOut(c, Next(c, w, e)) <==> (e.RemoveMember? ==> SealsToPresent(c, w, e.removed))
  {
    match e
    case AddMember(m) => AddKeepsOut(c, w, m);
    case RemoveMember(id, dek) =>
      if c.list in w.store.lists {
        RemovalParts(c, w, id, dek);
        if SealsToPresent(c, w, id) {
          RotationKeepsOut(c, w, Next(c, w, e), id, dek);
        } else {
          RotationLetsIn(c, w, Next(c, w, e), id, dek);
        }
      }
    case _ =>
  }

  lemma {:induction false} OutUpTo(c: Setup, ws: seq<World>, es: seq<Event>, n: nat)
    requires Proper(c) && Run(c, ws, es) && n <= |es|
    requires forall i | 0 <= i < n && es[i].RemoveMember? :: SealsToPresent(c, ws[i], es[i].removed)
    ensures RemovedOut(c, ws[n])
    decreases n
  {
    if n > 0 {
      OutUpTo(c, ws, es, n - 1);
      RunKeepsSound(c, ws, es, n - 1);
      RunKeepsLeft(c, ws, es, n - 1);
      StepOutIff(c, ws[n - 1], es[n - 1]);
    }
  }

  /** Over whole runs: no box gives a removed member a key drawn since, at any time,
      if and only if no rotation sealed to somebody removed and not added again. */
  lemma RemovedOutIff(c: Setup, ws: seq<World>, es: seq<Event>)
    requires Proper(c) && Run(c, ws, es)
    ensures (forall i | 0 <= i <= |es| :: RemovedOut(c, ws[i]))
       <==> (forall i | 0 <= i < |es| && es[i].RemoveMember? :: SealsToPresent(c, ws[i], es[i].removed))
  {
    if forall i | 0 <= i <= |es| :: RemovedOut(c, ws[i]) {
      forall i | 0 <= i < |es| && es[i].RemoveMember?
        ensures SealsToPresent(c, ws[i], es[i].removed)
      {
        RunKeepsSound(c, ws, es, i);
        RunKeepsLeft(c, ws, es, i);
        assert RemovedOut(c, ws[i]) && RemovedOut(c, ws[i + 1]);
        StepOutIff(c, ws[i], es[i]);
      }
    }
    if forall i | 0 <= i < |es| && es[i].RemoveMember? :: SealsToPresent(c, ws[i], es[i].removed) {
      forall i | 0 <= i <= |es|
        ensures RemovedOut(c, ws[i])
      {
        OutUpTo(c, ws, es, i);
      }
    }
  }

  /** With fresh rotations the keys are drawn for the epochs in turn. */
  lemma {:induction false} DrawnInTurn(c: Setup, ws: seq<World>, es: seq<Event>, n: nat)
    requires Proper(c) && Run(c, ws, es) && n <= |es|
    requires forall i | 0 <= i < n && es[i].RemoveMember? :: FreshEpoch(c, ws[i])
    ensures forall i | 0 <= i < |ws[n].drawn| :: ws[n].drawn[i].epoch == i + 1
    decreases n
  {
    if n > 0 {
      DrawnInTurn(c, ws, es, n - 1);
      RunKeepsSound(c, ws, es, n - 1);
      StepInTurn(c, ws[n - 1], es[n - 1]);
    }
  }

  lemma StepInTurn(c: Setup, w: World, e: Event)
    requires Sound(c, w) && Allowed(c, w, e) && (e.RemoveMember? ==> FreshEpoch(c, w))
    requires forall i | 0 <= i < |w.drawn| :: w.drawn[i].epoch == i + 1
    ensures var drawn := Next(c, w, e).drawn; forall i | 0 <= i < |drawn| :: drawn[i].epoch == i + 1
  {
    if e.RemoveMember? && c.list in w.store.lists {
      NextInTurn(w.drawn, w.store.lists[c.list].epoch);
    }
  }

  lemma InTurnIsDrawn(drawn: seq<Draw>, e: Epoch)
    requires (forall i | 0 <= i < |drawn| :: drawn[i].epoch == i + 1) && 1 <= e <= |drawn|
    ensures DrawnAt(drawn, e)
  {
    assert drawn[e - 1] in drawn;
  }

  lemma NextInTurn(drawn: seq<Draw>, epoch: Epoch)
    requires forall i | 0 <= i < |drawn| :: drawn[i].epoch == i + 1
    requires DrawnAt(drawn, epoch) && !DrawnAt(drawn, epoch + 1)
    ensures epoch == |drawn|
  {
    var d :| d in drawn && d.epoch == epoch;
    if epoch < |drawn| {
      InTurnIsDrawn(drawn, epoch + 1);
    }
  }

  /** With rotations that are fresh and seal to nobody removed: a removed member who
      was not added again has no slot of an epoch after the removal, and no box ever
      sent gives them a key drawn since. */
  lemma RemovedStaysOut(c: Setup, ws: seq<World>, es: seq<Event>, m: MemberId)
    requires Proper(c) && Run(c, ws, es) && m in ws[|es|].left && m in c.users
    requires forall i | 0 <= i < |es| && es[i].RemoveMember? ::
               FreshEpoch(c, ws[i]) && SealsToPresent(c, ws[i], es[i].removed)
    ensures var w := ws[|es|];
            && (w.server.Some? ==> forall e | (e, m) in w.server.value.slots :: e <= w.left[m])
            && (forall e, box, i | (e, box) in w.issued && w.left[m] <= i < |w.drawn| ::
                  OpenSealed(box, c.users[m]) != Some(w.drawn[i].dek))
  {
    RunKeepsSound(c, ws, es, |es|);
    OutUpTo(c, ws, es, |es|);
    DrawnInTurn(c, ws, es, |es|);
    var w := ws[|es|];
    if w.server.Some? {
      forall e | (e, m) in w.server.value.slots
        ensures e <= w.left[m]
      {
        var box := w.server.value.slots[(e, m)];
        assert Addressed(c, w.issued, m, e, box);
        assert IsDraw(w.drawn, e, box);
        var i :| 0 <= i < |w.drawn| && w.drawn[i] == Draw(e, box.dek);
      }
    }
  }
}
