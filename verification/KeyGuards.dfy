/** Exactly when the list's keys stay good, whatever is lost or ingested: a check of
    each request against the server's own rows, which the server does not make
    (todoers-server/src/routes/lists.rs:53-89 and db.rs:436-538). */
module KeyGuards {
  import opened Helpers
  import opened Updates
  import opened Keys
  import opened ServerLists
  import opened StoreKeys
  import opened KeyRefinement
  import opened Rotation
  import opened Lockstep

  // ── one request ───────────────────────────────────────────────────────────

  function Recipients(entries: seq<SlotEntry>): set<MemberId> {
    set e | e in entries :: e.member
  }

  /** An add comes with the current epoch, or is for a member already there and
      with an earlier one; a rotation seals the next key to all who remain and to
      no one else, or repeats the current epoch for some of them. */
  predicate Guard(l: Listing, req: Request) {
    match req
    case Create(_) => true
    case Add(id, _, _, epoch) => epoch <= l.epoch && (id in l.members || epoch == l.epoch)
    case Remove(id, epoch, entries) =>
      var rest := l.members.Keys - {id};
      && l.epoch <= epoch + 1 && Recipients(entries) <= rest
      && (epoch + 1 == l.epoch || rest <= Recipients(entries))
  }

  /** Owners neither add nor remove themselves. */
  predicate Spares(c: Setup, req: Request) {
    (req.Add? || req.Remove?) ==> req.member != c.me.id
  }

  function Handled(c: Setup, l: Listing, req: Request): Result<Listing, Error> {
    Handle(Some(l), c.users.Keys, c.me.id, req)
  }

  lemma AddStaysGoodIff(c: Setup, l: Listing, id: MemberId, role: Role, box: Wrapped, epoch: Epoch)
    requires GoodKeys(l) && Handled(c, l, Add(id, role, box, epoch)).Ok?
    ensures GoodKeys(Handled(c, l, Add(id, role, box, epoch)).value) <==> Guard(l, Add(id, role, box, epoch))
  {
    InsertOne(l.slots, epoch, id, box);
    var l' := Handled(c, l, Add(id, role, box, epoch)).value;
    assert (epoch, id) in l'.slots && id in l'.members;
    assert forall k | k in l'.slots :: k in l.slots || k == (epoch, id);
  }

  /** What an accepted rotation leaves. */
  lemma RotatedTable(c: Setup, l: Listing, id: MemberId, epoch: Epoch, entries: seq<SlotEntry>, k: (Epoch, MemberId))
    requires Handled(c, l, Remove(id, epoch, entries)).Ok?
    ensures var l' := Handled(c, l, Remove(id, epoch, entries)).value;
            && l'.epoch == epoch + 1 && l'.members == l.members - {id} && epoch >= 0
            && (k in l'.slots <==> k.1 != id && (k in l.slots || (k.0 == epoch + 1 && k.1 in Recipients(entries))))
  {
    FaultFreeIff(entries, id, c.users.Keys, epoch + 1);
    InsertedSlots(l.slots, epoch + 1, entries, k);
    if k.1 in Recipients(entries) {
      var e :| e in entries && e.member == k.1;
    }
  }

  lemma RemoveStaysGoodIff(c: Setup, l: Listing, id: MemberId, epoch: Epoch, entries: seq<SlotEntry>)
    requires GoodKeys(l) && id != c.me.id && Handled(c, l, Remove(id, epoch, entries)).Ok?
    ensures GoodKeys(Handled(c, l, Remove(id, epoch, entries)).value) <==> Guard(l, Remove(id, epoch, entries))
  {
    var l' := Handled(c, l, Remove(id, epoch, entries)).value;
    var rest := l.members.Keys - {id};
    forall k: (Epoch, MemberId)
      ensures k in l'.slots <==> k.1 != id && (k in l.slots || (k.0 == epoch + 1 && k.1 in Recipients(entries)))
    {
      RotatedTable(c, l, id, epoch, entries, k);
    }
    RotatedTable(c, l, id, epoch, entries, (l.epoch, c.me.id));
    FaultFreeIff(entries, id, c.users.Keys, epoch + 1);
    assert id !in Recipients(entries);
    if GoodKeys(l') {
      assert (l.epoch, c.me.id) in l'.slots;
      forall m | m in Recipients(entries)
        ensures m in rest
      {
        assert (epoch + 1, m) in l'.slots;
      }
      forall m | m in rest && epoch + 1 != l.epoch
        ensures m in Recipients(entries)
      {
        assert (epoch + 1, m) in l'.slots;
      }
    }
  }

  /** A request that the server accepts on good keys leaves them good if and only if
      it passes the guard. */
  lemma StaysGoodIff(c: Setup, l: Listing, req: Request)
    requires GoodKeys(l) && Spares(c, req) && Handled(c, l, req).Ok?
    ensures GoodKeys(Handled(c, l, req).value) <==> Guard(l, req)
  {
    match req
    case Create(_) =>
    case Add(id, role, box, epoch) => AddStaysGoodIff(c, l, id, role, box, epoch);
    case Remove(id, epoch, entries) => RemoveStaysGoodIff(c, l, id, epoch, entries);
  }

  // ── whole runs ────────────────────────────────────────────────────────────

  function SentAt(req: Request): Epoch {
    if req.Create? then 1 else req.epoch
  }

  /** The epoch the client is in once the request is sent. */
  function ThenAt(req: Request): Epoch {
    match req
    case Create(_) => 1
    case Add(_, _, _, epoch) => epoch
    case Remove(_, epoch, _) => epoch + 1
  }

  /** Each waiting request was sent no earlier than the one before it left off. */
  predicate InOrder(at: Epoch, queue: seq<Request>, last: Epoch)
    decreases |queue|
  {
    if queue == [] then at <= last
    else at <= SentAt(queue[0]) && InOrder(ThenAt(queue[0]), queue[1..], last)
  }

  lemma {:induction false} InOrderMore(at: Epoch, queue: seq<Request>, req: Request)
    requires InOrder(at, queue, SentAt(req))
    ensures InOrder(at, queue + [req], ThenAt(req))
    decreases |queue|
  {
    if queue == [] {
      assert queue + [req] == [req] && [req][1..] == [];
    } else {
      InOrderMore(ThenAt(queue[0]), queue[1..], req);
      assert (queue + [req])[1..] == queue[1..] + [req];
    }
  }

  lemma InOrderBelow(at: Epoch, below: Epoch, queue: seq<Request>, last: Epoch)
    requires InOrder(at, queue, last) && below <= at
    ensures InOrder(below, queue, last)
  {
  }

  lemma {:induction false} InOrderAll(at: Epoch, queue: seq<Request>, last: Epoch, i: nat)
    requires InOrder(at, queue, last) && i < |queue|
    ensures at <= SentAt(queue[i])
    decreases |queue|
  {
    if i > 0 {
      InOrderAll(ThenAt(queue[0]), queue[1..], last, i - 1);
    }
  }

  function ServerEpoch(server: Option<Listing>): Epoch {
    if server.Some? then server.value.epoch else 1
  }

  /** What every run keeps, whatever is lost or ingested. */
  ghost predicate Tidy(c: Setup, w: World) {
    && (w.server.Some? ==> IsOwner(w.server, c.me.id))
    && (forall req | req in w.queue :: Spares(c, req))
    && (c.list !in w.store.lists ==> w.queue == [] && w.server == None && w.fetched == [])
  }

  lemma StepKeepsTidy(c: Setup, w: World, e: Event)
    requires Tidy(c, w) && Allowed(c, w, e)
    ensures Tidy(c, Next(c, w, e))
  {
    if e == Arrive {
      assert w.queue[0] in w.queue;
    }
  }

  lemma {:induction false} RunKeepsTidy(c: Setup, ws: seq<World>, es: seq<Event>, n: nat)
    requires Run(c, ws, es) && n <= |es|
    ensures Tidy(c, ws[n])
    decreases n
  {
    if n > 0 {
      RunKeepsTidy(c, ws, es, n - 1);
      StepKeepsTidy(c, ws[n - 1], es[n - 1]);
    }
  }

  // ── requests in order ─────────────────────────────────────────────────────

  /** What waits was sent in order from the server's epoch up to the client's. */
  predicate Ordered(c: Setup, w: World) {
    c.list in w.store.lists ==> InOrder(ServerEpoch(w.server), w.queue, w.store.lists[c.list].epoch)
  }

  /** The epoch the last waiting request leads to. */
  function Reached(at: Epoch, queue: seq<Request>): Epoch {
    if queue == [] then at else ThenAt(queue[|queue| - 1])
  }

  lemma {:induction false} InOrderIff(at: Epoch, queue: seq<Request>, last: Epoch, other: Epoch)
    requires InOrder(at, queue, last)
    ensures InOrder(at, queue, other) <==> Reached(at, queue) <= other
    ensures Reached(at, queue) <= last
    decreases |queue|
  {
    if queue != [] {
      InOrderIff(ThenAt(queue[0]), queue[1..], last, other);
    }
  }

  /** A listing is ingested that is not below where the waiting requests lead. */
  predicate NotBelow(c: Setup, w: World, e: Event) {
    e.Ingest? && w.fetched != [] && c.list in w.store.lists ==>
      Reached(ServerEpoch(w.server), w.queue) <= w.fetched[0].epoch
  }

  lemma SendStaysOrdered(c: Setup, w: World, e: Event)
    requires Tidy(c, w) && Ordered(c, w) && Allowed(c, w, e) && (e.CreateList? || e.AddMember? || e.RemoveMember?)
    ensures Ordered(c, Next(c, w, e))
  {
    match e
    case CreateList(dek) =>
      InOrderMore(1, [], Created(w.store, c.list, dek).1);
      assert [] + [Created(w.store, c.list, dek).1] == w.queue + [Created(w.store, c.list, dek).1];
    case AddMember(m) =>
      var done := AddedLocally(w.store, c.list, m);
      if done.Done? {
        InOrderMore(ServerEpoch(w.server), w.queue, done.out);
      }
    case RemoveMember(id, dek) =>
      var done := RemovedLocally(w.store, c.list, id, dek);
      if done.Done? {
        InOrderMore(ServerEpoch(w.server), w.queue, done.out);
      }
    case _ =>
  }

  lemma TakeStaysOrdered(c: Setup, w: World, e: Event)
    requires Tidy(c, w) && Ordered(c, w) && Allowed(c, w, e) && (e == Arrive || e == Lose)
    ensures Ordered(c, Next(c, w, e))
  {
    InOrderBelow(ThenAt(w.queue[0]), ServerEpoch(Next(c, w, e).server), w.queue[1..], w.store.lists[c.list].epoch);
  }

  lemma IngestStaysOrderedIff(c: Setup, w: World, members: seq<Member>)
    requires Tidy(c, w) && Ordered(c, w) && Allowed(c, w, Ingest(members)) && c.list in w.store.lists
    ensures Ordered(c, Next(c, w, Ingest(members))) <==> NotBelow(c, w, Ingest(members))
  {
    IngestMerges(c, w, members);
    InOrderIff(ServerEpoch(w.server), w.queue, w.store.lists[c.list].epoch, w.fetched[0].epoch);
  }

  lemma StepOrderedIff(c: Setup, w: World, e: Event)
    requires Tidy(c, w) && Ordered(c, w) && Allowed(c, w, e)
    ensures Ordered(c, Next(c, w, e)) <==> NotBelow(c, w, e)
  {
    match e
    case CreateList(_) => SendStaysOrdered(c, w, e);
    case AddMember(_) => SendStaysOrdered(c, w, e);
    case RemoveMember(_, _) => SendStaysOrdered(c, w, e);
    case Arrive => TakeStaysOrdered(c, w, e);
    case Lose => TakeStaysOrdered(c, w, e);
    case Ingest(members) => IngestStaysOrderedIff(c, w, members);
    case _ =>
  }

  lemma {:induction false} OrderedAt(c: Setup, ws: seq<World>, es: seq<Event>, n: nat)
    requires Run(c, ws, es) && n <= |es|
    requires forall i | 0 <= i < n :: NotBelow(c, ws[i], es[i])
    ensures Ordered(c, ws[n])
    decreases n
  {
    if n > 0 {
      OrderedAt(c, ws, es, n - 1);
      RunKeepsTidy(c, ws, es, n - 1);
      StepOrderedIff(c, ws[n - 1], es[n - 1]);
    }
  }

  /** Over whole runs, whatever is lost: what waits was sent in order from the server's
      epoch up to the client's, at all times, if and only if no listing is ingested
      whose epoch is below where the waiting requests lead. */
  lemma OrderedIff(c: Setup, ws: seq<World>, es: seq<Event>)
    requires Run(c, ws, es)
    ensures (forall i | 0 <= i <= |es| :: Ordered(c, ws[i]))
       <==> (forall i | 0 <= i < |es| :: NotBelow(c, ws[i], es[i]))
  {
    if forall i | 0 <= i <= |es| :: Ordered(c, ws[i]) {
      forall i | 0 <= i < |es|
        ensures NotBelow(c, ws[i], es[i])
      {
        RunKeepsTidy(c, ws, es, i);
        assert Ordered(c, ws[i]) && Ordered(c, ws[i + 1]);
        StepOrderedIff(c, ws[i], es[i]);
      }
    }
    if forall i | 0 <= i < |es| :: NotBelow(c, ws[i], es[i]) {
      forall i | 0 <= i <= |es|
        ensures Ordered(c, ws[i])
      {
        OrderedAt(c, ws, es, i);
      }
    }
  }

  /** The client need not know what waits: its own epoch is not below that. */
  lemma OwnEpochSuffices(c: Setup, w: World, e: Event)
    requires Ordered(c, w) && NotBehind(c, w, e)
    ensures NotBelow(c, w, e)
  {
    if c.list in w.store.lists {
      InOrderIff(ServerEpoch(w.server), w.queue, w.store.lists[c.list].epoch, w.store.lists[c.list].epoch);
    }
  }

  /** In such a run no waiting request was sent with an epoch below the server's. */
  lemma NeverSentBehind(c: Setup, ws: seq<World>, es: seq<Event>, i: nat)
    requires Run(c, ws, es) && i < |ws[|es|].queue| && ws[|es|].server.Some?
    requires forall n | 0 <= n < |es| :: NotBelow(c, ws[n], es[n])
    ensures ws[|es|].server.value.epoch <= SentAt(ws[|es|].queue[i])
  {
    RunKeepsTidy(c, ws, es, |es|);
    OrderedAt(c, ws, es, |es|);
    var w := ws[|es|];
    InOrderAll(ServerEpoch(w.server), w.queue, w.store.lists[c.list].epoch, i);
  }

  /** Then the guard says: an add carries the server's epoch, and a rotation
      is sealed to exactly those who remain at the server. */
  lemma GuardInTime(l: Listing, req: Request)
    requires l.epoch <= SentAt(req)
    ensures match req
            case Create(_) => Guard(l, req)
            case Add(_, _, _, epoch) => Guard(l, req) <==> epoch == l.epoch
            case Remove(id, _, entries) => Guard(l, req) <==> Recipients(entries) == l.members.Keys - {id}
  {
  }

  /** A rotation as the client builds it passes exactly when the client lists the
      server's members, the removed one aside. */
  lemma RotationGuardIff(l: Listing, members: seq<Member>, removed: MemberId, epoch: Epoch, dek: Dek)
    requires l.epoch <= epoch
    ensures Guard(l, Remove(removed, epoch, SealAll(Without(members, removed), dek)))
       <==> Roles(Without(members, removed)).Keys == l.members.Keys - {removed}
  {
    var rest := Without(members, removed);
    forall id
      ensures id in Recipients(SealAll(rest, dek)) <==> id in Roles(rest)
    {
      RolesHas(rest, id);
      if m :| m in rest && m.id == id {
        SealedEntry(rest, dek, SlotEntry(id, SealTo(dek, m.identityPub)));
      }
      if e :| e in SealAll(rest, dek) && e.member == id {
        SealedEntry(rest, dek, e);
      }
    }
    assert Recipients(SealAll(rest, dek)) == Roles(rest).Keys;
  }

  ghost predicate KeysGood(w: World) {
    w.server.Some? ==> GoodKeys(w.server.value)
  }

  predicate Accepts(c: Setup, w: World, e: Event) {
    e == Arrive && w.queue != [] && Handle(w.server, c.users.Keys, c.me.id, w.queue[0]).Ok?
  }

  /** The request at the head of the queue passes the guard. */
  predicate Guarded(w: World)
    requires w.queue != []
  {
    w.server.Some? ==> Guard(w.server.value, w.queue[0])
  }

  lemma StepGoodIff(c: Setup, w: World, e: Event)
    requires Tidy(c, w) && KeysGood(w) && Allowed(c, w, e)
    ensures KeysGood(Next(c, w, e)) <==> (Accepts(c, w, e) ==> Guarded(w))
  {
    if Accepts(c, w, e) {
      assert w.queue[0] in w.queue;
      if w.server.Some? {
        StaysGoodIff(c, w.server.value, w.queue[0]);
      }
    }
  }

  lemma {:induction false} GoodUpTo(c: Setup, ws: seq<World>, es: seq<Event>, n: nat)
    requires Run(c, ws, es) && n <= |es|
    requires forall i | 0 <= i < n && Accepts(c, ws[i], es[i]) :: Guarded(ws[i])
    ensures KeysGood(ws[n])
    decreases n
  {
    if n > 0 {
      GoodUpTo(c, ws, es, n - 1);
      RunKeepsTidy(c, ws, es, n - 1);
      assert Allowed(c, ws[n - 1], es[n - 1]);
      StepGoodIff(c, ws[n - 1], es[n - 1]);
    }
  }

  /** Over whole runs, whatever is lost or ingested: the keys are good at every moment if and
      only if each accepted request passed the guard on arrival. */
  lemma KeysGoodIff(c: Setup, ws: seq<World>, es: seq<Event>)
    requires Run(c, ws, es)
    ensures (forall i | 0 <= i <= |es| :: KeysGood(ws[i]))
       <==> (forall i | 0 <= i < |es| && Accepts(c, ws[i], es[i]) :: Guarded(ws[i]))
  {
    if forall i | 0 <= i <= |es| :: KeysGood(ws[i]) {
      forall i | 0 <= i < |es| && Accepts(c, ws[i], es[i])
        ensures Guarded(ws[i])
      {
        RunKeepsTidy(c, ws, es, i);
        assert KeysGood(ws[i]) && KeysGood(ws[i + 1]);
        StepGoodIff(c, ws[i], es[i]);
      }
    }
    if forall i | 0 <= i < |es| && Accepts(c, ws[i], es[i]) :: Guarded(ws[i]) {
      forall i | 0 <= i <= |es|
        ensures KeysGood(ws[i])
      {
        GoodUpTo(c, ws, es, i);
      }
    }
  }
}
