/** The in-memory DEK map against the stored key slots, over whole runs of the
    store (todoers-client/src/session.rs:47-78, todoers-client/src/store.rs). */
module DekCache {
  import opened Helpers
  import opened Updates
  import opened Keys
  import opened StoreKeys

  datatype Act =
    | MakeList(list: ListId, dek: Dek)
    | Invite(list: ListId, added: Member)
    | Rotate(list: ListId, removed: MemberId, dek: Dek)
    | Ingest(list: ListId, epoch: Epoch, members: seq<Member>, keys: map<Epoch, Wrapped>)
    | Delete(list: ListId)
    | Restart  // a new session over the stored rows

  /** The store and, for the proof, the lists deleted in this session and the ids
      deleted at any time. */
  datatype Known = Known(store: Local, gone: set<ListId>, used: set<ListId>)

  /** A new list's id is new. What the server hands out opens for us, and covers
      its current epoch. */
  ghost predicate Permitted(k: Known, a: Act) {
    match a
    case MakeList(l, _) => l !in k.store.lists && l !in k.used
    case Ingest(_, epoch, _, keys) => epoch in keys
        && forall e | e in keys :: OpenSealed(keys[e], k.store.me.identityPub).Some?
    case _ => true
  }

  function Perform(k: Known, a: Act): Known {
    var s := k.store;
    match a
    case MakeList(l, dek) => k.(store := Created(s, l, dek).0)
    case Invite(l, m) => var d := AddedLocally(s, l, m); if d.Done? then k.(store := d.local) else k
    case Rotate(l, id, dek) => var d := RemovedLocally(s, l, id, dek); if d.Done? then k.(store := d.local) else k
    case Ingest(l, epoch, members, keys) => k.(store := Ingested(s, l, epoch, members, keys))
    case Delete(l) => Known(Deleted(s, l), k.gone + {l}, k.used + {l})
    case Restart => k.(store := s.(deks := Opened(s.lists, s.me.identityPub)), gone := {})
  }

  ghost predicate Run(ks: seq<Known>, acts: seq<Act>) {
    && |ks| == |acts| + 1
    && ks[0].store.lists == map[] && ks[0].store.deks == map[] && ks[0].gone == {} && ks[0].used == {}
    && forall i | 0 <= i < |acts| :: Permitted(ks[i], acts[i]) && ks[i + 1] == Perform(ks[i], acts[i])
  }

  /** Every slot of this list opens, and the map holds what is inside. */
  ghost predicate Filled(s: Local, l: ListId)
    requires l in s.lists
  {
    forall e | e in s.lists[l].slots ::
      (l, e) in s.deks && OpenSealed(s.lists[l].slots[e], s.me.identityPub) == Some(s.deks[(l, e)])
  }

  /** On this list the map is what a new session would rehydrate. */
  ghost predicate Exact(s: Local, l: ListId)
    requires l in s.lists
  {
    forall e :: && ((l, e) in s.deks <==> (l, e) in Opened(s.lists, s.me.identityPub))
                && ((l, e) in s.deks ==> s.deks[(l, e)] == Opened(s.lists, s.me.identityPub)[(l, e)])
  }

  ghost predicate Sound(k: Known) {
    && k.gone <= k.used
    && (forall l | l in k.store.lists :: Filled(k.store, l) && k.store.lists[l].epoch in k.store.lists[l].slots)
    && (forall l, e | (l, e) in k.store.deks && l !in k.gone :: l in k.store.lists && e in k.store.lists[l].slots)
  }

  lemma IngestedHas(s: Local, list: ListId, epoch: Epoch, members: seq<Member>, keys: map<Epoch, Wrapped>,
      l: ListId, e: Epoch)
    requires forall x | x in keys :: OpenSealed(keys[x], s.me.identityPub).Some?
    requires forall x | x in s.lists :: Filled(s, x)
    ensures var s' := Ingested(s, list, epoch, members, keys);
            && (l in s'.lists && e in s'.lists[l].slots ==>
                  && (l, e) in s'.deks
                  && OpenSealed(s'.lists[l].slots[e], s.me.identityPub) == Some(s'.deks[(l, e)]))
            && ((l, e) in s'.deks ==> (l, e) in s.deks || (l in s'.lists && e in s'.lists[l].slots))
  {
    var s' := Ingested(s, list, epoch, members, keys);
    var boxes := Opened(s'.lists, s.me.identityPub);
    if l in s'.lists && e in s'.lists[l].slots {
      if l == list {
        var before := if list in s.lists then s.lists[list].slots else map[];
        assert s'.lists[l].slots == before + keys;
        assert e in keys || (list in s.lists && e in s.lists[list].slots);
      } else {
        assert s'.lists[l] == s.lists[l];
      }
      assert OpenSealed(s'.lists[l].slots[e], s.me.identityPub).Some?;
      assert (l, e) in boxes;
    }
  }

  lemma IngestKeeps(k: Known, list: ListId, epoch: Epoch, members: seq<Member>, keys: map<Epoch, Wrapped>)
    requires Sound(k) && Permitted(k, Ingest(list, epoch, members, keys))
    ensures Sound(Perform(k, Ingest(list, epoch, members, keys)))
  {
    var s' := Ingested(k.store, list, epoch, members, keys);
    forall l | l in s'.lists
      ensures Filled(s', l)
    {
      forall e | e in s'.lists[l].slots
        ensures (l, e) in s'.deks && OpenSealed(s'.lists[l].slots[e], s'.me.identityPub) == Some(s'.deks[(l, e)])
      {
        IngestedHas(k.store, list, epoch, members, keys, l, e);
      }
    }
    forall l, e | (l, e) in s'.deks && l !in k.gone
      ensures l in s'.lists && e in s'.lists[l].slots
    {
      IngestedHas(k.store, list, epoch, members, keys, l, e);
    }
  }

  lemma RotateKeeps(k: Known, list: ListId, removed: MemberId, dek: Dek)
    requires Sound(k)
    ensures Sound(Perform(k, Rotate(list, removed, dek)))
  {
  }

  lemma StepKeeps(k: Known, a: Act)
    requires Sound(k) && Permitted(k, a)
    ensures Sound(Perform(k, a))
  {
    match a
    case MakeList(_, _) =>
    case Invite(_, _) =>
    case Rotate(list, removed, dek) => RotateKeeps(k, list, removed, dek);
    case Delete(_) =>
    case Ingest(list, epoch, members, keys) => IngestKeeps(k, list, epoch, members, keys);
    case Restart => RestartKeeps(k);
  }

  lemma RestartKeeps(k: Known)
    requires Sound(k)
    ensures Sound(Perform(k, Restart))
  {
    var s, s' := k.store, Perform(k, Restart).store;
    forall l, e | l in s.lists && e in s.lists[l].slots
      ensures (l, e) in s'.deks && OpenSealed(s.lists[l].slots[e], s.me.identityPub) == Some(s'.deks[(l, e)])
    {
      assert Filled(s, l);
      assert Opens(s.lists, s.me.identityPub, l, e);
    }
  }

  lemma {:induction false} RunKeeps(ks: seq<Known>, acts: seq<Act>)
    requires Run(ks, acts)
    ensures Sound(ks[|acts|])
    decreases |acts|
  {
    if acts != [] {
      var n := |acts| - 1;
      RunKeeps(ks[..n + 1], acts[..n]);
      assert ks[..n + 1][n] == ks[n] && Permitted(ks[n], acts[n]);
      StepKeeps(ks[n], acts[n]);
    }
  }

  /** In every run, on every stored list not deleted since the session began, the
      map is exactly what a new session would rehydrate from the slots. */
  lemma CacheIsRehydration(ks: seq<Known>, acts: seq<Act>, l: ListId)
    requires Run(ks, acts)
    requires var k := ks[|acts|]; l in k.store.lists && l !in k.gone
    ensures Exact(ks[|acts|].store, l)
  {
    RunKeeps(ks, acts);
  }

  /** In every run, `persist` finds the DEK of every stored list's current epoch,
      the one in that epoch's slot. */
  lemma CurrentDekIsThere(ks: seq<Known>, acts: seq<Act>, l: ListId)
    requires Run(ks, acts) && l in ks[|acts|].store.lists
    ensures var s := ks[|acts|].store;
            && CurrentDek(s, l).Key?
            && s.lists[l].epoch in s.lists[l].slots
            && OpenSealed(s.lists[l].slots[s.lists[l].epoch], s.me.identityPub) == Some(CurrentDek(s, l).dek)
  {
    RunKeeps(ks, acts);
  }

  /** Deleting a list leaves its DEKs in the map. When the server offers the list
      again, the map is exact again precisely if the offered slots cover every
      epoch that was left behind. */
  lemma ReturningListIsExactIff(ks: seq<Known>, acts: seq<Act>, list: ListId, epoch: Epoch, members: seq<Member>,
                                keys: map<Epoch, Wrapped>)
    requires Run(ks, acts) && list !in ks[|acts|].store.lists
    requires Permitted(ks[|acts|], Ingest(list, epoch, members, keys))
    ensures var s := ks[|acts|].store;
            Exact(Ingested(s, list, epoch, members, keys), list) <==> forall e | (list, e) in s.deks :: e in keys
  {
    RunKeeps(ks, acts);
    var s := ks[|acts|].store;
    var s' := Ingested(s, list, epoch, members, keys);
    assert s'.lists[list].slots == keys;
    forall e
      ensures (list, e) in Opened(s'.lists, s.me.identityPub) <==> e in keys
      ensures (list, e) in s'.deks <==> (list, e) in s.deks || e in keys
      ensures e in keys ==> s'.deks[(list, e)] == Opened(s'.lists, s.me.identityPub)[(list, e)]
    {
    }
  }

  /** No key of the list is in the map without its slot. */
  ghost predicate NoStrays(s: Local, l: ListId)
    requires l in s.lists
  {
    forall e | (l, e) in s.deks :: e in s.lists[l].slots
  }

  lemma ExactIffNoStrays(s: Local, l: ListId)
    requires l in s.lists && Filled(s, l)
    ensures Exact(s, l) <==> NoStrays(s, l)
  {
    forall e
      ensures (l, e) in Opened(s.lists, s.me.identityPub) <==> e in s.lists[l].slots
    {
      assert e in s.lists[l].slots ==> Opens(s.lists, s.me.identityPub, l, e);
    }
  }

  lemma StepKeepsNoStrays(k: Known, a: Act, l: ListId)
    requires Sound(k) && Permitted(k, a) && a != Delete(l)
    requires l in k.store.lists && NoStrays(k.store, l)
    ensures l in Perform(k, a).store.lists && NoStrays(Perform(k, a).store, l)
  {
    if a.Ingest? {
      forall e | (l, e) in Perform(k, a).store.deks
        ensures e in Perform(k, a).store.lists[l].slots
      {
        IngestedHas(k.store, a.list, a.epoch, a.members, a.keys, l, e);
      }
    }
  }

  /** Once the map is exact on a list it stays so until that list is deleted. */
  lemma {:induction false} ExactStays(ks: seq<Known>, acts: seq<Act>, i: nat, j: nat, l: ListId)
    requires Run(ks, acts) && i <= j <= |acts| && l in ks[i].store.lists && Exact(ks[i].store, l)
    requires forall n | i <= n < j :: acts[n] != Delete(l)
    ensures l in ks[j].store.lists && Exact(ks[j].store, l)
    decreases j
  {
    if i < j {
      ExactStays(ks, acts, i, j - 1, l);
      SoundAt(ks, acts, j - 1);
      StepKeepsExact(ks[j - 1], acts[j - 1], l);
    }
  }

  lemma StepKeepsExact(k: Known, a: Act, l: ListId)
    requires Sound(k) && Permitted(k, a) && a != Delete(l) && l in k.store.lists && Exact(k.store, l)
    ensures l in Perform(k, a).store.lists && Exact(Perform(k, a).store, l)
  {
    ExactIffNoStrays(k.store, l);
    StepKeepsNoStrays(k, a, l);
    StepKeeps(k, a);
    ExactIffNoStrays(Perform(k, a).store, l);
  }

  lemma SoundAt(ks: seq<Known>, acts: seq<Act>, n: nat)
    requires Run(ks, acts) && n <= |acts|
    ensures Sound(ks[n])
  {
    RunKeeps(ks[..n + 1], acts[..n]);
    assert ks[..n + 1][n] == ks[n];
  }

  // ── a key once drawn ──────────────────────────────────────────────────────

  /** The act draws `dek` for epoch `e` of the list. */
  predicate Draws(k: Known, a: Act, l: ListId, e: Epoch, dek: Dek) {
    || (a == MakeList(l, dek) && e == 1)
    || (a.Rotate? && a.list == l && a.dek == dek && l in k.store.lists && e == k.store.lists[l].epoch + 1)
  }

  ghost predicate HasKey(s: Local, l: ListId, e: Epoch, dek: Dek) {
    && l in s.lists && e <= s.lists[l].epoch && (l, e) in s.deks && s.deks[(l, e)] == dek
    && e in s.lists[l].slots && s.lists[l].slots[e] == SealTo(dek, s.me.identityPub)
  }

  lemma StepKeepsKey(k: Known, a: Act, l: ListId, e: Epoch, dek: Dek)
    requires Sound(k) && Permitted(k, a) && HasKey(k.store, l, e, dek)
    requires a != Delete(l) && !(a.Ingest? && a.list == l)
    ensures HasKey(Perform(k, a).store, l, e, dek)
  {
    StepKeeps(k, a);
    assert Filled(Perform(k, a).store, l);
  }

  lemma DrawnIsThere(k: Known, a: Act, l: ListId, e: Epoch, dek: Dek)
    requires Draws(k, a, l, e, dek)
    ensures HasKey(Perform(k, a).store, l, e, dek)
  {
  }

  lemma KeyAtNext(ks: seq<Known>, acts: seq<Act>, n: nat, l: ListId, e: Epoch, dek: Dek)
    requires Run(ks, acts) && n < |acts|
    requires
      || Draws(ks[n], acts[n], l, e, dek)
      || (HasKey(ks[n].store, l, e, dek) && acts[n] != Delete(l) && !(acts[n].Ingest? && acts[n].list == l))
    ensures HasKey(ks[n + 1].store, l, e, dek)
  {
    var k, a := ks[n], acts[n];
    assert Permitted(k, a) && ks[n + 1] == Perform(k, a);
    if Draws(k, a, l, e, dek) {
      DrawnIsThere(k, a, l, e, dek);
    } else {
      SoundAt(ks, acts, n);
      StepKeepsKey(k, a, l, e, dek);
    }
  }

  /** A key drawn for a new list or by a rotation is in the map, under its epoch, from
      then on, over rotations and restarts, until the list is deleted or a listing of it
      is ingested. */
  lemma {:induction false} KeyIsKept(ks: seq<Known>, acts: seq<Act>, i: nat, j: nat, l: ListId, e: Epoch, dek: Dek)
    requires Run(ks, acts) && i < j <= |acts| && Draws(ks[i], acts[i], l, e, dek)
    requires forall n | i < n < j :: acts[n] != Delete(l) && !(acts[n].Ingest? && acts[n].list == l)
    ensures HasKey(ks[j].store, l, e, dek)
    decreases j
  {
    if i < j - 1 {
      KeyIsKept(ks, acts, i, j - 1, l, e, dek);
    }
    KeyAtNext(ks, acts, j - 1, l, e, dek);
  }

  /** Inviting to a stored list never fails, in any run: the current key is there. The
      member is, too, afterwards, and every key as before. */
  lemma InviteSucceeds(ks: seq<Known>, acts: seq<Act>, n: nat, l: ListId, m: Member)
    requires Run(ks, acts) && n <= |acts| && l in ks[n].store.lists
    ensures AddedLocally(ks[n].store, l, m).Done?
    ensures var s := Perform(ks[n], Invite(l, m)).store;
            && s.deks == ks[n].store.deks
            && l in s.lists && s.lists[l].epoch == ks[n].store.lists[l].epoch && m in s.lists[l].members
  {
    SoundAt(ks, acts, n);
    assert Filled(ks[n].store, l);
    UpsertHas(ks[n].store.lists[l].members, m);
  }

  lemma {:induction false} UpsertHas(members: seq<Member>, m: Member)
    ensures m in Upsert(members, m)
  {
    if members != [] && members[0].id != m.id {
      UpsertHas(members[1..], m);
    }
  }

  /** The lists held to be gone are those deleted since the session began. */
  lemma {:induction false} GoneSince(ks: seq<Known>, acts: seq<Act>, n: nat, l: ListId) returns (i: nat)
    requires Run(ks, acts) && n <= |acts| && l in ks[n].gone
    ensures i < n && acts[i] == Delete(l) && forall j | i < j < n :: acts[j] != Restart
    decreases n
  {
    i := n - 1;
    assert ks[n] == Perform(ks[i], acts[i]);
    if acts[i] != Delete(l) {
      i := GoneSince(ks, acts, i, l);
    }
  }
}
