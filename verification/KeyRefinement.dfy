/** The client's half and the server's half of a membership change, put together,
    against the in-memory statement of the same change (todoers-client/src/crypto.rs:390-420). */
module KeyRefinement {
  import opened Helpers
  import opened Updates
  import opened Keys
  import opened ServerLists
  import opened StoreKeys

  function Roles(members: seq<Member>): map<MemberId, Role> {
    if members == [] then map[] else Roles(members[1..])[members[0].id := members[0].role]
  }

  /** The server's rows are exactly this metadata: one row per member, and the
      same key slots. `users` is the directory of identity keys. */
  ghost predicate Represents(meta: Meta, l: Listing, users: map<MemberId, Pub>) {
    && meta.epoch == l.epoch
    && DistinctIds(meta.members)
    && Roles(meta.members) == l.members
    && (forall m | m in meta.members :: m.id in users && users[m.id] == m.identityPub)
    && SameSlots(meta.slots, l.slots)
  }

  ghost predicate SameSlots(slots: seq<KeySlot>, table: map<(Epoch, MemberId), Wrapped>) {
    forall s: KeySlot :: s in slots <==> (s.epoch, s.member) in table && table[(s.epoch, s.member)] == s.wrapped
  }

  /** The client's rows for the list agree with the metadata. */
  ghost predicate Matches(l: LocalList, meta: Meta) {
    l.epoch == meta.epoch && forall m :: m in l.members <==> m in meta.members
  }

  lemma {:induction false} RolesHas(members: seq<Member>, id: MemberId)
    ensures id in Roles(members) <==> exists m :: m in members && m.id == id
  {
    if members != [] {
      RolesHas(members[1..], id);
      assert members == [members[0]] + members[1..];
      if id in Roles(members) {
        if id == members[0].id {
          assert members[0] in members;
        } else {
          var m :| m in members[1..] && m.id == id;
          assert m in members;
        }
      }
    }
  }

  lemma {:induction false} RolesWithout(members: seq<Member>, id: MemberId)
    ensures Roles(Without(members, id)) == Roles(members) - {id}
  {
    if members != [] {
      RolesWithout(members[1..], id);
      if members[0].id != id {
        assert ([members[0]] + Without(members[1..], id))[1..] == Without(members[1..], id);
      }
    }
  }

  lemma {:induction false} DistinctWithout(members: seq<Member>, id: MemberId)
    requires DistinctIds(members)
    ensures DistinctIds(Without(members, id))
  {
    if members != [] {
      DistinctWithout(members[1..], id);
      WithoutFacts(members[1..], id);
      var rest := Without(members[1..], id);
      forall k | 0 <= k < |rest|
        ensures rest[k].id != members[0].id
      {
        assert rest[k] in rest;
      }
    }
  }

  lemma {:induction false} RolesAppended(members: seq<Member>, added: Member)
    requires added.id !in Roles(members)
    ensures Roles(members + [added]) == Roles(members)[added.id := added.role]
  {
    if members == [] {
      assert members + [added] == [added];
    } else {
      RolesAppended(members[1..], added);
      assert (members + [added])[1..] == members[1..] + [added];
    }
  }

  lemma {:induction false} RolesUpserted(members: seq<Member>, m: Member)
    ensures Roles(Upsert(members, m)) == Roles(members)[m.id := m.role]
  {
    if members != [] {
      RolesUpserted(members[1..], m);
      if members[0].id == m.id {
        assert ([m] + members[1..])[1..] == members[1..];
      } else {
        assert ([members[0]] + Upsert(members[1..], m))[1..] == Upsert(members[1..], m);
      }
    }
  }

  lemma InsertOne(slots: map<(Epoch, MemberId), Wrapped>, epoch: Epoch, id: MemberId, box: Wrapped)
    ensures InsertSlots(slots, epoch, [SlotEntry(id, box)])
         == if (epoch, id) in slots then slots else slots[(epoch, id) := box]
  {
    var entries := [SlotEntry(id, box)];
    assert entries[1..] == [];
    var slots' := if (epoch, id) in slots then slots else slots[(epoch, id) := box];
    assert InsertSlots(slots', epoch, []) == slots';
  }

  // ── adding ────────────────────────────────────────────────────────────────

  /** Another box is already stored where the change wants to put one. */
  ghost predicate Clash(l: Listing, epoch: Epoch, m: Member, dek: Dek) {
    (epoch, m.id) in l.slots && l.slots[(epoch, m.id)] != SealTo(dek, m.identityPub)
  }

  /** Adding in two halves is the in-memory `add_member` exactly when the added
      user is not yet a member and no other box of that epoch is stored for them:
      the server updates the role of a member it has and keeps a box it has. */
  lemma AddRefinesIff(meta: Meta, l: Listing, users: map<MemberId, Pub>, s: Local, list: ListId, added: Member)
    requires Represents(meta, l, users) && IsOwner(Some(l), s.me.id) && l.epoch >= 1
    requires list in s.lists && Matches(s.lists[list], meta) && (list, meta.epoch) in s.deks
    requires added.id in users && users[added.id] == added.identityPub
    ensures var local := AddedLocally(s, list, added);
            && local.Done?
            && var served := Handle(Some(l), users.Keys, s.me.id, local.out);
            && served.Ok?
            && (Represents(AddMeta(meta, added, s.deks[(list, meta.epoch)]), served.value, users)
                <==> added.id !in l.members && !Clash(l, l.epoch, added, s.deks[(list, meta.epoch)]))
  {
    var dek := s.deks[(list, meta.epoch)];
    var box := SealTo(dek, added.identityPub);
    var meta' := AddMeta(meta, added, dek);
    var l' := Handle(Some(l), users.Keys, s.me.id, Add(added.id, added.role, box, l.epoch)).value;
    var key := (l.epoch, added.id);
    InsertOne(l.slots, l.epoch, added.id, box);
    RolesHas(meta.members, added.id);
    assert KeySlot(l.epoch, added.id, box) in meta'.slots;
    if added.id in l.members {
      var m :| m in meta.members && m.id == added.id;
      var i :| 0 <= i < |meta.members| && meta.members[i] == m;
      assert meta'.members[i].id == meta'.members[|meta.members|].id;
    } else {
      RolesAppended(meta.members, added);
      assert DistinctIds(meta'.members) by {
        forall i | 0 <= i < |meta.members|
          ensures meta.members[i].id != added.id
        {
          assert meta.members[i] in meta.members;
        }
      }
    }
    if !Clash(l, l.epoch, added, dek) {
      forall k: KeySlot
        ensures k in meta'.slots <==> (k.epoch, k.member) in l'.slots && l'.slots[(k.epoch, k.member)] == k.wrapped
      {
        assert k in meta'.slots <==> k in meta.slots || k == KeySlot(l.epoch, added.id, box);
      }
    }
  }

  // ── removing ──────────────────────────────────────────────────────────────

  lemma SealedEntry(members: seq<Member>, dek: Dek, entry: SlotEntry)
    ensures entry in SealAll(members, dek) <==>
      exists m :: m in members && entry == SlotEntry(m.id, SealTo(dek, m.identityPub))
  {
    var all := SealAll(members, dek);
    if entry in all {
      var i :| 0 <= i < |all| && all[i] == entry;
      assert members[i] in members;
    }
    if m :| m in members && entry == SlotEntry(m.id, SealTo(dek, m.identityPub)) {
      var i :| 0 <= i < |members| && members[i] == m;
      assert all[i] == entry;
    }
  }

  lemma SlotAtEpoch(entries: seq<SlotEntry>, epoch: Epoch, s: KeySlot)
    ensures s in AtEpoch(entries, epoch) <==> s.epoch == epoch && SlotEntry(s.member, s.wrapped) in entries
  {
    var all := AtEpoch(entries, epoch);
    if s in all {
      var i :| 0 <= i < |all| && all[i] == s;
      assert entries[i] in entries;
    }
    if s.epoch == epoch && SlotEntry(s.member, s.wrapped) in entries {
      var i :| 0 <= i < |entries| && entries[i] == SlotEntry(s.member, s.wrapped);
      assert all[i] == s;
    }
  }

  /** What the in-memory removal leaves. */
  lemma MetaSlot(meta: Meta, removed: MemberId, dek: Dek, s: KeySlot)
    ensures s in RemoveMeta(meta, removed, dek).slots <==>
      && s.member != removed
      && (|| s in meta.slots
          || (s.epoch == meta.epoch + 1
              && exists m :: m in meta.members && s == KeySlot(s.epoch, m.id, SealTo(dek, m.identityPub))))
  {
    var rest := Without(meta.members, removed);
    var resealed := AtEpoch(SealAll(rest, dek), meta.epoch + 1);
    SlotsWithoutFacts(meta.slots + resealed, removed);
    SlotAtEpoch(SealAll(rest, dek), meta.epoch + 1, s);
    SealedEntry(rest, dek, SlotEntry(s.member, s.wrapped));
    WithoutFacts(meta.members, removed);
  }

  /** What the server's removal leaves at one key. */
  lemma ServedSlot(l: Listing, epoch: Epoch, removed: MemberId, rest: seq<Member>, dek: Dek, key: (Epoch, MemberId))
    requires forall m | m in rest :: !Clash(l, epoch, m, dek)
    requires DistinctIds(rest)
    ensures var table := SlotsOfOthers(InsertSlots(l.slots, epoch, SealAll(rest, dek)), removed);
            && (key in table <==>
                 key.1 != removed && (key in l.slots || (key.0 == epoch && exists m :: m in rest && m.id == key.1)))
            && (key in table && key in l.slots ==> table[key] == l.slots[key])
            && (key in table && key.0 == epoch ==>
                 forall m | m in rest && m.id == key.1 :: table[key] == SealTo(dek, m.identityPub))
  {
    var entries := SealAll(rest, dek);
    InsertedSlots(l.slots, epoch, entries, key);
    var all := InsertSlots(l.slots, epoch, entries);
    if exists i | 0 <= i < |entries| :: entries[i].member == key.1 {
      var i :| 0 <= i < |entries| && entries[i].member == key.1;
      assert rest[i] in rest;
    }
    forall m | m in rest && m.id == key.1 && key.0 == epoch
      ensures key in all && all[key] == SealTo(dek, m.identityPub)
    {
      var i :| 0 <= i < |rest| && rest[i] == m;
      assert entries[i].member == key.1;
      if key !in l.slots {
        var j :| 0 <= j < |entries| && entries[j].member == key.1 && entries[j].wrapped == all[key];
        assert rest[j].id == rest[i].id;
      }
    }
  }

  lemma RemovedSlots(meta: Meta, l: Listing, mine: seq<Member>, removed: MemberId, dek: Dek)
    requires meta.epoch == l.epoch && SameSlots(meta.slots, l.slots)
    requires DistinctIds(mine) && forall m :: m in mine <==> m in meta.members
    ensures SameSlots(RemoveMeta(meta, removed, dek).slots,
                      SlotsOfOthers(InsertSlots(l.slots, l.epoch + 1, SealAll(Without(mine, removed), dek)), removed))
       <==> forall m | m in meta.members && m.id != removed :: !Clash(l, l.epoch + 1, m, dek)
  {
    var rest := Without(mine, removed);
    var table := SlotsOfOthers(InsertSlots(l.slots, l.epoch + 1, SealAll(rest, dek)), removed);
    WithoutFacts(mine, removed);
    DistinctWithout(mine, removed);
    if forall m | m in meta.members && m.id != removed :: !Clash(l, l.epoch + 1, m, dek) {
      forall k: KeySlot
        ensures k in RemoveMeta(meta, removed, dek).slots
           <==> (k.epoch, k.member) in table && table[(k.epoch, k.member)] == k.wrapped
      {
        MetaSlot(meta, removed, dek, k);
        ServedSlot(l, l.epoch + 1, removed, rest, dek, (k.epoch, k.member));
      }
    } else {
      var m :| m in meta.members && m.id != removed && Clash(l, l.epoch + 1, m, dek);
      ClashShows(meta, l, removed, rest, dek, m);
    }
  }

  /** The request a removal builds passes every check of the server. */
  lemma RemovalIsServed(meta: Meta, l: Listing, users: map<MemberId, Pub>, caller: MemberId, mine: seq<Member>,
                        removed: MemberId, dek: Dek)
    requires Represents(meta, l, users) && IsOwner(Some(l), caller) && l.epoch >= 1
    requires forall m :: m in mine <==> m in meta.members
    ensures var entries := SealAll(Without(mine, removed), dek);
            && var slots := SlotsOfOthers(InsertSlots(l.slots, l.epoch + 1, entries), removed);
            && Handle(Some(l), users.Keys, caller, Remove(removed, l.epoch, entries))
               == Ok(Listing(l.epoch + 1, l.members - {removed}, slots))
  {
    var rest := Without(mine, removed);
    WithoutFacts(mine, removed);
    forall i | 0 <= i < |rest|
      ensures rest[i].id != removed && rest[i].id in users
    {
      assert rest[i] in rest;
    }
    FaultFreeIff(SealAll(rest, dek), removed, users.Keys, l.epoch + 1);
  }

  /** Removing in two halves is the in-memory `remove_member` exactly when no
      remaining member already has another box under the next epoch: the server
      keeps a box it has. With a DEK nobody used before, that is: no box at all. */
  lemma RemoveRefinesIff(meta: Meta, l: Listing, users: map<MemberId, Pub>, s: Local, list: ListId, removed: MemberId,
                         dek: Dek)
    requires Represents(meta, l, users) && IsOwner(Some(l), s.me.id) && l.epoch >= 1
    requires list in s.lists && Matches(s.lists[list], meta) && DistinctIds(s.lists[list].members)
    ensures var local := RemovedLocally(s, list, removed, dek);
            && local.Done?
            && var served := Handle(Some(l), users.Keys, s.me.id, local.out);
            && served.Ok?
            && (Represents(RemoveMeta(meta, removed, dek), served.value, users)
                <==> forall m | m in meta.members && m.id != removed :: !Clash(l, l.epoch + 1, m, dek))
  {
    var mine := s.lists[list].members;
    RemovalIsServed(meta, l, users, s.me.id, mine, removed, dek);
    RemovedSlots(meta, l, mine, removed, dek);
    WithoutFacts(meta.members, removed);
    RolesWithout(meta.members, removed);
    DistinctWithout(meta.members, removed);
  }

  lemma ClashShows(meta: Meta, l: Listing, removed: MemberId, rest: seq<Member>, dek: Dek, m: Member)
    requires m in meta.members && m.id != removed && Clash(l, l.epoch + 1, m, dek) && meta.epoch == l.epoch
    ensures !SameSlots(RemoveMeta(meta, removed, dek).slots,
                       SlotsOfOthers(InsertSlots(l.slots, l.epoch + 1, SealAll(rest, dek)), removed))
  {
    var slot := KeySlot(l.epoch + 1, m.id, SealTo(dek, m.identityPub));
    MetaSlot(meta, removed, dek, slot);
    InsertedSlots(l.slots, l.epoch + 1, SealAll(rest, dek), (l.epoch + 1, m.id));
    assert slot in RemoveMeta(meta, removed, dek).slots;
  }
}
