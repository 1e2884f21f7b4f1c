/** What a failed membership command leads to: it is logged and dropped
    (todoers-client/src/sync.rs:113-117). */
module LostCommands {
  import opened Helpers
  import opened Updates
  import opened Keys
  import opened ServerLists
  import opened StoreKeys
  import opened KeyRefinement
  import opened Rotation
  import opened Lockstep
  import opened KeyGuards

  // ── a lost add ────────────────────────────────────────────────────────────

  lemma RotationSent(c: Setup, w: World, removed: MemberId, dek: Dek)
    requires Allowed(c, w, RemoveMember(removed, dek)) && w.queue == [] && c.list in w.store.lists
    ensures var w', l := Next(c, w, RemoveMember(removed, dek)), w.store.lists[c.list];
            w'.server == w.server && w'.queue == [Remove(removed, l.epoch, SealAll(Without(l.members, removed), dek))]
  {
  }

  lemma StraySlotServed(c: Setup, l: Listing, members: seq<Member>, added: MemberId, removed: MemberId, dek: Dek)
    requires IsOwner(Some(l), c.me.id) && l.epoch >= 1 && (forall m | m in members :: m.id in c.users)
    requires added !in l.members && (exists m :: m in members && m.id == added) && removed != added
    ensures var r := Handle(Some(l), c.users.Keys, c.me.id,
                            Remove(removed, l.epoch, SealAll(Without(members, removed), dek)));
            r.Ok? && (r.value.epoch, added) in r.value.slots && added !in r.value.members
  {
    RotationServed(c, l, members, removed, l.epoch, dek);
    RolesHas(members, added);
    RolesWithout(members, removed);
  }

  /** A rotation that reaches a server which never heard of one of the client's
      members gives that member a current slot all the same. */
  lemma StraySlot(c: Setup, w: World, w': World, added: MemberId, removed: MemberId, dek: Dek)
    requires w.queue == [] && c.list in w.store.lists && IsOwner(w.server, c.me.id)
    requires 1 <= w.server.value.epoch == w.store.lists[c.list].epoch
    requires forall m | m in w.store.lists[c.list].members :: m.id in c.users
    requires added !in w.server.value.members && exists m :: m in w.store.lists[c.list].members && m.id == added
    requires removed != added && Allowed(c, w, RemoveMember(removed, dek))
        && w' == Next(c, w, RemoveMember(removed, dek))
    ensures w'.queue != []
    ensures var l := Next(c, w', Arrive).server;
            l.Some? && (l.value.epoch, added) in l.value.slots && added !in l.value.members
  {
    RotationSent(c, w, removed, dek);
    StraySlotServed(c, w.server.value, w.store.lists[c.list].members, added, removed, dek);
  }

  lemma AddLost(c: Setup, w: World, added: Member)
    requires ClientSound(c, w) && w.queue == [] && c.list in w.store.lists && Allowed(c, w, AddMember(added))
    ensures var w1, l := Next(c, w, AddMember(added)), w.store.lists[c.list];
            && w1.queue != []
            && var w2 := Next(c, w1, Lose);
            && w2.queue == [] && w2.server == w.server && c.list in w2.store.lists
            && w2.store.lists[c.list] == l.(members := Upsert(l.members, added))
  {
  }

  /** After an add whose request was lost, the client lists a member the server
      does not know. */
  lemma LostAdd(c: Setup, w: World, w1: World, w2: World, added: Member)
    requires Proper(c) && Sound(c, w) && InStep(c, w)
    requires w.queue == [] && c.list in w.store.lists && added.id !in w.server.value.members
    requires Allowed(c, w, AddMember(added)) && w1 == Next(c, w, AddMember(added)) && Allowed(c, w1, Lose)
        && w2 == Next(c, w1, Lose)
    ensures Sound(c, w2) && w2.queue == [] && w2.server == w.server && IsOwner(w2.server, c.me.id)
        && c.list in w2.store.lists
    ensures 1 <= w2.server.value.epoch == w2.store.lists[c.list].epoch && added in w2.store.lists[c.list].members
    ensures forall m | m in w2.store.lists[c.list].members :: m.id in c.users
  {
    assert Sound(c, w2) by {
      AddKeepsSound(c, w, added);
      TakeKeepsSound(c, w1, Lose);
    }
    AddLost(c, w, added);
    UpsertHas(w.store.lists[c.list].members, added);
  }

  lemma FourSteps(c: Setup, ws: seq<World>, es: seq<Event>, added: Member, removed: MemberId, dek: Dek)
    requires Proper(c) && es == [AddMember(added), Lose, RemoveMember(removed, dek), Arrive] && removed != added.id
    requires Follows(c, ws, es) && Sound(c, ws[0]) && InStep(c, ws[0])
    requires ws[0].queue == [] && c.list in ws[0].store.lists && added.id !in ws[0].server.value.members
    ensures var l := ws[4].server;
            l.Some? && (l.value.epoch, added.id) in l.value.slots && added.id !in l.value.members
  {
    var w, w1, w2, w3 := ws[0], ws[1], ws[2], ws[3];
    assert Allowed(c, w, es[0]) && Allowed(c, w1, es[1]) && Allowed(c, w2, es[2]) && Allowed(c, w3, es[3]);
    LostAdd(c, w, w1, w2, added);
    StraySlot(c, w2, w3, added.id, removed, dek);
  }

  /** A lost add, after any run in step that left nothing waiting: the owner adds
      someone, the request is lost, and the next rotation still seals the new key to
      them. The server ends with a current slot of a non-member. */
  lemma LostAddLeavesStraySlot(c: Setup, before: seq<World>, bs: seq<Event>, ws: seq<World>, es: seq<Event>,
                               added: Member, removed: MemberId, dek: Dek)
    requires Proper(c) && Run(c, before, bs) && Lose !in bs && before[|bs|].queue == []
    requires forall i | 0 <= i < |bs| :: NotBehind(c, before[i], bs[i])
    requires c.list in before[|bs|].store.lists
    requires es == [AddMember(added), Lose, RemoveMember(removed, dek), Arrive] && removed != added.id
    requires Follows(c, ws, es) && ws[0] == before[|bs|]
    requires forall m | m in ws[0].store.lists[c.list].members :: m.id != added.id
    ensures var l := ws[4].server;
            l.Some? && (l.value.epoch, added.id) in l.value.slots && added.id !in l.value.members
  {
    assert bs[..|bs|] == bs;
    InStepAt(c, before, bs, |bs|);
    RolesHas(ws[0].store.lists[c.list].members, added.id);
    FourSteps(c, ws, es, added, removed, dek);
  }

  // ── a lost removal ────────────────────────────────────────────────────────

  /** A rotation sealed to members that leave out one the server still has. */
  lemma LeftOutServed(c: Setup, l: Listing, members: seq<Member>, lost: MemberId, removed: MemberId, epoch: Epoch,
                      dek: Dek)
    requires IsOwner(Some(l), c.me.id) && GoodKeys(l) && l.epoch <= epoch
    requires forall m | m in members :: m.id in c.users && m.id != lost
    requires lost in l.members && lost != removed
    ensures var r := Handled(c, l, Remove(removed, epoch, SealAll(Without(members, removed), dek)));
            r.Ok? && lost in r.value.members && (r.value.epoch, lost) !in r.value.slots
  {
    RotationServed(c, l, members, removed, epoch, dek);
    RolesHas(Without(members, removed), lost);
    WithoutFacts(members, removed);
  }

  lemma RemovalLost(c: Setup, w: World, w1: World, w2: World, lost: MemberId, dek: Dek)
    requires ClientSound(c, w) && w.queue == [] && c.list in w.store.lists
    requires Allowed(c, w, RemoveMember(lost, dek)) && w1 == Next(c, w, RemoveMember(lost, dek))
    requires Allowed(c, w1, Lose) && w2 == Next(c, w1, Lose)
    ensures var l := w.store.lists[c.list];
            && w2.queue == [] && w2.server == w.server && c.list in w2.store.lists
            && w2.store.lists[c.list].epoch == l.epoch + 1
            && w2.store.lists[c.list].members == Without(l.members, lost)
  {
  }

  /** The next rotation reaches the server without them. */
  lemma LeftOut(c: Setup, w: World, w': World, lost: MemberId, removed: MemberId, dek: Dek)
    requires w.queue == [] && c.list in w.store.lists
    requires IsOwner(w.server, c.me.id) && GoodKeys(w.server.value)
    requires w.server.value.epoch <= w.store.lists[c.list].epoch && lost in w.server.value.members
    requires forall m | m in w.store.lists[c.list].members :: m.id in c.users && m.id != lost
    requires removed != lost && Allowed(c, w, RemoveMember(removed, dek))
        && w' == Next(c, w, RemoveMember(removed, dek))
    ensures w'.queue != []
    ensures var l := Next(c, w', Arrive).server;
            l.Some? && lost in l.value.members && (l.value.epoch, lost) !in l.value.slots
  {
    RotationSent(c, w, removed, dek);
    var l := w.store.lists[c.list];
    LeftOutServed(c, w.server.value, l.members, lost, removed, l.epoch, dek);
    assert Next(c, w', Arrive).server == Some(Handled(c, w.server.value, w'.queue[0]).value);
  }

  lemma LostRemoval(c: Setup, w: World, w1: World, w2: World, lost: MemberId, dek: Dek)
    requires Proper(c) && Sound(c, w) && InStep(c, w) && w.queue == [] && c.list in w.store.lists
    requires Allowed(c, w, RemoveMember(lost, dek)) && w1 == Next(c, w, RemoveMember(lost, dek))
    requires Allowed(c, w1, Lose) && w2 == Next(c, w1, Lose)
    ensures Sound(c, w2) && w2.queue == [] && w2.server == w.server && IsOwner(w2.server, c.me.id)
        && GoodKeys(w2.server.value) && c.list in w2.store.lists
    ensures w2.server.value.epoch <= w2.store.lists[c.list].epoch
    ensures forall m | m in w2.store.lists[c.list].members :: m.id in c.users && m.id != lost
  {
    assert Sound(c, w2) by {
      RemoveKeepsSound(c, w, lost, dek);
      TakeKeepsSound(c, w1, Lose);
    }
    RemovalLost(c, w, w1, w2, lost, dek);
    WithoutFacts(w.store.lists[c.list].members, lost);
  }

  lemma FourStepsRemoval(c: Setup, ws: seq<World>, es: seq<Event>, lost: MemberId, dek: Dek, removed: MemberId,
                         dek': Dek)
    requires Proper(c) && es == [RemoveMember(lost, dek), Lose, RemoveMember(removed, dek'), Arrive]
    requires Follows(c, ws, es) && Sound(c, ws[0]) && InStep(c, ws[0]) && removed != lost
    requires ws[0].queue == [] && c.list in ws[0].store.lists && lost in ws[0].server.value.members
    ensures var l := ws[4].server;
            l.Some? && lost in l.value.members && (l.value.epoch, lost) !in l.value.slots
  {
    var w, w1, w2, w3 := ws[0], ws[1], ws[2], ws[3];
    assert Allowed(c, w, es[0]) && Allowed(c, w1, es[1]) && Allowed(c, w2, es[2]) && Allowed(c, w3, es[3]);
    LostRemoval(c, w, w1, w2, lost, dek);
    LeftOut(c, w2, w3, lost, removed, dek');
  }

  /** A lost removal, after any such run: the member stays at the server, and the next
      rotation gives them no slot. */
  lemma LostRemovalLeavesKeyless(c: Setup, before: seq<World>, bs: seq<Event>, ws: seq<World>, es: seq<Event>,
                                 lost: MemberId, dek: Dek, removed: MemberId, dek': Dek)
    requires Proper(c) && Run(c, before, bs) && Lose !in bs && before[|bs|].queue == []
    requires forall i | 0 <= i < |bs| :: NotBehind(c, before[i], bs[i])
    requires c.list in before[|bs|].store.lists
    requires exists m :: m in before[|bs|].store.lists[c.list].members && m.id == lost
    requires es == [RemoveMember(lost, dek), Lose, RemoveMember(removed, dek'), Arrive] && removed != lost
    requires Follows(c, ws, es) && ws[0] == before[|bs|]
    ensures var l := ws[4].server;
            l.Some? && lost in l.value.members && (l.value.epoch, lost) !in l.value.slots
  {
    assert bs[..|bs|] == bs;
    InStepAt(c, before, bs, |bs|);
    RolesHas(ws[0].store.lists[c.list].members, lost);
    FourStepsRemoval(c, ws, es, lost, dek, removed, dek');
  }
}
