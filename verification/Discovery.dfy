/** What a client can check before it ingests a listing
    (todoers-client/src/store.rs:530-569), which the program does not, and what
    becomes of its rotations exactly when it does. */
module Discovery {
  import opened Updates
  import opened Keys
  import opened ServerLists
  import opened StoreKeys
  import opened KeyRefinement
  import opened Rotation

  /** A rotation made now would take a fresh epoch and seal to nobody removed. */
  predicate UpToDate(c: Setup, w: World) {
    FreshEpoch(c, w) && (c.list in w.store.lists ==> forall m | m in w.store.lists[c.list].members :: m.id !in w.left)
  }

  /** The listing's epoch is not below the client's own, and it names nobody the
      client removed and did not add again. */
  predicate Newer(c: Setup, w: World)
    requires w.fetched != [] && c.list in w.store.lists
  {
    w.store.lists[c.list].epoch <= w.fetched[0].epoch && forall id | id in w.fetched[0].members :: id !in w.left
  }

  /** A listing is ingested that is newer. */
  predicate IngestsNewer(c: Setup, w: World, e: Event) {
    e.Ingest? && w.fetched != [] && c.list in w.store.lists ==> Newer(c, w)
  }

  // ── one step ──────────────────────────────────────────────────────────────

  lemma ListedEpochIff(drawn: seq<Draw>, own: Epoch, listed: Epoch)
    requires NoGap(drawn) && DrawnAt(drawn, own) && DrawnAt(drawn, listed) && !DrawnAt(drawn, own + 1)
    ensures !DrawnAt(drawn, listed + 1) <==> own <= listed
  {
    var o :| o in drawn && o.epoch == own;
    var d :| d in drawn && d.epoch == listed;
  }

  lemma DrawnBelow(drawn: seq<Draw>, e: Epoch, below: Epoch)
    requires NoGap(drawn) && DrawnAt(drawn, e) && 1 <= below <= e
    ensures DrawnAt(drawn, below)
  {
  }

  lemma TwoAhead(drawn: seq<Draw>, epoch: Epoch)
    requires NoGap(drawn) && DrawnAt(drawn, epoch) && !DrawnAt(drawn, epoch + 1)
    ensures !DrawnAt(drawn, epoch + 2)
  {
    var o :| o in drawn && o.epoch == epoch;
    if DrawnAt(drawn, epoch + 2) {
      DrawnBelow(drawn, epoch + 2, epoch + 1);
    }
  }

  /** After a directory is merged nobody listed was removed if and only if nobody in
      the directory was, given that nobody listed before was. */
  lemma MergedIff(l: Listing, mine: seq<Member>, members: seq<Member>, left: map<MemberId, nat>)
    requires Roles(members) == l.members && DistinctIds(members)
    requires forall m | m in mine :: m.id !in left
    ensures (forall m | m in UpsertAll(mine, members) :: m.id !in left)
       <==> (forall id | id in l.members :: id !in left)
  {
    if forall m | m in UpsertAll(mine, members) :: m.id !in left {
      forall id | id in l.members
        ensures id !in left
      {
        RolesHas(members, id);
        var m :| m in members && m.id == id;
        UpsertAllHas(mine, members, m);
      }
    }
    if forall id | id in l.members :: id !in left {
      forall m | m in UpsertAll(mine, members)
        ensures m.id !in left
      {
        UpsertAllHas(mine, members, m);
        RolesHas(members, m.id);
      }
    }
  }

  lemma FreshAfterIff(c: Setup, drawn: seq<Draw>, issued: set<(Epoch, Wrapped)>, l: LocalList, f: Listing,
                      members: seq<Member>)
    requires Proper(c) && RowsSound(c, drawn, l) && DrawsSound(drawn, issued) && ListingSound(c, issued, f)
    requires Directory(c, f, members) && l.epoch + 1 !in l.slots
    ensures f.epoch + 1 !in Merged(c, l, f, members).slots <==> l.epoch <= f.epoch
  {
    EpochIsDrawn(c, drawn, issued, f);
    ListedEpochIff(drawn, l.epoch, f.epoch);
    RowsIngested(c, drawn, issued, l, f, members);
  }

  lemma IngestFreshIff(c: Setup, w: World, members: seq<Member>)
    requires Proper(c) && Sound(c, w) && Allowed(c, w, Ingest(members)) && FreshEpoch(c, w) && c.list in w.store.lists
    ensures FreshEpoch(c, Next(c, w, Ingest(members))) <==> w.store.lists[c.list].epoch <= w.fetched[0].epoch
  {
    IngestMerges(c, w, members);
    FreshAfterIff(c, w.drawn, w.issued, w.store.lists[c.list], w.fetched[0], members);
  }

  lemma IngestIff(c: Setup, w: World, members: seq<Member>)
    requires Proper(c) && Sound(c, w) && Allowed(c, w, Ingest(members)) && UpToDate(c, w) && c.list in w.store.lists
    ensures UpToDate(c, Next(c, w, Ingest(members))) <==> Newer(c, w)
  {
    IngestMerges(c, w, members);
    IngestFreshIff(c, w, members);
    MergedIff(w.fetched[0], w.store.lists[c.list].members, members, w.left);
  }

  lemma RotationStaysUpToDate(c: Setup, w: World, id: MemberId, dek: Dek)
    requires Sound(c, w) && Allowed(c, w, RemoveMember(id, dek)) && UpToDate(c, w)
    ensures UpToDate(c, Next(c, w, RemoveMember(id, dek)))
  {
    if c.list in w.store.lists {
      var l := w.store.lists[c.list];
      WithoutFacts(l.members, id);
      TwoAhead(w.drawn, l.epoch);
    }
  }

  lemma StepUpToDateIff(c: Setup, w: World, e: Event)
    requires Proper(c) && Sound(c, w) && Allowed(c, w, e) && UpToDate(c, w)
    ensures UpToDate(c, Next(c, w, e)) <==> IngestsNewer(c, w, e)
  {
    match e
    case AddMember(m) =>
      if c.list in w.store.lists {
        UpsertHas(w.store.lists[c.list].members, m);
      }
    case RemoveMember(id, dek) => RotationStaysUpToDate(c, w, id, dek);
    case Ingest(members) => IngestIff(c, w, members);
    case _ =>
  }

  // ── whole runs ────────────────────────────────────────────────────────────

  lemma {:induction false} UpToDateAt(c: Setup, ws: seq<World>, es: seq<Event>, n: nat)
    requires Proper(c) && Run(c, ws, es) && n <= |es|
    requires forall i | 0 <= i < n :: IngestsNewer(c, ws[i], es[i])
    ensures UpToDate(c, ws[n])
    decreases n
  {
    if n > 0 {
      UpToDateAt(c, ws, es, n - 1);
      RunKeepsSound(c, ws, es, n - 1);
      StepUpToDateIff(c, ws[n - 1], es[n - 1]);
    }
  }

  /** Over whole runs, whatever is lost: at every moment a rotation would take a fresh
      epoch and seal to nobody removed, if and only if each listing ingested was
      newer. */
  lemma UpToDateIff(c: Setup, ws: seq<World>, es: seq<Event>)
    requires Proper(c) && Run(c, ws, es)
    ensures (forall i | 0 <= i <= |es| :: UpToDate(c, ws[i]))
       <==> (forall i | 0 <= i < |es| :: IngestsNewer(c, ws[i], es[i]))
  {
    if forall i | 0 <= i <= |es| :: UpToDate(c, ws[i]) {
      forall i | 0 <= i < |es|
        ensures IngestsNewer(c, ws[i], es[i])
      {
        RunKeepsSound(c, ws, es, i);
        assert UpToDate(c, ws[i]) && UpToDate(c, ws[i + 1]);
        StepUpToDateIff(c, ws[i], es[i]);
      }
    }
    if forall i | 0 <= i < |es| :: IngestsNewer(c, ws[i], es[i]) {
      forall i | 0 <= i <= |es|
        ensures UpToDate(c, ws[i])
      {
        UpToDateAt(c, ws, es, i);
      }
    }
  }

  /** So with listings ingested only when newer, each epoch has one key and removed
      members get none drawn since, whatever is lost. */
  lemma NewerListingsAreSafe(c: Setup, ws: seq<World>, es: seq<Event>, n: nat)
    requires Proper(c) && Run(c, ws, es) && n <= |es|
    requires forall i | 0 <= i < |es| :: IngestsNewer(c, ws[i], es[i])
    ensures OneKeyEach(ws[n].issued) && RemovedOut(c, ws[n])
  {
    forall i | 0 <= i < |es| && es[i].RemoveMember?
      ensures FreshEpoch(c, ws[i]) && SealsToPresent(c, ws[i], es[i].removed)
    {
      UpToDateAt(c, ws, es, i);
    }
    OneKeyUpTo(c, ws, es, n);
    OutUpTo(c, ws, es, n);
  }

  /** The listing names nobody removed, one aside. */
  predicate NamesNone(f: Listing, aside: MemberId, left: map<MemberId, nat>) {
    forall id | id in f.members && id != aside :: id !in left
  }

  /** And no listing can be let off: after any such run, the rotation right after an
      ingest keeps both exactly when the listing's epoch was not below the client's
      and nobody it names, the one now removed aside, was removed before. */
  lemma NextRotationIff(c: Setup, ws: seq<World>, es: seq<Event>, n: nat)
    requires Proper(c) && Run(c, ws, es) && n + 2 == |es| && c.list in ws[n].store.lists
    requires es[n].Ingest? && es[n + 1].RemoveMember?
    requires forall i | 0 <= i < n :: IngestsNewer(c, ws[i], es[i])
    ensures ws[n].fetched != []
    ensures OneKeyEach(ws[n + 2].issued) && RemovedOut(c, ws[n + 2])
       <==> && ws[n].store.lists[c.list].epoch <= ws[n].fetched[0].epoch
            && NamesNone(ws[n].fetched[0], es[n + 1].removed, ws[n].left)
  {
    var w, w1, removed := ws[n], ws[n + 1], es[n + 1].removed;
    UpToDateAt(c, ws, es, n);
    forall i | 0 <= i < n && es[i].RemoveMember?
      ensures FreshEpoch(c, ws[i]) && SealsToPresent(c, ws[i], es[i].removed)
    {
      UpToDateAt(c, ws, es, i);
    }
    OneKeyUpTo(c, ws, es, n + 1);
    OutUpTo(c, ws, es, n + 1);
    RunKeepsSound(c, ws, es, n);
    RunKeepsSound(c, ws, es, n + 1);
    RunKeepsOwnerGets(c, ws, es, n + 1);
    RunKeepsLeft(c, ws, es, n + 1);
    StepOneKeyIff(c, w1, es[n + 1]);
    StepOutIff(c, w1, es[n + 1]);
    IngestFreshIff(c, w, es[n].members);
    NamesNoneIff(c, w, es[n].members, removed);
  }

  lemma NamesNoneIff(c: Setup, w: World, members: seq<Member>, removed: MemberId)
    requires Allowed(c, w, Ingest(members)) && UpToDate(c, w) && c.list in w.store.lists
    ensures SealsToPresent(c, Next(c, w, Ingest(members)), removed) <==> NamesNone(w.fetched[0], removed, w.left)
  {
    IngestMerges(c, w, members);
    MergedIff(w.fetched[0], w.store.lists[c.list].members, members, w.left - {removed});
  }
}
