/** What every run keeps about documents: the deltas a client enqueues are its
    edits, cut into disjoint pieces, and a document holds nothing but genuine
    updates and its owner's failed edits. */
module Deltas {
  import opened TodoDoc
  import opened Updates
  import opened Protocol

  /** The operations of some updates. */
  ghost function OpsOf(us: set<Update>): set<Op> {
    set u, op | u in us && op in u.ops :: op
  }

  ghost function All(produced: seq<Update>): set<Update> {
    set u | u in produced
  }

  /** A client's own history: each edit landed in one delta or was abandoned. */
  ghost predicate MineOk(h: History) {
    && (forall k | 0 <= k < |h.produced| :: h.produced[k].ops != {} && h.produced[k].ops !! h.abandoned)
    && (forall j, k | 0 <= j < k < |h.produced| :: h.produced[j].ops !! h.produced[k].ops)
    && h.authored == OpsOf(All(h.produced)) + h.abandoned
    && (forall op | op in h.authored :: op.peer in h.peers && Complete(h.authored, op))
    && h.savedLoose <= h.loose <= h.abandoned
  }

  /** The open document: its own peer's operations are complete and all there. */
  ghost predicate OpenOk(r: Replica) {
    && r.peer in r.hist.peers
    && Gapless(r.doc, r.peer)
    && (forall op: Op | op.peer == r.peer :: op in r.doc <==> op in r.hist.authored)
    && r.doc == OpsOf(r.hist.absorbed) + r.hist.loose
    && r.saved == OpsOf(r.hist.absorbed) + r.hist.savedLoose
  }

  ghost predicate Genuine(replicas: map<MemberId, Replica>, us: set<Update>) {
    forall u | u in us :: Verifies(replicas, u)
  }

  ghost predicate PeersApart(replicas: map<MemberId, Replica>) {
    forall m, n | m in replicas && n in replicas && m != n :: replicas[m].hist.peers !! replicas[n].hist.peers
  }

  ghost predicate DocOk(s: System, m: MemberId)
    requires m in s.replicas
  {
    MineOk(s.replicas[m].hist) && OpenOk(s.replicas[m]) && Genuine(s.replicas, s.replicas[m].hist.absorbed)
  }

  ghost predicate Inv(s: System) {
    PeersApart(s.replicas) && forall m | m in s.replicas :: DocOk(s, m)
  }

  // ── pieces ────────────────────────────────────────────────────────────────

  lemma OpsOfOneMore(us: set<Update>, u: Update)
    ensures OpsOf(us + {u}) == OpsOf(us) + u.ops
  {
  }

  lemma AllOneMore(produced: seq<Update>, u: Update)
    ensures All(produced + [u]) == All(produced) + {u}
    ensures OpsOf(All(produced + [u])) == OpsOf(All(produced)) + u.ops
  {
    OpsOfOneMore(All(produced), u);
  }

  /** The operations a client makes next were never made before. */
  lemma EditIsNew(r: Replica, n: nat)
    requires MineOk(r.hist) && OpenOk(r)
    ensures var made := NewOps(r.doc, r.peer, n);
            && ExportUpdatesFrom(r.doc + made, Version(r.doc)) == made
            && made !! r.hist.authored && made !! r.doc
            && Gapless(r.doc + made, r.peer)
            && (forall op | op in made :: op.peer == r.peer)
            && forall op | op in r.hist.authored + made :: Complete(r.hist.authored + made, op)
  {
    DeltaIsTheEdit(r.doc, r.peer, n);
    var made := NewOps(r.doc, r.peer, n);
    var all := r.hist.authored + made;
    forall op | op in all
      ensures Complete(all, op)
    {
      if op in made {
        assert Complete(r.doc + made, op);
        forall k | 0 <= k <= op.counter
          ensures Op(op.peer, k) in all
        {
          assert Op(op.peer, k) in r.doc + made;
        }
      } else {
        assert Complete(r.hist.authored, op);
      }
    }
  }

  lemma MineAfterEdit(h: History, made: set<Op>, u: Update, peer: Peer)
    requires MineOk(h) && made !! h.authored && peer in h.peers && u.ops == made && made != {}
    requires forall op | op in made :: op.peer == peer
    requires forall op | op in h.authored + made :: Complete(h.authored + made, op)
    ensures MineOk(h.(authored := h.authored + made, produced := h.produced + [u]))
  {
    AllOneMore(h.produced, u);
    forall k | 0 <= k < |h.produced|
      ensures h.produced[k].ops !! made
    {
      assert h.produced[k] in All(h.produced);
      assert h.produced[k].ops <= h.authored;
    }
  }

  lemma FailedEditKeeps(r: Replica, n: nat)
    requires MineOk(r.hist) && OpenOk(r)
    ensures MineOk(FailedEdit(r, n).hist) && OpenOk(FailedEdit(r, n))
  {
    var made := NewOps(r.doc, r.peer, n);
    EditIsNew(r, n);
    forall k | 0 <= k < |r.hist.produced|
      ensures r.hist.produced[k].ops !! made
    {
      assert r.hist.produced[k] in All(r.hist.produced);
      assert r.hist.produced[k].ops <= r.hist.authored;
    }
  }

  lemma EditKeeps(r: Replica, list: ListId, m: MemberId, n: nat, gap: nat)
    requires MineOk(r.hist) && OpenOk(r)
    ensures MineOk(EditDoc(r, list, m, n, gap).hist) && OpenOk(EditDoc(r, list, m, n, gap))
  {
    var made := NewOps(r.doc, r.peer, n);
    EditIsNew(r, n);
    if r.epoch !in r.deks {
      FailedEditKeeps(r, n);
    } else if made != {} {
      var u := Update(list, r.epoch, m, |r.hist.produced|, made);
      MineAfterEdit(r.hist, made, u, r.peer);
      OpsOfOneMore(r.hist.absorbed, u);
    }
  }

  /** Whatever a document holds was made under a peer id some client used. */
  lemma PeersKnown(s: System, m: MemberId, op: Op)
    requires Inv(s) && m in s.replicas && op in s.replicas[m].doc + s.replicas[m].saved
    ensures exists n :: n in s.replicas && op in s.replicas[n].hist.authored && op.peer in s.replicas[n].hist.peers
  {
    var h := s.replicas[m].hist;
    assert DocOk(s, m);
    if op in h.loose {
    } else {
      var u :| u in h.absorbed && op in u.ops;
      AuthoredByAuthor(s, u);
    }
  }

  lemma AuthoredInHistory(h: History, u: Update)
    requires MineOk(h) && Produced(h.produced, u)
    ensures u.ops <= h.authored && u.ops != {} && u.ops !! h.abandoned
    ensures forall op | op in u.ops :: op.peer in h.peers
  {
    assert u in All(h.produced);
    assert u.ops <= OpsOf(All(h.produced));
  }

  lemma AuthoredByAuthor(s: System, u: Update)
    requires Inv(s) && Verifies(s.replicas, u)
    ensures u.ops <= s.replicas[u.author].hist.authored && u.ops != {}
    ensures forall op | op in u.ops :: op.peer in s.replicas[u.author].hist.peers
  {
    assert DocOk(s, u.author);
    AuthoredInHistory(s.replicas[u.author].hist, u);
  }

  lemma ReopenKeeps(r: Replica, peer: Peer)
    requires MineOk(r.hist) && peer !in r.hist.peers
    requires r.saved == OpsOf(r.hist.absorbed) + r.hist.savedLoose
    requires forall op | op in r.saved :: op.peer != peer
    ensures MineOk(Reopen(r, peer).hist) && OpenOk(Reopen(r, peer))
  {
  }

  lemma ImportKeeps(r: Replica, u: Update)
    requires MineOk(r.hist) && OpenOk(r)
    requires forall op | op in u.ops :: op.peer != r.peer
    ensures var doc := Import(r.doc, u.ops);
            OpenOk(r.(doc := doc, saved := doc,
                      hist := r.hist.(absorbed := r.hist.absorbed + {u}, savedLoose := r.hist.loose)))
  {
    OpsOfOneMore(r.hist.absorbed, u);
    var doc := Import(r.doc, u.ops);
    forall k: nat | Op(r.peer, k) in doc
      ensures Complete(doc, Op(r.peer, k))
    {
      assert Complete(r.doc, Op(r.peer, k));
    }
  }

  // ── every step ────────────────────────────────────────────────────────────

  /** What is left of a client whose edit was queued and not saved. */
  function Cut(r: Replica, list: ListId, m: MemberId, n: nat, gap: nat): Replica {
    var e := EditDoc(r, list, m, n, gap);
    e.(saved := r.saved, hist := e.hist.(absorbed := r.hist.absorbed, savedLoose := r.hist.savedLoose))
  }

  lemma CutKeeps(r: Replica, list: ListId, m: MemberId, n: nat, gap: nat)
    requires MineOk(r.hist) && OpenOk(r)
    ensures var cut := Cut(r, list, m, n, gap);
            && MineOk(cut.hist) && cut.hist.peers == r.hist.peers && cut.saved == r.saved
            && cut.saved == OpsOf(cut.hist.absorbed) + cut.hist.savedLoose
  {
    EditKeeps(r, list, m, n, gap);
    assert r.hist.loose <= EditDoc(r, list, m, n, gap).hist.loose;
  }

  lemma DieKeeps(s: System, m: MemberId, n: nat, gap: nat, peer: Peer)
    requires Inv(s) && m in s.replicas && Unused(s.replicas, peer)
    ensures var r := EditThenDie(s.replicas[m], s.list, m, n, gap, peer); MineOk(r.hist) && OpenOk(r)
  {
    assert DocOk(s, m);
    CutKeeps(s.replicas[m], s.list, m, n, gap);
    SavedAvoids(s, m, peer);
    ReopenKeeps(Cut(s.replicas[m], s.list, m, n, gap), peer);
  }

  /** The parts of a replica these invariants speak of. */
  lemma SameDocument(r: Replica, r': Replica)
    requires MineOk(r.hist) && OpenOk(r)
    requires r'.doc == r.doc && r'.saved == r.saved && r'.peer == r.peer
    requires r'.hist.(presented := r.hist.presented) == r.hist
    ensures MineOk(r'.hist) && OpenOk(r')
  {
  }

  /** Presenting either imports the update or changes no document. */
  lemma PresentShape(r: Replica, replicas: map<MemberId, Replica>, m: MemberId)
    requires r.inbox != []
    ensures var u, r' := r.inbox[0].update, PresentNext(r, replicas, m);
            var doc := Import(r.doc, u.ops);
            var merged := r.(doc := doc, saved := doc,
                             hist := r.hist.(absorbed := r.hist.absorbed + {u}, savedLoose := r.hist.loose));
            || (r'.doc == r.doc && r'.saved == r.saved && r'.peer == r.peer
                  && r'.hist.(presented := r.hist.presented) == r.hist)
            || (u.author != m && Verifies(replicas, u)
                && r'.doc == merged.doc && r'.saved == merged.saved && r'.peer == merged.peer
                && r'.hist.(presented := merged.hist.presented) == merged.hist)
  {
  }

  lemma PresentKeeps(s: System, m: MemberId)
    requires Inv(s) && m in s.replicas && s.replicas[m].inbox != []
    ensures var r := PresentNext(s.replicas[m], s.replicas, m); MineOk(r.hist) && OpenOk(r)
  {
    var r := s.replicas[m];
    assert DocOk(s, m);
    var u := r.inbox[0].update;
    PresentShape(r, s.replicas, m);
    var r' := PresentNext(r, s.replicas, m);
    if r'.doc == r.doc && r'.saved == r.saved && r'.hist.(presented := r.hist.presented) == r.hist {
      SameDocument(r, r');
    } else {
      AuthoredByAuthor(s, u);
      ImportKeeps(r, u);
      var doc := Import(r.doc, u.ops);
      SameDocument(r.(doc := doc, saved := doc,
                      hist := r.hist.(absorbed := r.hist.absorbed + {u}, savedLoose := r.hist.loose)), r');
    }
  }

  lemma Untouched(s: System, m: MemberId, act: Act)
    requires m in s.replicas && !act.Edit? && !act.EditFails? && !act.EditCut? && !act.Restart? && !act.Present?
    ensures var r, r' := s.replicas[m], ClientStep(s, m, act);
            r'.doc == r.doc && r'.saved == r.saved && r'.peer == r.peer && r'.hist == r.hist
  {
  }

  lemma ActorKeeps(s: System, m: MemberId, act: Act)
    requires Inv(s) && m in s.replicas
    ensures MineOk(ClientStep(s, m, act).hist) && OpenOk(ClientStep(s, m, act))
  {
    assert DocOk(s, m);
    if act.Edit? {
      EditKeeps(s.replicas[m], s.list, m, act.n, act.gap);
    } else if act.EditFails? {
      FailedEditKeeps(s.replicas[m], act.n);
    } else if act.EditCut? {
      if Unused(s.replicas, act.peer) { DieKeeps(s, m, act.n, act.gap, act.peer); }
    } else if act.Restart? {
      if Unused(s.replicas, act.peer) {
        SavedAvoids(s, m, act.peer);
        ReopenKeeps(s.replicas[m], act.peer);
      }
    } else if act.Present? {
      if s.replicas[m].inbox != [] { PresentKeeps(s, m); }
    } else {
      Untouched(s, m, act);
    }
  }

  lemma SavedAvoids(s: System, m: MemberId, peer: Peer)
    requires Inv(s) && m in s.replicas && Unused(s.replicas, peer)
    ensures forall op | op in s.replicas[m].saved :: op.peer != peer
  {
    forall op | op in s.replicas[m].saved
      ensures op.peer != peer
    {
      PeersKnown(s, m, op);
    }
  }

  lemma Grows(s: System, m: MemberId, act: Act)
    requires m in s.replicas
    ensures s.replicas[m].hist.produced <= ClientStep(s, m, act).hist.produced
    ensures forall p | p in ClientStep(s, m, act).hist.peers ::
      p in s.replicas[m].hist.peers || Unused(s.replicas, p)
    ensures forall u | Verifies(s.replicas, u) :: Verifies(Step(s, At(m, act)).replicas, u)
  {
  }

  /** Only a client's own edit or a genuine update enters its saved document. */
  lemma AbsorbsGenuine(s: System, m: MemberId, act: Act, u: Update)
    requires m in s.replicas && u in ClientStep(s, m, act).hist.absorbed
    ensures u in s.replicas[m].hist.absorbed || Verifies(Step(s, At(m, act)).replicas, u)
  {
    Grows(s, m, act);
    if act.Edit? && u !in s.replicas[m].hist.absorbed {
      var produced := s.replicas[m].hist.produced;
      assert ClientStep(s, m, act).hist.produced == produced + [u];
      assert u.ordinal == |produced| && u.author == m;
    }
  }

  lemma ApartKeeps(s: System, m: MemberId, act: Act)
    requires PeersApart(s.replicas) && m in s.replicas
    ensures PeersApart(Step(s, At(m, act)).replicas)
  {
    Grows(s, m, act);
  }

  lemma ActorDocOk(s: System, m: MemberId, act: Act)
    requires Inv(s) && m in s.replicas
    ensures DocOk(Step(s, At(m, act)), m)
  {
    assert DocOk(s, m);
    Grows(s, m, act);
    ActorKeeps(s, m, act);
    var s' := Step(s, At(m, act));
    assert s'.replicas[m] == ClientStep(s, m, act);
    forall u | u in s'.replicas[m].hist.absorbed
      ensures Verifies(s'.replicas, u)
    {
      AbsorbsGenuine(s, m, act, u);
    }
  }

  lemma GenuineStays(s: System, ev: Event, us: set<Update>)
    requires Genuine(s.replicas, us)
    ensures Genuine(Step(s, ev).replicas, us)
  {
    if ev.At? && ev.m in s.replicas {
      Grows(s, ev.m, ev.act);
    }
  }

  lemma SameReplicaSameOk(s: System, s': System, m: MemberId)
    requires m in s.replicas && DocOk(s, m)
    requires m in s'.replicas && s'.replicas[m] == s.replicas[m]
    requires Genuine(s'.replicas, s.replicas[m].hist.absorbed)
    ensures DocOk(s', m)
  {
  }

  lemma OthersDocOk(s: System, ev: Event, m: MemberId)
    requires m in s.replicas && DocOk(s, m) && (ev.At? ==> ev.m != m)
    ensures m in Step(s, ev).replicas && DocOk(Step(s, ev), m)
  {
    GenuineStays(s, ev, s.replicas[m].hist.absorbed);
    SameReplicaSameOk(s, Step(s, ev), m);
  }

  lemma StepKeeps(s: System, ev: Event)
    requires Inv(s)
    ensures Inv(Step(s, ev))
  {
    if ev.At? && ev.m in s.replicas {
      ApartKeeps(s, ev.m, ev.act);
    }
    forall m | m in s.replicas
      ensures DocOk(Step(s, ev), m)
    {
      if ev.At? && ev.m == m {
        ActorDocOk(s, m, ev.act);
      } else {
        OthersDocOk(s, ev, m);
      }
    }
  }

  lemma InitOk(s: System)
    requires Init(s)
    ensures Inv(s)
  {
    forall m | m in s.replicas
      ensures DocOk(s, m)
    {
      assert s.replicas[m].hist.peers == {s.replicas[m].peer};
    }
  }

  lemma {:induction false} RunKeeps(s: System, evs: seq<Event>)
    requires Inv(s)
    ensures Inv(Run(s, evs))
    decreases |evs|
  {
    if evs != [] {
      StepKeeps(s, evs[0]);
      RunKeeps(Step(s, evs[0]), evs[1..]);
    }
  }

  // ── what it means ─────────────────────────────────────────────────────────

  lemma ClientsApart(s: System, m: MemberId, n: MemberId)
    requires Inv(s) && m in s.replicas && n in s.replicas && m != n
    ensures s.replicas[n].hist.authored !! s.replicas[m].hist.authored
  {
    assert DocOk(s, n) && DocOk(s, m);
    forall op | op in s.replicas[n].hist.authored
      ensures op !in s.replicas[m].hist.authored
    {
      assert op.peer in s.replicas[n].hist.peers;
    }
  }

  lemma DeltasAreTheRest(h: History)
    requires MineOk(h)
    ensures OpsOf(All(h.produced)) == h.authored - h.abandoned
  {
    forall op | op in OpsOf(All(h.produced))
      ensures op !in h.abandoned
    {
      var u :| u in All(h.produced) && op in u.ops;
      var k :| 0 <= k < |h.produced| && h.produced[k] == u;
    }
  }

  /** Across any interleaving of edits, merges, failures and restarts, the deltas
      a client enqueued are disjoint and together are exactly the operations of
      its edits that did not fail; no two clients ever make the same operation. */
  lemma DeltasPartitionTheEdits(s0: System, evs: seq<Event>, m: MemberId)
    requires Init(s0) && m in Run(s0, evs).replicas
    ensures var h := Run(s0, evs).replicas[m].hist;
            && (forall j, k | 0 <= j < k < |h.produced| :: h.produced[j].ops !! h.produced[k].ops)
            && OpsOf(All(h.produced)) == h.authored - h.abandoned
            && (forall n | n in Run(s0, evs).replicas && n != m ::
                  Run(s0, evs).replicas[n].hist.authored !! h.authored)
  {
    InitOk(s0);
    RunKeeps(s0, evs);
    var s := Run(s0, evs);
    assert DocOk(s, m);
    DeltasAreTheRest(s.replicas[m].hist);
    forall n | n in s.replicas && n != m
      ensures s.replicas[n].hist.authored !! s.replicas[m].hist.authored
    {
      ClientsApart(s, m, n);
    }
  }

  /** Nothing forged gets in: whatever the relay hands over, each operation of a
      document was made by a client of the list, and each one made by somebody
      else came in an update that client signed. */
  lemma DocumentsAreGenuine(s0: System, evs: seq<Event>, m: MemberId, op: Op)
    requires Init(s0) && m in Run(s0, evs).replicas && op in Run(s0, evs).replicas[m].doc
    ensures var s := Run(s0, evs);
            || op in s.replicas[m].hist.authored
            || exists u :: Verifies(s.replicas, u) && u.author != m && op in u.ops
  {
    InitOk(s0);
    RunKeeps(s0, evs);
    var s := Run(s0, evs);
    assert DocOk(s, m);
    var h := s.replicas[m].hist;
    if op !in h.loose {
      var u :| u in h.absorbed && op in u.ops;
      AuthoredByAuthor(s, u);
    }
  }

  lemma GenuineShareNothing(s: System, u: Update, v: Update)
    requires Inv(s) && Verifies(s.replicas, u) && Verifies(s.replicas, v) && u != v
    ensures u.ops !! v.ops
  {
    assert DocOk(s, u.author);
    AuthoredByAuthor(s, u);
    AuthoredByAuthor(s, v);
    if u.author == v.author {
      var produced := s.replicas[u.author].hist.produced;
      assert produced[u.ordinal].ops !! produced[v.ordinal].ops by {
        assert u.ordinal < v.ordinal || v.ordinal < u.ordinal;
      }
    } else {
      assert s.replicas[u.author].hist.peers !! s.replicas[v.author].hist.peers;
    }
  }

  /** In every run two different genuine updates share no operation, whoever made
      them. */
  lemma UpdatesShareNothing(s0: System, evs: seq<Event>, u: Update, v: Update)
    requires Init(s0) && Verifies(Run(s0, evs).replicas, u) && Verifies(Run(s0, evs).replicas, v) && u != v
    ensures u.ops !! v.ops
  {
    InitOk(s0);
    RunKeeps(s0, evs);
    GenuineShareNothing(Run(s0, evs), u, v);
  }

  /** An abandoned operation is in no update. */
  lemma AbandonedIsNowhere(s: System, m: MemberId, u: Update)
    requires Inv(s) && m in s.replicas && Verifies(s.replicas, u)
    ensures s.replicas[m].hist.abandoned !! u.ops
  {
    assert DocOk(s, m);
    AuthoredByAuthor(s, u);
    if u.author == m {
      assert u == s.replicas[m].hist.produced[u.ordinal];
    } else {
      assert s.replicas[m].hist.peers !! s.replicas[u.author].hist.peers;
    }
  }

  /** A genuine update missing at one client, or an operation left over from a
      failed edit, always shows as a difference. */
  lemma SameDocSameUpdates(s: System, a: MemberId, b: MemberId)
    requires Inv(s) && a in s.replicas && b in s.replicas && s.replicas[a].doc == s.replicas[b].doc
    ensures s.replicas[a].hist.absorbed <= s.replicas[b].hist.absorbed
  {
    assert DocOk(s, a) && DocOk(s, b);
    forall u | u in s.replicas[a].hist.absorbed
      ensures u in s.replicas[b].hist.absorbed
    {
      assert u.ops != {} by {
        assert DocOk(s, u.author);
        assert s.replicas[u.author].hist.produced[u.ordinal] == u;
      }
      var op :| op in u.ops;
      assert op in OpsOf(s.replicas[a].hist.absorbed);
      AbandonedIsNowhere(s, b, u);
      var v :| v in s.replicas[b].hist.absorbed && op in v.ops;
      if v != u {
        GenuineShareNothing(s, u, v);
      }
    }
  }

  lemma SameDocNothingLoose(s: System, a: MemberId, b: MemberId)
    requires Inv(s) && a in s.replicas && b in s.replicas && a != b
    requires s.replicas[a].doc == s.replicas[b].doc
    ensures s.replicas[a].hist.loose == {}
  {
    assert DocOk(s, a) && DocOk(s, b);
    forall op | op in s.replicas[a].hist.loose
      ensures false
    {
      assert op in s.replicas[b].doc && op.peer in s.replicas[a].hist.peers;
      if op !in s.replicas[b].hist.loose {
        var v :| v in s.replicas[b].hist.absorbed && op in v.ops;
        AbandonedIsNowhere(s, a, v);
      }
    }
  }

  /** Exactly when two clients hold the same operations, in every reachable
      state: they absorbed the same updates and neither carries a failed edit. */
  lemma SameDocumentIff(s0: System, evs: seq<Event>, a: MemberId, b: MemberId)
    requires Init(s0) && a in Run(s0, evs).replicas && b in Run(s0, evs).replicas && a != b
    ensures var s := Run(s0, evs);
            s.replicas[a].doc == s.replicas[b].doc <==>
              && s.replicas[a].hist.absorbed == s.replicas[b].hist.absorbed
              && s.replicas[a].hist.loose == {} && s.replicas[b].hist.loose == {}
  {
    InitOk(s0);
    RunKeeps(s0, evs);
    var s := Run(s0, evs);
    assert DocOk(s, a) && DocOk(s, b);
    if s.replicas[a].doc == s.replicas[b].doc {
      SameDocSameUpdates(s, a, b);
      SameDocSameUpdates(s, b, a);
      SameDocNothingLoose(s, a, b);
      SameDocNothingLoose(s, b, a);
    }
  }
}
