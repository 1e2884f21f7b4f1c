/** What a client shows of another's edits, failed ones included, and what it never
    shows of its own. */
module Readers {
  import opened TodoDoc
  import opened Updates
  import opened Protocol
  import Upload
  import Deltas

  ghost predicate Inv(s: System) {
    Upload.Inv(s) && Deltas.Inv(s)
  }

  lemma RunInv(s0: System, evs: seq<Event>)
    requires Init(s0)
    ensures Inv(Run(s0, evs))
  {
    Upload.InitOk(s0);
    Upload.RunKeeps(s0, evs);
    Deltas.InitOk(s0);
    Deltas.RunKeeps(s0, evs);
  }

  lemma ProducedVerifies(s: System, a: MemberId, u: Update)
    requires Upload.Inv(s) && a in s.replicas && u in s.replicas[a].hist.produced
    ensures u.author == a && Verifies(s.replicas, u)
  {
    assert Upload.ReplicaOk(s, a);
    var k :| 0 <= k < |s.replicas[a].hist.produced| && s.replicas[a].hist.produced[k] == u;
  }

  // ── another's edits ───────────────────────────────────────────────────────

  /** Up to `op`, none of its peer's operations was left behind by an edit of `a`
      that failed, and each update that carries one has been absorbed by `m`. */
  ghost predicate ArrivedUpTo(s: System, m: MemberId, a: MemberId, op: Op)
    requires m in s.replicas && a in s.replicas
  {
    forall k | 0 <= k <= op.counter :: Arrived(s, m, a, Op(op.peer, k))
  }

  ghost predicate Arrived(s: System, m: MemberId, a: MemberId, op: Op)
    requires m in s.replicas && a in s.replicas
  {
    && op !in s.replicas[a].hist.abandoned
    && forall v | v in s.replicas[a].hist.produced && op in v.ops :: v in s.replicas[m].hist.absorbed
  }

  lemma ArrivedIsHeld(s: System, m: MemberId, a: MemberId, op: Op)
    requires Inv(s) && m in s.replicas && a in s.replicas && op in s.replicas[a].hist.authored && Arrived(s, m, a, op)
    ensures op in s.replicas[m].doc
  {
    var h := s.replicas[a].hist;
    assert Deltas.DocOk(s, a) && Deltas.DocOk(s, m);
    assert op in Deltas.OpsOf(Deltas.All(h.produced));
    var v :| v in Deltas.All(h.produced) && op in v.ops;
    assert op in Deltas.OpsOf(s.replicas[m].hist.absorbed);
  }

  /** A client's own leftovers are of its own peers. */
  lemma LooseIsOwn(s: System, m: MemberId, a: MemberId, op: Op)
    requires Deltas.Inv(s) && m in s.replicas && a in s.replicas && m != a && op.peer in s.replicas[a].hist.peers
    ensures op !in s.replicas[m].hist.loose
  {
    assert Deltas.DocOk(s, m);
    assert s.replicas[m].hist.peers !! s.replicas[a].hist.peers;
  }

  lemma HeldHasArrived(s: System, m: MemberId, a: MemberId, op: Op)
    requires Inv(s) && m in s.replicas && a in s.replicas && m != a
    requires op in s.replicas[m].doc && op.peer in s.replicas[a].hist.peers
    ensures Arrived(s, m, a, op)
  {
    assert Deltas.DocOk(s, m);
    LooseIsOwn(s, m, a, op);
    var w :| w in s.replicas[m].hist.absorbed && op in w.ops;
    Deltas.AbandonedIsNowhere(s, a, w);
    forall v | v in s.replicas[a].hist.produced && op in v.ops
      ensures v in s.replicas[m].hist.absorbed
    {
      ProducedVerifies(s, a, v);
      if v != w {
        Deltas.GenuineShareNothing(s, v, w);
      }
    }
  }

  /** In every run, exactly which of another's operations a client shows: those
      before which no failed edit of the same peer lies and all of whose updates,
      and the earlier ones', have been absorbed. */
  lemma ShownIff(s0: System, evs: seq<Event>, m: MemberId, a: MemberId, op: Op)
    requires Init(s0) && m in Run(s0, evs).replicas && a in Run(s0, evs).replicas && m != a
    requires op in Run(s0, evs).replicas[a].hist.authored
    ensures op in Oplog(Run(s0, evs).replicas[m].doc) <==> ArrivedUpTo(Run(s0, evs), m, a, op)
  {
    RunInv(s0, evs);
    var s := Run(s0, evs);
    assert Deltas.DocOk(s, a);
    assert Complete(s.replicas[a].hist.authored, op);
    forall k | 0 <= k <= op.counter
      ensures Op(op.peer, k) in s.replicas[m].doc <==> Arrived(s, m, a, Op(op.peer, k))
    {
      if Arrived(s, m, a, Op(op.peer, k)) {
        ArrivedIsHeld(s, m, a, Op(op.peer, k));
      } else if Op(op.peer, k) in s.replicas[m].doc {
        HeldHasArrived(s, m, a, Op(op.peer, k));
      }
    }
    assert op == Op(op.peer, op.counter);
  }

  // ── one's own edit, cut short ─────────────────────────────────────────────

  /** Produced here, but not in the saved document. */
  ghost predicate Forgotten(s: System, m: MemberId, u: Update) {
    m in s.replicas && u in s.replicas[m].hist.produced && u !in s.replicas[m].hist.absorbed
  }

  lemma ForgottenStays(s: System, ev: Event, m: MemberId, u: Update)
    requires Upload.Inv(s) && Forgotten(s, m, u)
    ensures Forgotten(Step(s, ev), m, u)
  {
    StepAt(s, ev, m);
    if ev.At? && ev.m == m {
      OwnActForgets(s, m, ev.act, u);
    }
  }

  lemma OwnActForgets(s: System, m: MemberId, act: Act, u: Update)
    requires Upload.Inv(s) && Forgotten(s, m, u)
    ensures u in ClientStep(s, m, act).hist.produced && u !in ClientStep(s, m, act).hist.absorbed
  {
    Upload.ActorKeeps(s, m, act);
    assert u.author == m && u.ordinal < |s.replicas[m].hist.produced| by {
      ProducedVerifies(s, m, u);
    }
    if u in ClientStep(s, m, act).hist.absorbed {
      AbsorbsOthersOrNew(s, m, act, u);
    }
    assert forall i | 0 <= i < |s.replicas[m].hist.produced| ::
      ClientStep(s, m, act).hist.produced[i] == s.replicas[m].hist.produced[i];
  }

  lemma AbsorbsOthersOrNew(s: System, m: MemberId, act: Act, u: Update)
    requires m in s.replicas && u.author == m && u.ordinal < |s.replicas[m].hist.produced|
    requires u in ClientStep(s, m, act).hist.absorbed
    ensures u in s.replicas[m].hist.absorbed
  {
  }

  lemma {:induction false} ForgottenForGood(s: System, evs: seq<Event>, m: MemberId, u: Update)
    requires Upload.Inv(s) && Forgotten(s, m, u)
    ensures Forgotten(Run(s, evs), m, u)
    decreases |evs|
  {
    if evs != [] {
      ForgottenStays(s, evs[0], m, u);
      Upload.StepKeeps(s, evs[0]);
      ForgottenForGood(Step(s, evs[0]), evs[1..], m, u);
    }
  }

  lemma ForgottenIsNotHeld(s: System, m: MemberId, u: Update)
    requires Inv(s) && Forgotten(s, m, u)
    ensures u.ops !! s.replicas[m].doc && u.ops != {}
  {
    ProducedVerifies(s, m, u);
    Deltas.AuthoredByAuthor(s, u);
    Deltas.AbandonedIsNowhere(s, m, u);
    assert Deltas.DocOk(s, m);
    forall op | op in s.replicas[m].doc
      ensures op !in u.ops
    {
      if op !in s.replicas[m].hist.loose {
        var v :| v in s.replicas[m].hist.absorbed && op in v.ops;
        Deltas.GenuineShareNothing(s, u, v);
      }
    }
  }

  lemma EditProduces(r: Replica, list: ListId, m: MemberId, n: nat, gap: nat)
    requires Deltas.MineOk(r.hist) && Deltas.OpenOk(r) && r.epoch in r.deks && n > 0
    ensures var u := Update(list, r.epoch, m, |r.hist.produced|, NewOps(r.doc, r.peer, n));
            EditDoc(r, list, m, n, gap).hist.produced == r.hist.produced + [u]
  {
    Deltas.EditIsNew(r, n);
    assert Op(r.peer, End(r.doc, r.peer)) in NewOps(r.doc, r.peer, n);
  }

  lemma CutHistory(r: Replica, list: ListId, m: MemberId, n: nat, gap: nat, peer: Peer)
    ensures var h := EditThenDie(r, list, m, n, gap, peer).hist;
            h.absorbed == r.hist.absorbed && h.produced == EditDoc(r, list, m, n, gap).hist.produced
  {
  }

  lemma CutIsForgotten(s: System, m: MemberId, n: nat, gap: nat, peer: Peer)
    requires Inv(s) && m in s.replicas && s.replicas[m].epoch in s.replicas[m].deks && n > 0 && Unused(s.replicas, peer)
    ensures var produced := Step(s, At(m, EditCut(n, gap, peer))).replicas[m].hist.produced;
            && produced != []
            && Forgotten(Step(s, At(m, EditCut(n, gap, peer))), m, produced[|produced| - 1])
  {
    var r := s.replicas[m];
    StepAt(s, At(m, EditCut(n, gap, peer)), m);
    CutHistory(r, s.list, m, n, gap, peer);
    assert Deltas.DocOk(s, m);
    EditProduces(r, s.list, m, n, gap);
    var u := Update(s.list, r.epoch, m, |r.hist.produced|, NewOps(r.doc, r.peer, n));
    forall v | v in r.hist.absorbed && v.author == m
      ensures v.ordinal < |r.hist.produced|
    {
      assert Verifies(s.replicas, v);
    }
  }

  /** A client that dies between enqueuing an edit and saving it never shows that
      edit itself, whatever happens afterwards: it takes the update, when it comes
      back, for already merged. */
  lemma CutEditIsNeverShown(s0: System, evs: seq<Event>, m: MemberId, n: nat, gap: nat, peer: Peer, more: seq<Event>)
    requires Init(s0) && m in Run(s0, evs).replicas && n > 0 && Unused(Run(s0, evs).replicas, peer)
    requires var r := Run(s0, evs).replicas[m]; r.epoch in r.deks
    ensures var s1 := Step(Run(s0, evs), At(m, EditCut(n, gap, peer)));
            && m in s1.replicas && s1.replicas[m].hist.produced != []
            && var u := s1.replicas[m].hist.produced[|s1.replicas[m].hist.produced| - 1];
            && m in Run(s1, more).replicas && u.ops != {} && u.ops !! Run(s1, more).replicas[m].doc
  {
    RunInv(s0, evs);
    var s := Run(s0, evs);
    var cut := At(m, EditCut(n, gap, peer));
    var s1 := Step(s, cut);
    CutIsForgotten(s, m, n, gap, peer);
    Upload.StepKeeps(s, cut);
    Deltas.StepKeeps(s, cut);
    var u := s1.replicas[m].hist.produced[|s1.replicas[m].hist.produced| - 1];
    ForgottenForGood(s1, more, m, u);
    Upload.RunKeeps(s1, more);
    Deltas.RunKeeps(s1, more);
    ForgottenIsNotHeld(Run(s1, more), m, u);
  }
}
