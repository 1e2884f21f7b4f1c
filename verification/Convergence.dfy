/** Eventual agreement: what two clients that have nothing left to send, receive
    or present have in common. */
module Convergence {
  import opened TodoDoc
  import opened Updates
  import opened Outbound
  import opened ServerLog
  import opened Protocol
  import Upload
  import Deltas
  import Cursor

  /** Nothing is left to send or to present and the cursor stands at the log end. */
  ghost predicate Settled(s: System, m: MemberId)
    requires m in s.replicas
  {
    var r := s.replicas[m];
    r.outbound == [] && r.inbox == [] && forall e | e in s.log :: e.seqno <= r.cursor
  }

  /** No edit fails, no process dies inside one, and whoever presents an entry has
      its DEK and knows its author. */
  ghost predicate Clean(s: System, ev: Event) {
    ev.At? && ev.m in s.replicas ==>
      var r := s.replicas[ev.m];
      match ev.act
      case Edit(_, _) => r.epoch in r.deks
      case EditFails(_) => false
      case EditCut(_, _, _) => false
      case Present => r.inbox != [] ==> Cursor.Mergeable(s, ev.m, r.inbox[0].update)
      case _ => true
  }

  ghost predicate CleanRun(s: System, evs: seq<Event>)
    decreases |evs|
  {
    evs == [] || (Cursor.InLine(s, evs[0]) && Clean(s, evs[0]) && CleanRun(Step(s, evs[0]), evs[1..]))
  }

  /** All a client produced or was presented is in its document, and nothing else. */
  ghost predicate TakesAll(m: MemberId, log: seq<Entry>, h: History) {
    && h.abandoned == {}
    && (forall u | u in h.produced :: u in h.absorbed)
    && (forall e | e in h.presented :: e.update in h.absorbed || e.update.author == m)
    && (forall u | u in h.absorbed :: u in h.produced || Logged(log, u))
  }

  ghost predicate Inv(s: System) {
    && Cursor.Inv(s)
    && Deltas.Inv(s)
    && forall m | m in s.replicas :: TakesAll(m, s.log, s.replicas[m].hist)
  }

  // ── every step ────────────────────────────────────────────────────────────

  lemma EditTakes(r: Replica, list: ListId, m: MemberId, n: nat, gap: nat, log: seq<Entry>)
    requires TakesAll(m, log, r.hist) && r.epoch in r.deks
    ensures TakesAll(m, log, EditDoc(r, list, m, n, gap).hist)
  {
    var r' := EditDoc(r, list, m, n, gap);
    if r'.hist.produced != r.hist.produced {
      var u := r'.hist.produced[|r.hist.produced|];
      assert r'.hist.produced == r.hist.produced + [u];
    }
  }

  lemma PresentTakes(s: System, m: MemberId)
    requires m in s.replicas && s.replicas[m].inbox != [] && s.replicas[m].inbox[0] in s.log
    requires TakesAll(m, s.log, s.replicas[m].hist)
    requires Cursor.Mergeable(s, m, s.replicas[m].inbox[0].update)
    ensures TakesAll(m, s.log, PresentNext(s.replicas[m], s.replicas, m).hist)
  {
    var e := s.replicas[m].inbox[0];
    var k :| 0 <= k < |s.log| && s.log[k] == e;
    assert Logged(s.log, e.update);
  }

  lemma ActorTakes(s: System, m: MemberId, act: Act)
    requires m in s.replicas && TakesAll(m, s.log, s.replicas[m].hist)
    requires Clean(s, At(m, act))
    requires forall i | 0 <= i < |s.replicas[m].inbox| :: s.replicas[m].inbox[i] in s.log
    ensures TakesAll(m, s.log, ClientStep(s, m, act).hist)
  {
    if act.Edit? {
      EditTakes(s.replicas[m], s.list, m, act.n, act.gap, s.log);
    } else if act.Present? {
      if s.replicas[m].inbox != [] { PresentTakes(s, m); }
    } else {
    }
  }

  lemma TakesLater(m: MemberId, log: seq<Entry>, log': seq<Entry>, h: History)
    requires TakesAll(m, log, h) && (log' == log || exists e: Entry :: log' == log + [e])
    ensures TakesAll(m, log', h)
  {
    forall u | Logged(log, u)
      ensures Logged(log', u)
    {
      var i :| 0 <= i < |log| && log[i].update == u;
      assert log'[i] == log[i];
    }
  }

  lemma LogExtends(s: System, ev: Event)
    ensures Step(s, ev).log == s.log || exists e: Entry :: Step(s, ev).log == s.log + [e]
  {
  }

  lemma StepTakes(s: System, ev: Event, m: MemberId)
    requires Cursor.Inv(s) && m in s.replicas && TakesAll(m, s.log, s.replicas[m].hist) && Clean(s, ev)
    ensures m in Step(s, ev).replicas && TakesAll(m, Step(s, ev).log, Step(s, ev).replicas[m].hist)
  {
    LogExtends(s, ev);
    if ev.At? && ev.m == m {
      assert Cursor.CursorOk(s, s.replicas[m]);
      ActorTakes(s, m, ev.act);
      TakesLater(m, s.log, Step(s, ev).log, ClientStep(s, m, ev.act).hist);
    } else {
      TakesLater(m, s.log, Step(s, ev).log, s.replicas[m].hist);
    }
  }

  lemma SameClients(s: System, ev: Event)
    ensures Step(s, ev).replicas.Keys == s.replicas.Keys
  {
  }

  lemma AllTake(s: System, ev: Event, s': System)
    requires Cursor.Inv(s) && (forall m | m in s.replicas :: TakesAll(m, s.log, s.replicas[m].hist))
    requires Clean(s, ev) && s' == Step(s, ev)
    ensures forall m | m in s'.replicas :: TakesAll(m, s'.log, s'.replicas[m].hist)
  {
    SameClients(s, ev);
    forall m | m in s'.replicas
      ensures TakesAll(m, s'.log, s'.replicas[m].hist)
    {
      StepTakes(s, ev, m);
    }
  }

  lemma StepKeeps(s: System, ev: Event)
    requires Inv(s) && Cursor.InLine(s, ev) && Clean(s, ev)
    ensures Inv(Step(s, ev))
  {
    Cursor.StepKeeps(s, ev);
    Deltas.StepKeeps(s, ev);
    AllTake(s, ev, Step(s, ev));
  }

  lemma {:induction false} RunKeeps(s: System, evs: seq<Event>)
    requires Inv(s) && CleanRun(s, evs)
    ensures Inv(Run(s, evs))
    decreases |evs|
  {
    if evs != [] {
      StepKeeps(s, evs[0]);
      RunKeeps(Step(s, evs[0]), evs[1..]);
    }
  }

  lemma InitOk(s: System)
    requires Init(s)
    ensures Inv(s)
  {
    Cursor.InitOk(s);
    Deltas.InitOk(s);
  }

  // ── agreement ─────────────────────────────────────────────────────────────

  lemma SettledHolds(s: System, m: MemberId, u: Update)
    requires Inv(s) && m in s.replicas && Settled(s, m)
    ensures u in s.replicas[m].hist.absorbed <==> Logged(s.log, u)
  {
    var r := s.replicas[m];
    assert Upload.ReplicaOk(s, m);
    assert Cursor.CursorOk(s, r);
    if u in r.hist.produced {
      var k :| 0 <= k < |r.hist.produced| && r.hist.produced[k] == u;
      assert !Holds(r.outbound, u);
    }
    if Logged(s.log, u) {
      var i :| 0 <= i < |s.log| && s.log[i].update == u;
      assert s.log[i] in s.log && s.log[i] in r.hist.presented;
      if u.author == m {
        assert Verifies(s.replicas, u);
        assert r.hist.produced[u.ordinal] == u;
      }
    }
  }

  /** In every clean run a settled client has absorbed the log, the whole log and
      nothing but the log. */
  lemma SettledHoldsTheLog(s0: System, evs: seq<Event>, m: MemberId, u: Update)
    requires Init(s0) && CleanRun(s0, evs) && m in Run(s0, evs).replicas && Settled(Run(s0, evs), m)
    ensures u in Run(s0, evs).replicas[m].hist.absorbed <==> Logged(Run(s0, evs).log, u)
  {
    InitOk(s0);
    RunKeeps(s0, evs);
    SettledHolds(Run(s0, evs), m, u);
  }

  lemma SettledAlike(s: System, a: MemberId, b: MemberId)
    requires Inv(s) && a in s.replicas && b in s.replicas && Settled(s, a) && Settled(s, b)
    ensures s.replicas[a].hist.absorbed == s.replicas[b].hist.absorbed
  {
    forall u
      ensures u in s.replicas[a].hist.absorbed <==> u in s.replicas[b].hist.absorbed
    {
      SettledHolds(s, a, u);
      SettledHolds(s, b, u);
    }
  }

  lemma SettledDocuments(s: System, a: MemberId, b: MemberId)
    requires Inv(s) && a in s.replicas && b in s.replicas && Settled(s, a) && Settled(s, b)
    ensures s.replicas[a].doc == s.replicas[b].doc
  {
    SettledAlike(s, a, b);
    assert Deltas.DocOk(s, a) && Deltas.DocOk(s, b);
  }

  /** Convergence: in every clean run, however entries were delayed, repeated or
      interleaved, any two settled clients hold the same operations; whatever is
      projected from them, such as the items, is the same too. */
  lemma SettledClientsAgree<T>(s0: System, evs: seq<Event>, a: MemberId, b: MemberId, project: set<Op> -> T)
    requires Init(s0) && CleanRun(s0, evs)
    requires a in Run(s0, evs).replicas && b in Run(s0, evs).replicas
    requires Settled(Run(s0, evs), a) && Settled(Run(s0, evs), b)
    ensures var s := Run(s0, evs);
            && s.replicas[a].doc == s.replicas[b].doc
            && project(Oplog(s.replicas[a].doc)) == project(Oplog(s.replicas[b].doc))
  {
    InitOk(s0);
    RunKeeps(s0, evs);
    SettledDocuments(Run(s0, evs), a, b);
  }

  /** Once every client has settled, each of them shows every operation any of
      them ever made. */
  lemma AllSettledShowEverything(s0: System, evs: seq<Event>, a: MemberId, op: Op)
    requires Init(s0) && CleanRun(s0, evs) && a in Run(s0, evs).replicas
    requires forall m | m in Run(s0, evs).replicas :: Settled(Run(s0, evs), m)
    ensures var s := Run(s0, evs);
            op in Oplog(s.replicas[a].doc) <==> exists m :: m in s.replicas && op in s.replicas[m].hist.authored
  {
    InitOk(s0);
    RunKeeps(s0, evs);
    var s := Run(s0, evs);
    if op in s.replicas[a].doc {
      HeldWasMade(s, a, op);
    }
    forall m | m in s.replicas && op in s.replicas[m].hist.authored
      ensures op in s.replicas[a].doc && Complete(s.replicas[a].doc, op)
    {
      MadeIsHeld(s, a, m, op);
      assert Deltas.DocOk(s, m);
      assert Complete(s.replicas[m].hist.authored, op);
      forall k | 0 <= k <= op.counter
        ensures Op(op.peer, k) in s.replicas[a].doc
      {
        MadeIsHeld(s, a, m, Op(op.peer, k));
      }
    }
  }

  lemma HeldWasMade(s: System, a: MemberId, op: Op)
    requires Inv(s) && a in s.replicas && op in s.replicas[a].doc
    ensures exists m :: m in s.replicas && op in s.replicas[m].hist.authored
  {
    assert Deltas.DocOk(s, a);
    var u :| u in s.replicas[a].hist.absorbed && op in u.ops;
    Deltas.AuthoredByAuthor(s, u);
  }

  /** In a clean run every operation made is in a delta. */
  lemma MadeIsInDelta(h: History, m: MemberId, log: seq<Entry>, op: Op) returns (u: Update)
    requires Deltas.MineOk(h) && TakesAll(m, log, h) && op in h.authored
    ensures u in h.produced && op in u.ops
  {
    assert op in Deltas.OpsOf(Deltas.All(h.produced));
    u :| u in Deltas.All(h.produced) && op in u.ops;
  }

  lemma MadeIsHeld(s: System, a: MemberId, m: MemberId, op: Op)
    requires Inv(s) && a in s.replicas && Settled(s, a)
    requires m in s.replicas && Settled(s, m) && op in s.replicas[m].hist.authored
    ensures op in s.replicas[a].doc
  {
    assert Deltas.DocOk(s, m);
    var u := MadeIsInDelta(s.replicas[m].hist, m, s.log, op);
    SettledHolds(s, m, u);
    SettledHolds(s, a, u);
    assert Deltas.DocOk(s, a);
    AbsorbedIsHeld(s.replicas[a], u, op);
  }

  lemma AbsorbedIsHeld(r: Replica, u: Update, op: Op)
    requires Deltas.OpenOk(r) && u in r.hist.absorbed && op in u.ops
    ensures op in r.doc
  {
  }
}
