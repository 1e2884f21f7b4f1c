/** What every run keeps about uploading: conservation, one log row per update,
    and the log in the order each client enqueued. */
module Upload {
  import opened Helpers
  import opened TodoDoc
  import opened Updates
  import opened Outbound
  import opened ServerLog
  import opened Protocol

  /** The claims a push still holds. */
  function Held(push: Push): seq<Claim> {
    match push
    case Idle => []
    case Sending(claims) => claims
    case Accepted(done, rest) => [done] + rest
    case Refused(failed) => [failed]
  }

  /** The claims whose update may still be sent, now or after a release. */
  function ToSend(push: Push): seq<Claim> {
    match push
    case Idle => []
    case Sending(claims) => claims
    case Accepted(_, rest) => rest
    case Refused(failed) => [failed]
  }

  ghost predicate ClaimedRow(rows: seq<Row>, c: Claim) {
    exists i | 0 <= i < |rows| ::
      rows[i].localId == c.localId && rows[i].update == c.update && rows[i].status == Inflight
  }

  /** Updates are numbered as produced. */
  ghost predicate Numbered(list: ListId, m: MemberId, produced: seq<Update>) {
    forall k | 0 <= k < |produced| ::
      produced[k].list == list && produced[k].author == m && produced[k].ordinal == k
  }

  ghost predicate RowsOk(rows: seq<Row>, produced: seq<Update>) {
    && ById(rows)
    && (forall i | 0 <= i < |rows| :: Produced(produced, rows[i].update))
    && forall i, j | 0 <= i < j < |rows| :: rows[i].update.ordinal < rows[j].update.ordinal
  }

  /** A claimed batch: inflight rows, oldest first, all older than what waits. */
  ghost predicate BatchOk(rows: seq<Row>, held: seq<Claim>) {
    && (forall k | 0 <= k < |held| :: ClaimedRow(rows, held[k]))
    && (forall j, k | 0 <= j < k < |held| :: held[j].update.ordinal < held[k].update.ordinal)
    && (forall i, k | 0 <= i < |rows| && rows[i].status == Pending && 0 <= k < |held| ::
          held[k].update.ordinal < rows[i].update.ordinal)
  }

  ghost predicate PushOk(log: seq<Entry>, rows: seq<Row>, push: Push) {
    BatchOk(rows, Held(push)) && (push.Accepted? ==> Logged(log, push.done.update))
  }

  /** Nothing that can still be sent is older than what the log already has. */
  ghost predicate OrderOk(log: seq<Entry>, m: MemberId, rows: seq<Row>, push: Push) {
    forall e | e in log && e.update.author == m ::
      && (forall i | 0 <= i < |rows| && rows[i].status == Pending ::
            e.update.ordinal <= rows[i].update.ordinal)
      && (forall k | 0 <= k < |ToSend(push)| :: e.update.ordinal <= ToSend(push)[k].update.ordinal)
  }

  /** Every produced update is in the queue or in the log. */
  ghost predicate Conserved(log: seq<Entry>, rows: seq<Row>, produced: seq<Update>) {
    forall k | 0 <= k < |produced| :: Holds(rows, produced[k]) || Logged(log, produced[k])
  }

  ghost predicate QueueOk(list: ListId, log: seq<Entry>, m: MemberId, rows: seq<Row>, push: Push,
      produced: seq<Update>) {
    && Numbered(list, m, produced)
    && RowsOk(rows, produced)
    && PushOk(log, rows, push)
    && OrderOk(log, m, rows, push)
    && Conserved(log, rows, produced)
  }

  ghost predicate LogOk(s: System) {
    && Sorted(s.log)
    && (forall e | e in s.log :: e.seqno < s.next && Verifies(s.replicas, e.update))
    && InOrder(s.log)
  }

  /** Each author's entries stand in the order it produced them. */
  ghost predicate InOrder(log: seq<Entry>) {
    forall i, j | 0 <= i < j < |log| && log[i].update.author == log[j].update.author ::
      log[i].update.ordinal < log[j].update.ordinal
  }

  ghost predicate ReplicaOk(s: System, m: MemberId)
    requires m in s.replicas
  {
    var r := s.replicas[m];
    QueueOk(s.list, s.log, m, r.outbound, r.push, r.hist.produced)
  }

  ghost predicate Inv(s: System) {
    LogOk(s) && forall m | m in s.replicas :: ReplicaOk(s, m)
  }

  // ── enqueuing ─────────────────────────────────────────────────────────────

  lemma EnqueueRows(rows: seq<Row>, produced: seq<Update>, u: Update, gap: nat)
    requires RowsOk(rows, produced) && u.ordinal == |produced|
    ensures EnqueueAt(rows, u, gap) == rows + [Row(NextId(rows) + gap, u, Pending, 0)]
    ensures RowsOk(EnqueueAt(rows, u, gap), produced + [u])
  {
    assert forall i | 0 <= i < |rows| :: rows[i].update.ordinal < u.ordinal;
    assert !Holds(rows, u);
    forall i | 0 <= i < |rows|
      ensures Produced(produced + [u], rows[i].update)
    {
      assert Produced(produced, rows[i].update);
    }
  }

  lemma EnqueuePush(log: seq<Entry>, rows: seq<Row>, push: Push, produced: seq<Update>, u: Update, gap: nat)
    requires RowsOk(rows, produced) && PushOk(log, rows, push) && u.ordinal == |produced|
    ensures PushOk(log, rows + [Row(NextId(rows) + gap, u, Pending, 0)], push)
  {
    var rows' := rows + [Row(NextId(rows) + gap, u, Pending, 0)];
    var held := Held(push);
    forall k | 0 <= k < |held|
      ensures ClaimedRow(rows', held[k]) && held[k].update.ordinal < u.ordinal
    {
      var i :| 0 <= i < |rows| && rows[i].localId == held[k].localId
        && rows[i].update == held[k].update && rows[i].status == Inflight;
      assert rows'[i] == rows[i];
      assert Produced(produced, rows[i].update);
    }
  }

  lemma EnqueueKeeps(list: ListId, log: seq<Entry>, m: MemberId, rows: seq<Row>, push: Push,
                     produced: seq<Update>, u: Update, gap: nat)
    requires QueueOk(list, log, m, rows, push, produced)
    requires forall e | e in log && e.update.author == m :: Produced(produced, e.update)
    requires u.list == list && u.author == m && u.ordinal == |produced|
    ensures QueueOk(list, log, m, EnqueueAt(rows, u, gap), push, produced + [u])
  {
    EnqueueRows(rows, produced, u, gap);
    EnqueuePush(log, rows, push, produced, u, gap);
    var rows' := rows + [Row(NextId(rows) + gap, u, Pending, 0)];
    forall k | 0 <= k < |produced + [u]|
      ensures Holds(rows', (produced + [u])[k]) || Logged(log, (produced + [u])[k])
    {
      if k == |produced| {
        assert rows'[|rows|].update == u;
      } else if Holds(rows, produced[k]) {
        var i :| 0 <= i < |rows| && rows[i].update == produced[k];
        assert rows'[i] == rows[i];
      }
    }
  }

  // ── claiming ──────────────────────────────────────────────────────────────

  lemma ClaimRowsOk(rows: seq<Row>, produced: seq<Update>, ids: set<nat>)
    requires RowsOk(rows, produced)
    ensures RowsOk(Flip(rows, ids), produced)
    ensures forall u | Holds(rows, u) :: Holds(Flip(rows, ids), u)
  {
    var rows' := Flip(rows, ids);
    forall u | Holds(rows, u)
      ensures Holds(rows', u)
    {
      var i :| 0 <= i < |rows| && rows[i].update == u;
      assert rows'[i].update == u;
    }
  }

  /** Rows and claims are ordered alike by id and by ordinal. */
  lemma SameOrder(rows: seq<Row>, produced: seq<Update>, i: nat, j: nat)
    requires RowsOk(rows, produced) && i < |rows| && j < |rows|
    ensures rows[i].localId < rows[j].localId <==> rows[i].update.ordinal < rows[j].update.ordinal
  {
  }

  /** The row behind a claim. */
  lemma RowOfClaim(rows: seq<Row>, list: ListId, limit: nat, k: nat) returns (i: nat)
    requires k < |Select(rows, list, limit)|
    ensures i < |rows| && Waiting(rows[i], list)
    ensures Select(rows, list, limit)[k] == Claim(rows[i].localId, rows[i].update)
  {
    SelectFacts(rows, list, limit);
    var c := Select(rows, list, limit)[k];
    assert Claims(rows, list, c);
    i :| 0 <= i < |rows| && Waiting(rows[i], list) && c == Claim(rows[i].localId, rows[i].update);
  }

  lemma ClaimedInOrder(rows: seq<Row>, produced: seq<Update>, list: ListId, limit: nat, j: nat, k: nat)
    requires RowsOk(rows, produced) && j < k < |Select(rows, list, limit)|
    ensures Select(rows, list, limit)[j].update.ordinal < Select(rows, list, limit)[k].update.ordinal
  {
    SelectInOrder(rows, list, limit);
    var a := RowOfClaim(rows, list, limit, j);
    var b := RowOfClaim(rows, list, limit, k);
    SameOrder(rows, produced, a, b);
  }

  lemma LeftBehindIsLater(rows: seq<Row>, produced: seq<Update>, list: ListId, limit: nat, i: nat, k: nat)
    requires RowsOk(rows, produced) && k < |Select(rows, list, limit)| && i < |rows|
    requires Waiting(rows[i], list) && rows[i].localId !in Ids(Select(rows, list, limit))
    ensures Select(rows, list, limit)[k].update.ordinal < rows[i].update.ordinal
  {
    var c := Select(rows, list, limit)[k];
    assert Claim(rows[i].localId, rows[i].update) !in Select(rows, list, limit);
    SelectIsEarliest(rows, list, limit, rows[i], c);
    var b := RowOfClaim(rows, list, limit, k);
    SameOrder(rows, produced, b, i);
  }

  lemma ClaimPush(log: seq<Entry>, list: ListId, m: MemberId, rows: seq<Row>, produced: seq<Update>, limit: nat)
    requires RowsOk(rows, produced) && Numbered(list, m, produced)
    ensures PushOk(log, Flip(rows, Ids(Select(rows, list, limit))), Continue(Select(rows, list, limit)))
  {
    var claims := Select(rows, list, limit);
    var rows' := Flip(rows, Ids(claims));
    forall k | 0 <= k < |claims|
      ensures ClaimedRow(rows', claims[k])
    {
      var i := RowOfClaim(rows, list, limit, k);
      assert rows'[i].localId == claims[k].localId;
    }
    forall j, k | 0 <= j < k < |claims|
      ensures claims[j].update.ordinal < claims[k].update.ordinal
    {
      ClaimedInOrder(rows, produced, list, limit, j, k);
    }
    forall i, k | 0 <= i < |rows'| && rows'[i].status == Pending && 0 <= k < |claims|
      ensures claims[k].update.ordinal < rows'[i].update.ordinal
    {
      assert Produced(produced, rows[i].update);
      LeftBehindIsLater(rows, produced, list, limit, i, k);
    }
  }

  lemma ClaimKeeps(list: ListId, log: seq<Entry>, m: MemberId, rows: seq<Row>, produced: seq<Update>, limit: nat)
    requires QueueOk(list, log, m, rows, Idle, produced)
    ensures var claims := Select(rows, list, limit);
            QueueOk(list, log, m, Flip(rows, Ids(claims)), Continue(claims), produced)
  {
    var claims := Select(rows, list, limit);
    var rows' := Flip(rows, Ids(claims));
    ClaimRowsOk(rows, produced, Ids(claims));
    ClaimPush(log, list, m, rows, produced, limit);
    assert OrderOk(log, m, rows', Continue(claims)) by {
      forall e, k | e in log && e.update.author == m && 0 <= k < |claims|
        ensures e.update.ordinal <= claims[k].update.ordinal
      {
        var i := RowOfClaim(rows, list, limit, k);
      }
    }
  }

  // ── delivering ────────────────────────────────────────────────────────────

  /** The log grows by an update of another author, or not at all. */
  lemma OthersKeep(list: ListId, log: seq<Entry>, next: nat, u: Update, m: MemberId,
                   rows: seq<Row>, push: Push, produced: seq<Update>)
    requires QueueOk(list, log, m, rows, push, produced) && u.author != m
    ensures QueueOk(list, Insert(log, next, u), m, rows, push, produced)
  {
    LoggedGrows(log, next, u);
    forall k | 0 <= k < |produced|
      ensures Holds(rows, produced[k]) || Logged(Insert(log, next, u), produced[k])
    {
      assert Holds(rows, produced[k]) || Logged(log, produced[k]);
    }
  }

  lemma LoggedGrows(log: seq<Entry>, next: nat, u: Update)
    ensures forall x | Logged(log, x) :: Logged(Insert(log, next, u), x)
    ensures Logged(Insert(log, next, u), u)
    ensures log <= Insert(log, next, u)
  {
    var log' := Insert(log, next, u);
    if !Logged(log, u) {
      assert log'[|log|].update == u;
    }
    forall x | Logged(log, x)
      ensures Logged(log', x)
    {
      var i :| 0 <= i < |log| && log[i].update == x;
      assert log'[i] == log[i];
    }
  }

  /** Storing the head of the batch keeps the order for all that may follow. */
  lemma StoreOrder(log: seq<Entry>, next: nat, m: MemberId, rows: seq<Row>, claims: seq<Claim>, push: Push)
    requires BatchOk(rows, claims) && OrderOk(log, m, rows, Sending(claims)) && claims != []
    requires push == Accepted(claims[0], claims[1..]) || push == Refused(claims[0])
    ensures OrderOk(Insert(log, next, claims[0].update), m, rows, push)
    ensures OrderOk(log, m, rows, push)
  {
    var u := claims[0].update;
    var log' := Insert(log, next, u);
    assert ToSend(Sending(claims)) == claims;
    forall e | e in log' && e.update.author == m
      ensures forall i | 0 <= i < |rows| && rows[i].status == Pending :: e.update.ordinal <= rows[i].update.ordinal
      ensures forall k | 0 <= k < |claims| :: e.update.ordinal <= claims[k].update.ordinal
    {
      assert e in log || e.update == u;
    }
  }

  lemma StoreKeeps(list: ListId, log: seq<Entry>, log': seq<Entry>, m: MemberId, rows: seq<Row>,
                   claims: seq<Claim>, push: Push, produced: seq<Update>)
    requires QueueOk(list, log, m, rows, Sending(claims), produced) && claims != []
    requires push == Accepted(claims[0], claims[1..]) || push == Refused(claims[0])
    requires (forall x | Logged(log, x) :: Logged(log', x)) && OrderOk(log', m, rows, push)
    requires push.Accepted? ==> Logged(log', claims[0].update)
    ensures QueueOk(list, log', m, rows, push, produced)
  {
    assert Held(Sending(claims)) == claims;
    assert Held(push) == claims || Held(push) == claims[..1];
    BatchPrefix(rows, claims);
    forall k | 0 <= k < |produced|
      ensures Holds(rows, produced[k]) || Logged(log', produced[k])
    {
      assert Holds(rows, produced[k]) || Logged(log, produced[k]);
    }
  }

  lemma BatchPrefix(rows: seq<Row>, held: seq<Claim>)
    requires BatchOk(rows, held) && held != []
    ensures BatchOk(rows, held[..1])
  {
  }

  // ── acking and releasing ──────────────────────────────────────────────────

  /** The row a held claim stands for, and no other, carries its id. */
  lemma RowOfHeld(rows: seq<Row>, produced: seq<Update>, c: Claim)
    requires RowsOk(rows, produced) && ClaimedRow(rows, c)
    ensures forall r | r in rows && r.localId == c.localId :: r.update == c.update
  {
    var i :| 0 <= i < |rows| && rows[i].localId == c.localId
      && rows[i].update == c.update && rows[i].status == Inflight;
    forall r | r in rows && r.localId == c.localId
      ensures r.update == c.update
    {
      var j :| 0 <= j < |rows| && rows[j] == r;
      assert !(i < j) && !(j < i);
    }
  }

  lemma AckRowsOk(rows: seq<Row>, produced: seq<Update>, id: nat)
    requires RowsOk(rows, produced)
    ensures RowsOk(Ack(rows, id), produced)
  {
    AckFacts(rows, id);
    var rows' := Ack(rows, id);
    forall i | 0 <= i < |rows'|
      ensures Produced(produced, rows'[i].update)
    {
      assert rows'[i] in rows;
    }
    forall i, j | 0 <= i < j < |rows'|
      ensures rows'[i].update.ordinal < rows'[j].update.ordinal
    {
      assert rows'[i] in rows && rows'[j] in rows;
      var a :| 0 <= a < |rows| && rows[a] == rows'[i];
      var b :| 0 <= b < |rows| && rows[b] == rows'[j];
      SameOrder(rows, produced, a, b);
    }
  }

  lemma AckBatchOk(rows: seq<Row>, held: seq<Claim>, produced: seq<Update>)
    requires RowsOk(rows, produced) && BatchOk(rows, held) && held != []
    ensures BatchOk(Ack(rows, held[0].localId), held[1..])
  {
    AckFacts(rows, held[0].localId);
    var rows' := Ack(rows, held[0].localId);
    RowOfHeld(rows, produced, held[0]);
    forall k | 1 <= k < |held|
      ensures ClaimedRow(rows', held[k])
    {
      var i :| 0 <= i < |rows| && rows[i].localId == held[k].localId
        && rows[i].update == held[k].update && rows[i].status == Inflight;
      assert held[0].update.ordinal < held[k].update.ordinal;
      assert rows[i] in rows';
      var j :| 0 <= j < |rows'| && rows'[j] == rows[i];
    }
    forall i, k | 0 <= i < |rows'| && rows'[i].status == Pending && 1 <= k < |held|
      ensures held[k].update.ordinal < rows'[i].update.ordinal
    {
      assert rows'[i] in rows;
    }
  }

  /** An acked row is in the log, so nothing is lost with it. */
  lemma AckConserves(log: seq<Entry>, rows: seq<Row>, done: Claim, produced: seq<Update>)
    requires RowsOk(rows, produced) && Conserved(log, rows, produced)
    requires ClaimedRow(rows, done) && Logged(log, done.update)
    ensures Conserved(log, Ack(rows, done.localId), produced)
  {
    var rows' := Ack(rows, done.localId);
    AckFacts(rows, done.localId);
    RowOfHeld(rows, produced, done);
    forall k | 0 <= k < |produced|
      ensures Holds(rows', produced[k]) || Logged(log, produced[k])
    {
      if !Logged(log, produced[k]) {
        var i :| 0 <= i < |rows| && rows[i].update == produced[k];
        assert rows[i] in rows';
      }
    }
  }

  lemma AckOrder(log: seq<Entry>, m: MemberId, rows: seq<Row>, done: Claim, rest: seq<Claim>)
    requires OrderOk(log, m, rows, Accepted(done, rest))
    ensures OrderOk(log, m, Ack(rows, done.localId), Continue(rest))
  {
    var rows' := Ack(rows, done.localId);
    AckFacts(rows, done.localId);
    assert ToSend(Continue(rest)) == rest == ToSend(Accepted(done, rest));
    forall e, i | e in log && e.update.author == m && 0 <= i < |rows'| && rows'[i].status == Pending
      ensures e.update.ordinal <= rows'[i].update.ordinal
    {
      assert rows'[i] in rows;
    }
  }

  lemma AckKeeps(list: ListId, log: seq<Entry>, m: MemberId, rows: seq<Row>, done: Claim, rest: seq<Claim>,
                 produced: seq<Update>)
    requires QueueOk(list, log, m, rows, Accepted(done, rest), produced)
    ensures QueueOk(list, log, m, Ack(rows, done.localId), Continue(rest), produced)
  {
    var held := Held(Accepted(done, rest));
    assert held[0] == done && held[1..] == rest == Held(Continue(rest));
    AckRowsOk(rows, produced, done.localId);
    AckBatchOk(rows, held, produced);
    AckConserves(log, rows, done, produced);
    AckOrder(log, m, rows, done, rest);
  }

  lemma ReleaseOrder(log: seq<Entry>, m: MemberId, rows: seq<Row>, failed: Claim, produced: seq<Update>)
    requires RowsOk(rows, produced) && ClaimedRow(rows, failed) && OrderOk(log, m, rows, Refused(failed))
    ensures OrderOk(log, m, Release(rows, failed.localId), Idle)
  {
    var rows' := Release(rows, failed.localId);
    RowOfHeld(rows, produced, failed);
    forall e, i | e in log && e.update.author == m && 0 <= i < |rows'| && rows'[i].status == Pending
      ensures e.update.ordinal <= rows'[i].update.ordinal
    {
      if rows[i].localId == failed.localId {
        assert rows[i] in rows;
        assert e.update.ordinal <= ToSend(Refused(failed))[0].update.ordinal;
      }
    }
  }

  lemma ReleaseConserves(log: seq<Entry>, rows: seq<Row>, id: nat, produced: seq<Update>)
    requires Conserved(log, rows, produced)
    ensures Conserved(log, Release(rows, id), produced)
  {
    var rows' := Release(rows, id);
    forall k | 0 <= k < |produced|
      ensures Holds(rows', produced[k]) || Logged(log, produced[k])
    {
      if !Logged(log, produced[k]) {
        var i :| 0 <= i < |rows| && rows[i].update == produced[k];
        assert rows'[i].update == produced[k];
      }
    }
  }

  lemma ReleaseKeeps(list: ListId, log: seq<Entry>, m: MemberId, rows: seq<Row>, failed: Claim, produced: seq<Update>)
    requires QueueOk(list, log, m, rows, Refused(failed), produced)
    ensures QueueOk(list, log, m, Release(rows, failed.localId), Idle, produced)
  {
    assert ClaimedRow(rows, Held(Refused(failed))[0]);
    ReleaseOrder(log, m, rows, failed, produced);
    ReleaseConserves(log, rows, failed.localId, produced);
  }

  /** Dropping a running push leaves the claimed rows where they are. */
  lemma AbandonKeeps(list: ListId, log: seq<Entry>, m: MemberId, rows: seq<Row>, push: Push, produced: seq<Update>)
    requires QueueOk(list, log, m, rows, push, produced)
    ensures QueueOk(list, log, m, rows, Idle, produced)
  {
  }

  // ── every step, every run ─────────────────────────────────────────────────

  lemma EditKeeps(s: System, m: MemberId, n: nat, gap: nat)
    requires Inv(s) && m in s.replicas
    ensures var r := EditDoc(s.replicas[m], s.list, m, n, gap);
            QueueOk(s.list, s.log, m, r.outbound, r.push, r.hist.produced)
    ensures s.replicas[m].hist.produced <= EditDoc(s.replicas[m], s.list, m, n, gap).hist.produced
  {
    var r := s.replicas[m];
    assert ReplicaOk(s, m);
    var r' := EditDoc(r, s.list, m, n, gap);
    if r'.hist.produced != r.hist.produced {
      var u := Update(s.list, r.epoch, m, |r.hist.produced|, ExportUpdatesFrom(r'.doc, Version(r.doc)));
      EnqueueKeeps(s.list, s.log, m, r.outbound, r.push, r.hist.produced, u, gap);
    }
  }

  lemma DeliverKeeps(s: System, m: MemberId, outcome: Outcome)
    requires Inv(s) && m in s.replicas
    ensures ReplicaOk(Step(s, At(m, Deliver(outcome))), m)
  {
    var r := s.replicas[m];
    assert ReplicaOk(s, m);
    if r.push.Sending? && r.push.claims != [] {
      var claims := r.push.claims;
      var push := ClientStep(s, m, Deliver(outcome)).push;
      assert Held(r.push) == claims;
      StoreOrder(s.log, s.next, m, r.outbound, claims, push);
      LoggedGrows(s.log, s.next, claims[0].update);
      StoreKeeps(s.list, s.log, Step(s, At(m, Deliver(outcome))).log, m, r.outbound, claims, push, r.hist.produced);
    }
  }

  /** The acts that work on the queue. */
  predicate OnQueue(act: Act) {
    || act.Edit? || act.EditCut? || act.Restart?
    || act.ClaimRows? || act.Deliver? || act.AckRow? || act.ReleaseRow? || act.PushError?
  }

  /** The other acts leave queue, push and production alone. */
  lemma OffQueue(s: System, m: MemberId, act: Act)
    requires m in s.replicas && !OnQueue(act)
    ensures var r, r' := s.replicas[m], ClientStep(s, m, act);
            r'.outbound == r.outbound && r'.push == r.push && r'.hist.produced == r.hist.produced
    ensures StoredBy(s.replicas[m], act) == None
  {
  }

  lemma QueueActKeeps(s: System, m: MemberId, act: Act)
    requires Inv(s) && m in s.replicas && OnQueue(act) && !act.Deliver?
    ensures ReplicaOk(Step(s, At(m, act)), m)
    ensures s.replicas[m].hist.produced <= ClientStep(s, m, act).hist.produced
  {
    var r := s.replicas[m];
    assert ReplicaOk(s, m);
    match act {
      case Edit(n, gap) => EditKeeps(s, m, n, gap);
      case EditCut(n, gap, peer) =>
        EditKeeps(s, m, n, gap);
        var r' := EditDoc(r, s.list, m, n, gap);
        AbandonKeeps(s.list, s.log, m, r'.outbound, r'.push, r'.hist.produced);
      case ClaimRows =>
        if r.push.Idle? { ClaimKeeps(s.list, s.log, m, r.outbound, r.hist.produced, BATCH); }
      case AckRow =>
        if r.push.Accepted? { AckKeeps(s.list, s.log, m, r.outbound, r.push.done, r.push.rest, r.hist.produced); }
      case ReleaseRow =>
        if r.push.Refused? { ReleaseKeeps(s.list, s.log, m, r.outbound, r.push.failed, r.hist.produced); }
      case PushError => AbandonKeeps(s.list, s.log, m, r.outbound, r.push, r.hist.produced);
      case Restart(_) => AbandonKeeps(s.list, s.log, m, r.outbound, r.push, r.hist.produced);
    }
  }

  /** The acting client's own queue stays in order. */
  lemma ActorKeeps(s: System, m: MemberId, act: Act)
    requires Inv(s) && m in s.replicas
    ensures ReplicaOk(Step(s, At(m, act)), m)
    ensures s.replicas[m].hist.produced <= ClientStep(s, m, act).hist.produced
  {
    if act.Deliver? {
      DeliverKeeps(s, m, act.outcome);
    } else if OnQueue(act) {
      QueueActKeeps(s, m, act);
    } else {
      assert ReplicaOk(s, m);
      OffQueue(s, m, act);
    }
  }

  /** The next head of a batch is genuine and later than its author's entries. */
  lemma StoredIsNext(s: System, m: MemberId, act: Act)
    requires Inv(s) && m in s.replicas && StoredBy(s.replicas[m], act).Some?
    ensures var u := StoredBy(s.replicas[m], act).value;
            && u.author == m && u.list == s.list && Produced(s.replicas[m].hist.produced, u)
            && forall e | e in s.log && e.update.author == m :: e.update == u || e.update.ordinal < u.ordinal
  {
    var r := s.replicas[m];
    assert ReplicaOk(s, m);
    var u := r.push.claims[0].update;
    assert ClaimedRow(r.outbound, Held(r.push)[0]);
    var i :| 0 <= i < |r.outbound| && r.outbound[i].update == u;
    assert Produced(r.hist.produced, r.outbound[i].update);
    forall e | e in s.log && e.update.author == m
      ensures e.update == u || e.update.ordinal < u.ordinal
    {
      assert Verifies(s.replicas, e.update);
      assert e.update.ordinal <= ToSend(r.push)[0].update.ordinal;
    }
  }

  /** What verified keeps verifying. */
  lemma VerifiesStays(s: System, m: MemberId, act: Act, u: Update)
    requires Inv(s) && m in s.replicas && Verifies(s.replicas, u)
    ensures Verifies(Step(s, At(m, act)).replicas, u)
  {
    ActorKeeps(s, m, act);
  }

  /** The log stays sorted, genuine and in each author's order. */
  lemma LogKeeps(s: System, m: MemberId, act: Act)
    requires Inv(s) && m in s.replicas
    ensures LogOk(Step(s, At(m, act)))
  {
    var s' := Step(s, At(m, act));
    var stored := StoredBy(s.replicas[m], act);
    if stored.Some? {
      StoredIsNext(s, m, act);
      if Logged(s.log, stored.value) {
        assert s'.log == s.log;
      } else {
        InsertKeepsOrder(s.log, s.next, stored.value);
      }
    }
    forall e | e in s'.log
      ensures e.seqno < s'.next && Verifies(s'.replicas, e.update)
    {
      if e in s.log {
        VerifiesStays(s, m, act, e.update);
      } else {
        VerifiesStays(s, m, act, stored.value);
      }
    }
  }

  lemma InsertKeepsOrder(log: seq<Entry>, next: nat, u: Update)
    requires Sorted(log) && InOrder(log) && forall e | e in log :: e.seqno < next
    requires forall e | e in log && e.update.author == u.author :: e.update.ordinal < u.ordinal
    ensures Sorted(log + [Entry(next, u)]) && InOrder(log + [Entry(next, u)])
  {
    assert forall i | 0 <= i < |log| :: log[i] in log;
  }

  lemma StepKeeps(s: System, ev: Event)
    requires Inv(s)
    ensures Inv(Step(s, ev))
  {
    if ev.At? && ev.m in s.replicas {
      LogKeeps(s, ev.m, ev.act);
      ActorKeeps(s, ev.m, ev.act);
      var s' := Step(s, ev);
      forall m | m in s'.replicas
        ensures ReplicaOk(s', m)
      {
        if m != ev.m {
          assert ReplicaOk(s, m);
          var r := s.replicas[m];
          match StoredBy(s.replicas[ev.m], ev.act) {
            case None =>
            case Some(u) =>
              StoredIsNext(s, ev.m, ev.act);
              OthersKeep(s.list, s.log, s.next, u, m, r.outbound, r.push, r.hist.produced);
          }
        }
      }
    } else {
      assert forall m | m in s.replicas :: ReplicaOk(s, m) ==> ReplicaOk(Step(s, ev), m);
    }
  }

  lemma InitOk(s: System)
    requires Init(s)
    ensures Inv(s)
  {
    forall m | m in s.replicas
      ensures ReplicaOk(s, m)
    {
      assert s.replicas[m].outbound == [];
    }
  }

  lemma {:induction false} RunKeeps(s: System, evs: seq<Event>)
    requires Inv(s)
    ensures Inv(Run(s, evs))
    decreases |evs|
  {
    if evs != [] {
      StepKeeps(s, evs[0]);
      RunKeeps(Step(s, evs[0]), evs[1..]);
    }
  }

  ghost predicate Extends(s: System, s': System) {
    && s.log <= s'.log
    && s.replicas.Keys == s'.replicas.Keys
    && forall m | m in s.replicas :: s.replicas[m].hist.produced <= s'.replicas[m].hist.produced
  }

  lemma StepExtends(s: System, ev: Event)
    requires Inv(s)
    ensures Extends(s, Step(s, ev))
  {
    if ev.At? && ev.m in s.replicas {
      ActorKeeps(s, ev.m, ev.act);
      match StoredBy(s.replicas[ev.m], ev.act) {
        case None =>
        case Some(u) => LoggedGrows(s.log, s.next, u);
      }
    }
  }

  /** Rows are never changed or renumbered: the log only grows at its end, and
      clients keep all they produced. */
  lemma {:induction false} RunExtends(s: System, evs: seq<Event>)
    requires Inv(s)
    ensures Extends(s, Run(s, evs))
    decreases |evs|
  {
    if evs != [] {
      var s' := Step(s, evs[0]);
      StepKeeps(s, evs[0]);
      StepExtends(s, evs[0]);
      RunExtends(s', evs[1..]);
      ExtendsFurther(s, s', Run(s', evs[1..]));
    }
  }

  lemma ExtendsFurther(a: System, b: System, c: System)
    requires Extends(a, b) && Extends(b, c)
    ensures Extends(a, c)
  {
  }

  /** Upload order: in every run each client's entries stand in the log in the
      order it enqueued them, and no signature stands there twice. */
  lemma LogInEnqueueOrder(s0: System, evs: seq<Event>, i: nat, j: nat)
    requires Init(s0) && i < j < |Run(s0, evs).log|
    ensures var s := Run(s0, evs);
            var a, b := s.log[i].update, s.log[j].update;
            && a != b && s.log[i].seqno < s.log[j].seqno
            && a.author in s.replicas && b.author in s.replicas
            && (a.author == b.author ==>
                  exists x, y | 0 <= x < y < |s.replicas[a.author].hist.produced| ::
                    s.replicas[a.author].hist.produced[x] == a && s.replicas[a.author].hist.produced[y] == b)
  {
    InitOk(s0);
    RunKeeps(s0, evs);
    var s := Run(s0, evs);
    assert s.log[i] in s.log && s.log[j] in s.log;
    var a, b := s.log[i].update, s.log[j].update;
    if a.author == b.author {
      assert s.replicas[a.author].hist.produced[a.ordinal] == a && s.replicas[a.author].hist.produced[b.ordinal] == b;
    }
  }

  /** Conservation: in every run, whatever an edit enqueued is in the queue or in
      the log. */
  lemma NothingIsLost(s0: System, evs: seq<Event>, m: MemberId, u: Update)
    requires Init(s0) && m in Run(s0, evs).replicas
    requires u in Run(s0, evs).replicas[m].hist.produced
    ensures Holds(Run(s0, evs).replicas[m].outbound, u) || Logged(Run(s0, evs).log, u)
  {
    InitOk(s0);
    RunKeeps(s0, evs);
    assert ReplicaOk(Run(s0, evs), m);
  }

  lemma OneRowEach(log: seq<Entry>, i: nat, j: nat)
    requires InOrder(log) && i < |log| && j < |log| && log[i].update == log[j].update
    ensures i == j
  {
  }

  lemma OneRowLater(s: System, s': System, i: nat, j: nat)
    requires Extends(s, s') && InOrder(s'.log) && i < |s.log| && j < |s'.log|
    requires s.log[i].update == s'.log[j].update
    ensures i == j && s.log[i] == s'.log[j]
  {
    OneRowEach(s'.log, i, j);
  }

  /** An update's log row is the same one, with the same number, ever after,
      however often the update is sent again. */
  lemma OneRowForGood(s0: System, evs: seq<Event>, more: seq<Event>, i: nat, j: nat)
    requires Init(s0) && i < |Run(s0, evs).log| && j < |Run(Run(s0, evs), more).log|
    requires Run(s0, evs).log[i].update == Run(Run(s0, evs), more).log[j].update
    ensures i == j && Run(s0, evs).log[i] == Run(Run(s0, evs), more).log[j]
  {
    InitOk(s0);
    RunKeeps(s0, evs);
    RunKeeps(Run(s0, evs), more);
    RunExtends(Run(s0, evs), more);
    OneRowLater(Run(s0, evs), Run(Run(s0, evs), more), i, j);
  }

  // ── what a failed upload strands ──────────────────────────────────────────

  ghost predicate Queued(rows: seq<Row>, u: Update) {
    exists i | 0 <= i < |rows| :: rows[i].status == Pending && rows[i].update == u
  }

  ghost predicate Among(held: seq<Claim>, u: Update) {
    exists k | 0 <= k < |held| :: held[k].update == u
  }

  ghost predicate Claimed(push: Push, u: Update) {
    Among(Held(push), u)
  }

  lemma AmongFirstOrRest(held: seq<Claim>, u: Update)
    requires held != []
    ensures Among(held, u) <==> held[0].update == u || Among(held[1..], u)
    ensures Among(held[..1], u) <==> held[0].update == u
  {
    if Among(held, u) {
      var k :| 0 <= k < |held| && held[k].update == u;
      assert k == 0 || held[1..][k - 1].update == u;
    }
    if Among(held[1..], u) {
      var k :| 0 <= k < |held[1..]| && held[1..][k].update == u;
      assert held[k + 1].update == u;
    }
    assert held[..1][0] == held[0];
  }

  lemma LoggedNow(log: seq<Entry>, next: nat, v: Update, u: Update)
    ensures Logged(Insert(log, next, v), u) <==> Logged(log, u) || u == v
  {
    LoggedGrows(log, next, v);
  }

  /** Not in the log, not waiting, and claimed by no running push: no act of the
      client sends such an update again. */
  ghost predicate Stranded(s: System, m: MemberId, u: Update)
    requires m in s.replicas
  {
    Unsendable(s.log, s.replicas[m].outbound, s.replicas[m].push, u)
  }

  ghost predicate Unsendable(log: seq<Entry>, rows: seq<Row>, push: Push, u: Update) {
    !Logged(log, u) && !Queued(rows, u) && !Claimed(push, u)
  }

  /** The acts that strand an update: a failed delivery drops the rest of its
      batch; a push that stops at a failing statement, and a process that ends,
      drop all that was still claimed. */
  ghost predicate Drops(s: System, m: MemberId, act: Act, u: Update)
    requires m in s.replicas
  {
    var push := s.replicas[m].push;
    && !Logged(s.log, u) && Claimed(push, u)
    && match act
       case Deliver(outcome) => outcome != Stored && push.Sending? && push.claims[0].update != u
       case PushError => true
       case EditCut(_, _, peer) => Unused(s.replicas, peer)
       case Restart(peer) => Unused(s.replicas, peer)
       case _ => false
  }

  lemma ClaimTakes(rows: seq<Row>, produced: seq<Update>, list: ListId, i: nat)
    requires RowsOk(rows, produced) && i < |rows| && rows[i].localId in Ids(Select(rows, list, BATCH))
    ensures Claimed(Continue(Select(rows, list, BATCH)), rows[i].update)
  {
    var claims := Select(rows, list, BATCH);
    var k :| 0 <= k < |claims| && claims[k].localId == rows[i].localId;
    var j := RowOfClaim(rows, list, BATCH, k);
    assert !(i < j) && !(j < i);
    assert Held(Continue(claims))[k].update == rows[i].update;
  }

  lemma QueuedIsClaimedOrStays(rows: seq<Row>, produced: seq<Update>, list: ListId, u: Update)
    requires RowsOk(rows, produced) && Queued(rows, u)
    ensures var claims := Select(rows, list, BATCH); Queued(Flip(rows, Ids(claims)), u) || Claimed(Continue(claims), u)
  {
    var ids := Ids(Select(rows, list, BATCH));
    var i :| 0 <= i < |rows| && rows[i].status == Pending && rows[i].update == u;
    if rows[i].localId in ids {
      ClaimTakes(rows, produced, list, i);
    } else {
      assert Flip(rows, ids)[i] == rows[i];
    }
  }

  lemma ClaimedWasQueued(rows: seq<Row>, list: ListId, u: Update)
    requires Claimed(Continue(Select(rows, list, BATCH)), u)
    ensures Queued(rows, u)
  {
    var held := Held(Continue(Select(rows, list, BATCH)));
    var k :| 0 <= k < |held| && held[k].update == u;
    var i := RowOfClaim(rows, list, BATCH, k);
  }

  lemma StillQueuedWasQueued(rows: seq<Row>, ids: set<nat>, u: Update)
    requires Queued(Flip(rows, ids), u)
    ensures Queued(rows, u)
  {
    var rows' := Flip(rows, ids);
    var i :| 0 <= i < |rows'| && rows'[i].status == Pending && rows'[i].update == u;
    assert rows[i].update == u && rows[i].status == Pending;
  }

  lemma ClaimMovesQueued(rows: seq<Row>, produced: seq<Update>, list: ListId, u: Update)
    requires RowsOk(rows, produced)
    ensures var claims := Select(rows, list, BATCH);
            Queued(rows, u) <==> Queued(Flip(rows, Ids(claims)), u) || Claimed(Continue(claims), u)
  {
    var claims := Select(rows, list, BATCH);
    if Queued(rows, u) {
      QueuedIsClaimedOrStays(rows, produced, list, u);
    } else if Claimed(Continue(claims), u) {
      ClaimedWasQueued(rows, list, u);
    } else if Queued(Flip(rows, Ids(claims)), u) {
      StillQueuedWasQueued(rows, Ids(claims), u);
    }
  }

  lemma AckKeepsQueued(rows: seq<Row>, id: nat, u: Update)
    requires Queued(rows, u) && forall r | r in rows && r.localId == id :: r.status == Inflight
    ensures Queued(Ack(rows, id), u)
  {
    AckFacts(rows, id);
    var i :| 0 <= i < |rows| && rows[i].status == Pending && rows[i].update == u;
    var rows' := Ack(rows, id);
    assert rows[i] in rows';
    var j :| 0 <= j < |rows'| && rows'[j] == rows[i];
  }

  lemma AckedWasQueued(rows: seq<Row>, id: nat, u: Update)
    requires Queued(Ack(rows, id), u)
    ensures Queued(rows, u)
  {
    AckFacts(rows, id);
    var rows' := Ack(rows, id);
    var i :| 0 <= i < |rows'| && rows'[i].status == Pending && rows'[i].update == u;
    assert rows'[i] in rows;
    var j :| 0 <= j < |rows| && rows[j] == rows'[i];
  }

  lemma AckMovesNothing(rows: seq<Row>, produced: seq<Update>, done: Claim, u: Update)
    requires RowsOk(rows, produced) && ClaimedRow(rows, done)
    ensures Queued(rows, u) <==> Queued(Ack(rows, done.localId), u)
  {
    var d :| 0 <= d < |rows| && rows[d].localId == done.localId && rows[d].status == Inflight;
    forall r | r in rows && r.localId == done.localId
      ensures r.status == Inflight
    {
      var i :| 0 <= i < |rows| && rows[i] == r;
      assert !(i < d) && !(d < i);
    }
    if Queued(rows, u) {
      AckKeepsQueued(rows, done.localId, u);
    } else if Queued(Ack(rows, done.localId), u) {
      AckedWasQueued(rows, done.localId, u);
    }
  }

  lemma ReleaseRequeues(rows: seq<Row>, produced: seq<Update>, failed: Claim, u: Update)
    requires RowsOk(rows, produced) && ClaimedRow(rows, failed)
    ensures Queued(Release(rows, failed.localId), u) <==> Queued(rows, u) || u == failed.update
  {
    var rows' := Release(rows, failed.localId);
    var d :| 0 <= d < |rows| && rows[d].localId == failed.localId && rows[d].update == failed.update;
    assert rows'[d].status == Pending && rows'[d].update == failed.update;
    if Queued(rows, u) {
      var i :| 0 <= i < |rows| && rows[i].status == Pending && rows[i].update == u;
      assert rows'[i].update == u && rows'[i].status == Pending;
    }
    if Queued(rows', u) {
      var i :| 0 <= i < |rows'| && rows'[i].status == Pending && rows'[i].update == u;
      if rows[i].localId == failed.localId {
        assert !(i < d) && !(d < i);
      } else {
        assert rows[i].update == u;
      }
    }
  }

  lemma EditMovesNothing(s: System, m: MemberId, n: nat, gap: nat, u: Update)
    requires Inv(s) && m in s.replicas && Produced(s.replicas[m].hist.produced, u)
    ensures var r := s.replicas[m]; Queued(r.outbound, u) <==> Queued(EditDoc(r, s.list, m, n, gap).outbound, u)
  {
    var r := s.replicas[m];
    assert ReplicaOk(s, m);
    var r' := EditDoc(r, s.list, m, n, gap);
    if r'.hist.produced != r.hist.produced {
      var v := r'.hist.produced[|r.hist.produced|];
      EnqueueRows(r.outbound, r.hist.produced, v, gap);
      if Queued(r.outbound, u) {
        var i :| 0 <= i < |r.outbound| && r.outbound[i].status == Pending && r.outbound[i].update == u;
        assert r'.outbound[i].update == u;
      }
      if Queued(r'.outbound, u) {
        var i :| 0 <= i < |r'.outbound| && r'.outbound[i].status == Pending && r'.outbound[i].update == u;
        assert r.outbound[i].update == u;
      }
    }
  }

  /** Delivery moves claims between the phases of a push. */
  lemma DeliverChanges(log: seq<Entry>, next: nat, rows: seq<Row>, claims: seq<Claim>, outcome: Outcome, u: Update)
    requires claims != []
    ensures var log' := if outcome == Failed then log else Insert(log, next, claims[0].update);
            && var push := if outcome == Stored then Accepted(claims[0], claims[1..]) else Refused(claims[0]);
            && (Unsendable(log', rows, push, u) <==>
                 || Unsendable(log, rows, Sending(claims), u)
                 || (!Logged(log, u) && !Queued(rows, u) && Among(claims, u) && outcome != Stored
                       && claims[0].update != u))
  {
    LoggedNow(log, next, claims[0].update, u);
    AmongFirstOrRest(claims, u);
    assert [claims[0]] + claims[1..] == claims && [claims[0]] == claims[..1];
  }

  /** A claimed update is not waiting too. */
  lemma ClaimedNotQueued(s: System, m: MemberId, u: Update)
    requires Inv(s) && m in s.replicas && Claimed(s.replicas[m].push, u)
    ensures !Queued(s.replicas[m].outbound, u)
  {
    var rows, held := s.replicas[m].outbound, Held(s.replicas[m].push);
    assert ReplicaOk(s, m);
    var k :| 0 <= k < |held| && held[k].update == u;
    assert forall i | 0 <= i < |rows| && rows[i].status == Pending :: u.ordinal < rows[i].update.ordinal;
  }

  lemma DeliverEffect(s: System, m: MemberId, outcome: Outcome)
    requires m in s.replicas && s.replicas[m].push.Sending? && s.replicas[m].push.claims != []
    ensures var s', r, claims := Step(s, At(m, Deliver(outcome))), s.replicas[m], s.replicas[m].push.claims;
            && m in s'.replicas && s'.replicas[m].outbound == r.outbound
            && s'.replicas[m].push == (if outcome == Stored then Accepted(claims[0], claims[1..])
                  else Refused(claims[0]))
            && s'.log == if outcome == Failed then s.log else Insert(s.log, s.next, claims[0].update)
  {
  }

  lemma DeliverMoves(s: System, s': System, m: MemberId, outcome: Outcome, u: Update)
    requires Inv(s) && m in s.replicas && s.replicas[m].push.Sending? && s.replicas[m].push.claims != []
    requires s' == Step(s, At(m, Deliver(outcome)))
    ensures m in s'.replicas && (Stranded(s', m, u) <==> Stranded(s, m, u) || Drops(s, m, Deliver(outcome), u))
  {
    var r := s.replicas[m];
    DeliverEffect(s, m, outcome);
    DeliverChanges(s.log, s.next, r.outbound, r.push.claims, outcome, u);
    if Claimed(r.push, u) {
      ClaimedNotQueued(s, m, u);
    }
  }

  lemma AckChanges(log: seq<Entry>, rows: seq<Row>, produced: seq<Update>, done: Claim, rest: seq<Claim>, u: Update)
    requires RowsOk(rows, produced) && ClaimedRow(rows, done) && Logged(log, done.update)
    ensures Unsendable(log, Ack(rows, done.localId), Continue(rest), u)
        <==> Unsendable(log, rows, Accepted(done, rest), u)
  {
    var held := [done] + rest;
    assert held[0] == done && held[1..] == rest == Held(Continue(rest));
    AmongFirstOrRest(held, u);
    AckMovesNothing(rows, produced, done, u);
  }

  lemma AckEffect(s: System, m: MemberId)
    requires m in s.replicas && s.replicas[m].push.Accepted?
    ensures var s', r := Step(s, At(m, AckRow)), s.replicas[m];
            && m in s'.replicas && s'.log == s.log
            && s'.replicas[m].outbound == Ack(r.outbound, r.push.done.localId)
            && s'.replicas[m].push == Continue(r.push.rest)
  {
  }

  lemma AckMoves(s: System, s': System, m: MemberId, u: Update)
    requires Inv(s) && m in s.replicas && s.replicas[m].push.Accepted? && s' == Step(s, At(m, AckRow))
    ensures m in s'.replicas && (Stranded(s', m, u) <==> Stranded(s, m, u))
  {
    var r := s.replicas[m];
    AckEffect(s, m);
    assert ReplicaOk(s, m);
    assert ClaimedRow(r.outbound, Held(r.push)[0]);
    AckChanges(s.log, r.outbound, r.hist.produced, r.push.done, r.push.rest, u);
  }

  lemma ReleaseMoves(s: System, m: MemberId, u: Update)
    requires Inv(s) && m in s.replicas && s.replicas[m].push.Refused?
    ensures Stranded(Step(s, At(m, ReleaseRow)), m, u) <==> Stranded(s, m, u)
  {
    var r := s.replicas[m];
    assert ReplicaOk(s, m);
    assert ClaimedRow(r.outbound, Held(r.push)[0]);
    ReleaseRequeues(r.outbound, r.hist.produced, r.push.failed, u);
    if u == r.push.failed.update {
      assert Held(r.push)[0].update == u;
    }
  }

  lemma ClaimMoves(s: System, m: MemberId, u: Update)
    requires Inv(s) && m in s.replicas && s.replicas[m].push.Idle?
    ensures Stranded(Step(s, At(m, ClaimRows)), m, u) <==> Stranded(s, m, u)
  {
    var r := s.replicas[m];
    assert ReplicaOk(s, m);
    ClaimMovesQueued(r.outbound, r.hist.produced, s.list, u);
  }

  lemma EditStrandsNothing(s: System, m: MemberId, n: nat, gap: nat, u: Update)
    requires Inv(s) && m in s.replicas && Produced(s.replicas[m].hist.produced, u)
    ensures Stranded(Step(s, At(m, Edit(n, gap))), m, u) <==> Stranded(s, m, u)
    ensures forall peer | Unused(s.replicas, peer) ::
      Stranded(Step(s, At(m, EditCut(n, gap, peer))), m, u) <==>
        Stranded(s, m, u) || Drops(s, m, EditCut(n, gap, peer), u)
  {
    EditMovesNothing(s, m, n, gap, u);
  }

  lemma ErrorMoves(s: System, m: MemberId, u: Update)
    requires Inv(s) && m in s.replicas
    ensures Stranded(Step(s, At(m, PushError)), m, u) <==> Stranded(s, m, u) || Drops(s, m, PushError, u)
  {
    if Claimed(s.replicas[m].push, u) {
      ClaimedNotQueued(s, m, u);
    }
  }

  lemma RestartMoves(s: System, m: MemberId, peer: Peer, u: Update)
    requires Inv(s) && m in s.replicas
    ensures Stranded(Step(s, At(m, Restart(peer))), m, u) <==> Stranded(s, m, u) || Drops(s, m, Restart(peer), u)
  {
    if Claimed(s.replicas[m].push, u) {
      ClaimedNotQueued(s, m, u);
    }
  }

  lemma StrandsByOwnAct(s: System, m: MemberId, act: Act, u: Update)
    requires Inv(s) && m in s.replicas && Produced(s.replicas[m].hist.produced, u)
    ensures Stranded(Step(s, At(m, act)), m, u) <==> Stranded(s, m, u) || Drops(s, m, act, u)
  {
    var r := s.replicas[m];
    match act {
      case Edit(n, gap) => EditStrandsNothing(s, m, n, gap, u);
      case EditCut(n, gap, peer) => EditStrandsNothing(s, m, n, gap, u);
      case ClaimRows => if r.push.Idle? { ClaimMoves(s, m, u); }
      case Deliver(outcome) => if r.push.Sending?
          && r.push.claims != [] { DeliverMoves(s, Step(s, At(m, act)), m, outcome, u); }
      case AckRow => if r.push.Accepted? { AckMoves(s, Step(s, At(m, act)), m, u); }
      case ReleaseRow => if r.push.Refused? { ReleaseMoves(s, m, u); }
      case PushError => ErrorMoves(s, m, u);
      case Restart(peer) => RestartMoves(s, m, peer, u);
      case _ => OffQueue(s, m, act);
    }
  }

  lemma StrandsByOthers(s: System, ev: Event, m: MemberId, u: Update)
    requires Inv(s) && m in s.replicas && Produced(s.replicas[m].hist.produced, u)
    requires ev.At? ==> ev.m != m
    ensures Stranded(Step(s, ev), m, u) <==> Stranded(s, m, u)
  {
    assert ReplicaOk(s, m);
    assert u.author == m;
    if ev.At? && ev.m in s.replicas {
      match StoredBy(s.replicas[ev.m], ev.act) {
        case None =>
        case Some(v) =>
          StoredIsNext(s, ev.m, ev.act);
          LoggedNow(s.log, s.next, v, u);
      }
    }
  }

  lemma StrandsByEvent(s: System, ev: Event, m: MemberId, u: Update)
    requires Inv(s) && m in s.replicas && Produced(s.replicas[m].hist.produced, u)
    ensures Stranded(Step(s, ev), m, u) <==>
              Stranded(s, m, u) || (ev.At? && ev.m == m && Drops(s, m, ev.act, u))
  {
    if ev.At? && ev.m == m {
      StrandsByOwnAct(s, m, ev.act, u);
    } else {
      StrandsByOthers(s, ev, m, u);
    }
  }

  lemma StrandedIsHeld(s: System, m: MemberId, u: Update)
    requires Inv(s) && m in s.replicas && Produced(s.replicas[m].hist.produced, u) && Stranded(s, m, u)
    ensures Holds(s.replicas[m].outbound, u)
  {
    assert ReplicaOk(s, m);
    assert u == s.replicas[m].hist.produced[u.ordinal];
  }

  lemma {:induction false} StaysStranded(s: System, evs: seq<Event>, m: MemberId, u: Update)
    requires Inv(s) && m in s.replicas && Produced(s.replicas[m].hist.produced, u) && Stranded(s, m, u)
    ensures m in Run(s, evs).replicas && Stranded(Run(s, evs), m, u)
    ensures Holds(Run(s, evs).replicas[m].outbound, u)
    decreases |evs|
  {
    if evs == [] {
      StrandedIsHeld(s, m, u);
    } else {
      StaysStrandedOnce(s, evs[0], m, u);
      StaysStranded(Step(s, evs[0]), evs[1..], m, u);
    }
  }

  lemma StaysStrandedOnce(s: System, ev: Event, m: MemberId, u: Update)
    requires Inv(s) && m in s.replicas && Produced(s.replicas[m].hist.produced, u) && Stranded(s, m, u)
    ensures var s' := Step(s, ev);
            Inv(s') && m in s'.replicas && Produced(s'.replicas[m].hist.produced, u) && Stranded(s', m, u)
  {
    StrandsByEvent(s, ev, m, u);
    StepKeeps(s, ev);
    StepExtends(s, ev);
  }

  /** After any run, exactly when a client's update becomes unsendable: it already
      was, or this act drops it from a running batch. */
  lemma StrandsExactly(s0: System, evs: seq<Event>, ev: Event, m: MemberId, u: Update)
    requires Init(s0) && m in Run(s0, evs).replicas && Produced(Run(s0, evs).replicas[m].hist.produced, u)
    ensures var s := Run(s0, evs);
            Stranded(Step(s, ev), m, u) <==> Stranded(s, m, u) || (ev.At? && ev.m == m && Drops(s, m, ev.act, u))
  {
    InitOk(s0);
    RunKeeps(s0, evs);
    StrandsByEvent(Run(s0, evs), ev, m, u);
  }

  /** Once stranded in a run, an update stays in the table and is never uploaded,
      whatever happens afterwards. */
  lemma StrandedForGood(s0: System, evs: seq<Event>, more: seq<Event>, m: MemberId, u: Update)
    requires Init(s0) && m in Run(s0, evs).replicas && Produced(Run(s0, evs).replicas[m].hist.produced, u)
    requires Stranded(Run(s0, evs), m, u)
    ensures var s := Run(Run(s0, evs), more);
            m in s.replicas && Stranded(s, m, u) && Holds(s.replicas[m].outbound, u) && !Logged(s.log, u)
  {
    InitOk(s0);
    RunKeeps(s0, evs);
    StaysStranded(Run(s0, evs), more, m, u);
  }

  // ── runs without failures ─────────────────────────────────────────────────

  /** Every delivery is answered, no statement of a push fails and no process ends. */
  predicate Gentle(ev: Event) {
    ev.At? ==>
      && (ev.act.Deliver? ==> ev.act.outcome == Stored)
      && !ev.act.PushError? && !ev.act.EditCut? && !ev.act.Restart?
  }

  ghost predicate NothingStranded(s: System) {
    forall m, u | m in s.replicas && Produced(s.replicas[m].hist.produced, u) :: !Stranded(s, m, u)
  }

  /** What an edit has just produced is waiting. */
  lemma NewIsQueued(s: System, m: MemberId, n: nat, gap: nat, u: Update)
    requires Inv(s) && m in s.replicas && !Produced(s.replicas[m].hist.produced, u)
    requires Produced(EditDoc(s.replicas[m], s.list, m, n, gap).hist.produced, u)
    ensures Queued(EditDoc(s.replicas[m], s.list, m, n, gap).outbound, u)
  {
    var r := s.replicas[m];
    assert ReplicaOk(s, m);
    var r' := EditDoc(r, s.list, m, n, gap);
    EnqueueRows(r.outbound, r.hist.produced, u, gap);
    assert r'.outbound[|r.outbound|].update == u;
  }

  lemma OnlyEditsProduce(s: System, ev: Event, m: MemberId, u: Update)
    requires m in s.replicas && Gentle(ev) && !Produced(s.replicas[m].hist.produced, u)
    requires Produced(Step(s, ev).replicas[m].hist.produced, u)
    ensures ev.At? && ev.m == m && ev.act.Edit?
  {
    if ev.At? && ev.m == m && !OnQueue(ev.act) {
      OffQueue(s, m, ev.act);
    }
  }

  lemma GentleKeeps(s: System, ev: Event)
    requires Inv(s) && NothingStranded(s) && Gentle(ev)
    ensures NothingStranded(Step(s, ev))
  {
    var s' := Step(s, ev);
    forall m, u | m in s'.replicas && Produced(s'.replicas[m].hist.produced, u)
      ensures !Stranded(s', m, u)
    {
      if Produced(s.replicas[m].hist.produced, u) {
        StrandsByEvent(s, ev, m, u);
      } else {
        OnlyEditsProduce(s, ev, m, u);
        NewIsQueued(s, m, ev.act.n, ev.act.gap, u);
      }
    }
  }

  lemma {:induction false} GentleRuns(s: System, evs: seq<Event>)
    requires Inv(s) && NothingStranded(s) && forall ev | ev in evs :: Gentle(ev)
    ensures NothingStranded(Run(s, evs))
    decreases |evs|
  {
    if evs != [] {
      GentleKeeps(s, evs[0]);
      StepKeeps(s, evs[0]);
      GentleRuns(Step(s, evs[0]), evs[1..]);
    }
  }

  /** Without failures nothing is ever stranded: once nothing waits and no push
      runs, everything a client enqueued is in the log. */
  lemma QuietMeansUploaded(s0: System, evs: seq<Event>, m: MemberId, u: Update)
    requires Init(s0) && (forall ev | ev in evs :: Gentle(ev)) && m in Run(s0, evs).replicas
    requires var r := Run(s0, evs).replicas[m];
             u in r.hist.produced && r.push.Idle? && forall row | row in r.outbound :: row.status != Pending
    ensures Logged(Run(s0, evs).log, u)
  {
    InitOk(s0);
    GentleRuns(s0, evs);
    RunKeeps(s0, evs);
    var s := Run(s0, evs);
    var r := s.replicas[m];
    assert ReplicaOk(s, m);
    var k :| 0 <= k < |r.hist.produced| && r.hist.produced[k] == u;
    assert Produced(r.hist.produced, u);
    assert !Stranded(s, m, u);
    assert forall i | 0 <= i < |r.outbound| :: r.outbound[i] in r.outbound;
  }
}
