/** The sync engine's two loops (todoers-client/src/sync.rs) on the tables they
    move rows between, and how one uninterrupted loop is a run of the protocol. */
module SyncEngine {
  import opened Helpers
  import opened TodoDoc
  import opened Updates
  import opened Outbound
  import opened ServerLog
  import opened Protocol

  // ── push ──────────────────────────────────────────────────────────────────

  /** What a drain leaves: the queue, the log, the requests made and the verdict. */
  datatype Drained = Drained(rows: seq<Row>, log: seq<Entry>, next: nat, sent: nat, ok: bool)

  /** What becomes of one row of a batch: its payload does not decode, or the
      request ends in `outcome` and the ack or release after it works or fails. */
  datatype Fate = BadPayload | Sent(outcome: Outcome, settled: bool)

  function LogAfter(log: seq<Entry>, next: nat, u: Update, outcome: Outcome): seq<Entry> {
    if outcome == Failed then log else Insert(log, next, u)
  }

  function NextAfter(next: nat, outcome: Outcome): nat {
    if outcome == Failed then next else next + 1
  }

  /** Uploading one claimed row: acked, or given back if that still works. */
  function SendOne(rows: seq<Row>, log: seq<Entry>, next: nat, c: Claim, fate: Fate): Drained {
    match fate
    case BadPayload => Drained(rows, log, next, 1, false)
    case Sent(outcome, settled) =>
      Drained(if !settled then rows else if outcome == Stored then Ack(rows, c.localId) else Release(rows, c.localId),
              LogAfter(log, next, c.update, outcome), NextAfter(next, outcome), 1, settled && outcome == Stored)
  }

  /** Uploading one claimed batch; `fate(k)` is that of the k-th row. The first
      error leaves the rest claimed. */
  function SendBatch(rows: seq<Row>, log: seq<Entry>, next: nat, claims: seq<Claim>,
                     fate: nat -> Fate, sent: nat): Drained
    decreases |claims|
  {
    if claims == [] then Drained(rows, log, next, sent, true)
    else
      var d := SendOne(rows, log, next, claims[0], fate(sent));
      if d.ok then SendBatch(d.rows, d.log, d.next, claims[1..], fate, sent + 1) else d.(sent := sent + 1)
  }

  /** How many rows wait. */
  function Count(rows: seq<Row>, list: ListId): nat {
    if rows == [] then 0 else (if Waiting(rows[0], list) then 1 else 0) + Count(rows[1..], list)
  }

  lemma {:induction false} CountAfterAck(rows: seq<Row>, list: ListId, id: nat)
    ensures Count(Ack(rows, id), list) <= Count(rows, list)
  {
    if rows != [] {
      CountAfterAck(rows[1..], list, id);
    }
  }

  lemma {:induction false} CountAfterFlip(rows: seq<Row>, list: ListId, ids: set<nat>)
    ensures Count(Flip(rows, ids), list) <= Count(rows, list)
    ensures (exists i | 0 <= i < |rows| :: Waiting(rows[i], list) && rows[i].localId in ids)
      ==> Count(Flip(rows, ids), list) < Count(rows, list)
  {
    if rows != [] {
      CountAfterFlip(rows[1..], list, ids);
      assert Flip(rows, ids)[1..] == Flip(rows[1..], ids);
      forall i | 0 <= i < |rows| && Waiting(rows[i], list) && rows[i].localId in ids
        ensures Count(Flip(rows, ids), list) < Count(rows, list)
      {
        if i > 0 {
          assert Waiting(rows[1..][i - 1], list) && rows[1..][i - 1].localId in ids;
        }
      }
    }
  }

  /** Claiming something leaves fewer rows waiting. */
  lemma ClaimingProgresses(rows: seq<Row>, list: ListId, limit: nat)
    requires Select(rows, list, limit) != []
    ensures Count(Flip(rows, Ids(Select(rows, list, limit))), list) < Count(rows, list)
  {
    var claims := Select(rows, list, limit);
    SelectFacts(rows, list, limit);
    assert claims[0] in claims;
    var i :| 0 <= i < |rows| && Waiting(rows[i], list) && claims[0] == Claim(rows[i].localId, rows[i].update);
    assert rows[i].localId in Ids(claims);
    CountAfterFlip(rows, list, Ids(claims));
  }

  lemma {:induction false} SendingAddsNone(rows: seq<Row>, log: seq<Entry>, next: nat, claims: seq<Claim>,
                                           fate: nat -> Fate, sent: nat, list: ListId)
    ensures var d := SendBatch(rows, log, next, claims, fate, sent);
            d.ok ==> Count(d.rows, list) <= Count(rows, list)
    decreases |claims|
  {
    if claims != [] {
      var d := SendOne(rows, log, next, claims[0], fate(sent));
      if d.ok {
        CountAfterAck(rows, list, claims[0].localId);
        SendingAddsNone(d.rows, d.log, d.next, claims[1..], fate, sent + 1, list);
      }
    }
  }

  /** `push`: claim, upload, and claim again until nothing waits or an error ends it. */
  function Drain(rows: seq<Row>, log: seq<Entry>, next: nat, list: ListId, fate: nat -> Fate, sent: nat): Drained
    decreases Count(rows, list)
  {
    var claims := Select(rows, list, BATCH);
    if claims == [] then Drained(rows, log, next, sent, true)
    else
      ClaimingProgresses(rows, list, BATCH);
      SendingAddsNone(Flip(rows, Ids(claims)), log, next, claims, fate, sent, list);
      var d := SendBatch(Flip(rows, Ids(claims)), log, next, claims, fate, sent);
      if d.ok then Drain(d.rows, d.log, d.next, list, fate, d.sent) else d
  }

  /** The loop itself. `Err` is reported as `ok == false`. */
  method Push(table: Table, log: Log, list: ListId, fate: nat -> Fate) returns (sent: nat, ok: bool)
    requires table.Valid() && log.Valid()
    modifies table, log
    ensures table.Valid() && log.Valid()
    ensures Drained(table.rows, log.entries, log.next, sent, ok)
         == Drain(old(table.rows), old(log.entries), old(log.next), list, fate, 0)
  {
    sent := 0;
    while true
      invariant table.Valid() && log.Valid()
      invariant Drain(table.rows, log.entries, log.next, list, fate, sent)
             == Drain(old(table.rows), old(log.entries), old(log.next), list, fate, 0)
      decreases Count(table.rows, list)
    {
      ghost var waiting := table.rows;
      var claims := table.TakeOutbound(list, BATCH);
      if claims == [] {
        assert table.rows == waiting;
        return sent, true;
      }
      ClaimingProgresses(waiting, list, BATCH);
      SendingAddsNone(table.rows, log.entries, log.next, claims, fate, sent, list);
      ok, sent := Upload(table, log, claims, fate, sent);
      if !ok {
        return sent, false;
      }
    }
  }

  /** What is left of a batch from its k-th claim on comes to `result`. */
  ghost predicate Remaining(rows: seq<Row>, log: seq<Entry>, next: nat, claims: seq<Claim>, k: nat,
                            fate: nat -> Fate, sent: nat, result: Drained) {
    k <= |claims| && SendBatch(rows, log, next, claims[k..], fate, sent) == result
  }

  lemma OneRow(rows: seq<Row>, log: seq<Entry>, next: nat, claims: seq<Claim>, k: nat, fate: nat -> Fate, sent: nat,
               result: Drained)
    requires k < |claims| && Remaining(rows, log, next, claims, k, fate, sent, result)
    ensures var d := SendOne(rows, log, next, claims[k], fate(sent));
            if d.ok then Remaining(d.rows, d.log, d.next, claims, k + 1, fate, sent + 1, result)
            else result == d.(sent := sent + 1)
  {
    assert claims[k..][0] == claims[k] && claims[k..][1..] == claims[k + 1..];
  }

  /** The inner loop over one claimed batch. */
  method Upload(table: Table, log: Log, claims: seq<Claim>, fate: nat -> Fate, first: nat)
    returns (ok: bool, sent: nat)
    requires table.Valid() && log.Valid()
    modifies table, log
    ensures table.Valid() && log.Valid()
    ensures Drained(table.rows, log.entries, log.next, sent, ok)
         == SendBatch(old(table.rows), old(log.entries), old(log.next), claims, fate, first)
  {
    sent := first;
    var k := 0;
    ghost var result := SendBatch(table.rows, log.entries, log.next, claims, fate, first);
    assert claims[0..] == claims;
    while k < |claims|
      invariant 0 <= k <= |claims| && table.Valid() && log.Valid()
      invariant Remaining(table.rows, log.entries, log.next, claims, k, fate, sent, result)
    {
      OneRow(table.rows, log.entries, log.next, claims, k, fate, sent, result);
      var settled := UploadRow(table, log, claims[k], fate(sent));
      sent := sent + 1;
      if !settled {
        return false, sent;
      }
      k := k + 1;
    }
    ok := true;
  }

  /** The body of that loop: decode, send, then ack or release. */
  method UploadRow(table: Table, log: Log, c: Claim, fate: Fate) returns (ok: bool)
    requires table.Valid() && log.Valid()
    modifies table, log
    ensures table.Valid() && log.Valid()
    ensures Drained(table.rows, log.entries, log.next, 1, ok)
         == SendOne(old(table.rows), old(log.entries), old(log.next), c, fate)
  {
    if fate == BadPayload {
      return false;
    }
    if fate.outcome != Failed {
      var _ := log.InsertUpdate(c.update);
    }
    if !fate.settled {
      return false;
    }
    if fate.outcome == Stored {
      table.AckOutbound(c.localId);
      return true;
    }
    table.ReleaseOutbound(c.localId);
    ok := false;
  }

  /** A push that reports success left nothing of the list waiting. */
  lemma {:induction false} SuccessLeavesNothingWaiting(rows: seq<Row>, log: seq<Entry>, next: nat, list: ListId,
                                                       fate: nat -> Fate, sent: nat)
    requires Drain(rows, log, next, list, fate, sent).ok
    ensures forall r | r in Drain(rows, log, next, list, fate, sent).rows :: !Waiting(r, list)
    decreases Count(rows, list)
  {
    var claims := Select(rows, list, BATCH);
    SelectFacts(rows, list, BATCH);
    if claims != [] {
      ClaimingProgresses(rows, list, BATCH);
      SendingAddsNone(Flip(rows, Ids(claims)), log, next, claims, fate, sent, list);
      var d := SendBatch(Flip(rows, Ids(claims)), log, next, claims, fate, sent);
      SuccessLeavesNothingWaiting(d.rows, d.log, d.next, list, fate, d.sent);
    }
  }

  /** A batch goes through exactly when every one of its rows does. */
  lemma {:induction false} BatchSucceedsIff(rows: seq<Row>, log: seq<Entry>, next: nat, claims: seq<Claim>,
                                            fate: nat -> Fate, sent: nat)
    ensures var d := SendBatch(rows, log, next, claims, fate, sent);
            && sent <= d.sent <= sent + |claims|
            && (d.ok ==> d.sent == sent + |claims|)
            && (d.ok <==> forall k | sent <= k < d.sent :: fate(k) == Sent(Stored, true))
            && (!d.ok ==> d.sent > sent && forall k | sent <= k < d.sent - 1 :: fate(k) == Sent(Stored, true))
    decreases |claims|
  {
    if claims != [] {
      var d := SendOne(rows, log, next, claims[0], fate(sent));
      if d.ok {
        BatchSucceedsIff(d.rows, d.log, d.next, claims[1..], fate, sent + 1);
      }
    }
  }

  /** A push reports success exactly when every row it sent was stored, answered for
      and acked; otherwise it stopped right at the first that was not. */
  lemma {:induction false} PushSucceedsIff(rows: seq<Row>, log: seq<Entry>, next: nat, list: ListId,
                                           fate: nat -> Fate, sent: nat)
    ensures var d := Drain(rows, log, next, list, fate, sent);
            && sent <= d.sent
            && (d.ok <==> forall k | sent <= k < d.sent :: fate(k) == Sent(Stored, true))
            && (!d.ok ==> d.sent > sent && forall k | sent <= k < d.sent - 1 :: fate(k) == Sent(Stored, true))
    decreases Count(rows, list)
  {
    var claims := Select(rows, list, BATCH);
    if claims != [] {
      ClaimingProgresses(rows, list, BATCH);
      var flipped := Flip(rows, Ids(claims));
      SendingAddsNone(flipped, log, next, claims, fate, sent, list);
      BatchSucceedsIff(flipped, log, next, claims, fate, sent);
      var d := SendBatch(flipped, log, next, claims, fate, sent);
      if d.ok {
        PushSucceedsIff(d.rows, d.log, d.next, list, fate, d.sent);
      }
    }
  }

  // ── a push on a table shared with other lists ─────────────────────────────

  /** Rows stay in id order, and a claim keeps standing for a row of the list. */
  ghost predicate ClaimsOf(rows: seq<Row>, list: ListId, claims: seq<Claim>) {
    forall c | c in claims :: exists r :: r in rows && r.localId == c.localId && r.update.list == list
  }

  lemma ClaimsAfterAck(rows: seq<Row>, list: ListId, claims: seq<Claim>)
    requires ById(rows) && ClaimsOf(rows, list, claims) && claims != []
    requires forall i, j | 0 <= i < j < |claims| :: claims[i].localId < claims[j].localId
    ensures ClaimsOf(Ack(rows, claims[0].localId), list, claims[1..])
  {
    AckFacts(rows, claims[0].localId);
    forall c | c in claims[1..]
      ensures exists r :: r in Ack(rows, claims[0].localId) && r.localId == c.localId && r.update.list == list
    {
      assert c in claims;
      var r :| r in rows && r.localId == c.localId && r.update.list == list;
      var k :| 0 <= k < |claims[1..]| && claims[1..][k] == c;
      assert claims[0].localId < claims[k + 1].localId;
    }
  }

  lemma SendOneOneList(rows: seq<Row>, log: seq<Entry>, next: nat, c: Claim, fate: Fate, list: ListId, other: ListId)
    requires ById(rows) && list != other && exists r :: r in rows && r.localId == c.localId && r.update.list == list
    ensures var d := SendOne(rows, log, next, c, fate);
            && SendOne(Of(rows, list), log, next, c, fate) == d.(rows := Of(d.rows, list))
            && ById(d.rows) && Of(d.rows, other) == Of(rows, other)
  {
    var row :| row in rows && row.localId == c.localId && row.update.list == list;
    AckAndReleaseOneList(rows, list, other, row);
    AckFacts(rows, row.localId);
  }

  /** Sending a batch does to the list's rows what it does with them alone in the
      table, and nothing to the rows of other lists. */
  lemma {:induction false} SendBatchOneList(rows: seq<Row>, log: seq<Entry>, next: nat, claims: seq<Claim>,
                                            fate: nat -> Fate, sent: nat, list: ListId, other: ListId)
    requires ById(rows) && list != other && ClaimsOf(rows, list, claims)
    requires forall i, j | 0 <= i < j < |claims| :: claims[i].localId < claims[j].localId
    ensures var d := SendBatch(rows, log, next, claims, fate, sent);
            && SendBatch(Of(rows, list), log, next, claims, fate, sent) == d.(rows := Of(d.rows, list))
            && ById(d.rows) && Of(d.rows, other) == Of(rows, other)
    decreases |claims|
  {
    if claims != [] {
      assert claims[0] in claims;
      SendOneOneList(rows, log, next, claims[0], fate(sent), list, other);
      var d := SendOne(rows, log, next, claims[0], fate(sent));
      if d.ok {
        ClaimsAfterAck(rows, list, claims);
        SendBatchOneList(d.rows, d.log, d.next, claims[1..], fate, sent + 1, list, other);
      }
    }
  }

  lemma FlippedClaims(rows: seq<Row>, list: ListId)
    requires ById(rows)
    ensures var claims := Select(rows, list, BATCH);
            ById(Flip(rows, Ids(claims))) && ClaimsOf(Flip(rows, Ids(claims)), list, claims)
  {
    var claims := Select(rows, list, BATCH);
    var rows' := Flip(rows, Ids(claims));
    SelectFacts(rows, list, BATCH);
    forall c | c in claims
      ensures exists r :: r in rows' && r.localId == c.localId && r.update.list == list
    {
      assert Claims(rows, list, c);
      var i :| 0 <= i < |rows| && Waiting(rows[i], list) && c == Claim(rows[i].localId, rows[i].update);
      assert rows'[i] in rows' && rows'[i].localId == c.localId;
    }
  }

  /** So a push on the shared table is the push on the list's own rows. */
  lemma {:induction false} DrainOneList(rows: seq<Row>, log: seq<Entry>, next: nat, list: ListId, other: ListId,
                                        fate: nat -> Fate, sent: nat)
    requires ById(rows) && list != other
    ensures var d := Drain(rows, log, next, list, fate, sent);
            && Drain(Of(rows, list), log, next, list, fate, sent) == d.(rows := Of(d.rows, list))
            && Of(d.rows, other) == Of(rows, other)
    decreases Count(rows, list)
  {
    var claims := Select(rows, list, BATCH);
    OneListAtATime(rows, list, other, BATCH);
    if claims != [] {
      var flipped := Flip(rows, Ids(claims));
      ClaimingProgresses(rows, list, BATCH);
      SendingAddsNone(flipped, log, next, claims, fate, sent, list);
      FlippedClaims(rows, list);
      SelectInOrder(rows, list, BATCH);
      SendBatchOneList(flipped, log, next, claims, fate, sent, list, other);
      var d := SendBatch(flipped, log, next, claims, fate, sent);
      if d.ok {
        DrainOneList(d.rows, d.log, d.next, list, other, fate, d.sent);
      }
    }
  }

  // ── a push is a run of the protocol ───────────────────────────────────────

  /** The events of one row. */
  function RowEvents(m: MemberId, fate: Fate): seq<Event> {
    match fate
    case BadPayload => [At(m, PushError)]
    case Sent(outcome, settled) =>
      [At(m, Deliver(outcome)),
       At(m, if !settled then PushError else if outcome == Stored then AckRow else ReleaseRow)]
  }

  function BatchEvents(m: MemberId, claims: seq<Claim>, fate: nat -> Fate, sent: nat): seq<Event>
    decreases |claims|
  {
    if claims == [] then []
    else
      var more := fate(sent) == Sent(Stored, true);
      RowEvents(m, fate(sent)) + if more then BatchEvents(m, claims[1..], fate, sent + 1) else []
  }

  /** The system with client `m`'s queue, push and the log replaced. */
  function With(s: System, m: MemberId, rows: seq<Row>, push: Push, log: seq<Entry>, next: nat): System
    requires m in s.replicas
  {
    s.(log := log, next := next, replicas := s.replicas[m := s.replicas[m].(outbound := rows, push := push)])
  }

  lemma RunOne(s: System, a: Event)
    ensures Run(s, [a]) == Step(s, a)
  {
    assert [a][1..] == [];
    var s1 := Step(s, a);
    assert Run(s1, []) == s1;
  }

  lemma RunPair(s: System, a: Event, b: Event)
    ensures Run(s, [a, b]) == Step(Step(s, a), b)
  {
    assert [a, b][1..] == [b];
    RunOne(Step(s, a), b);
  }

  lemma DeliverStep(s: System, m: MemberId, claims: seq<Claim>, outcome: Outcome)
    requires m in s.replicas && claims != [] && s.replicas[m].push == Continue(claims)
    ensures Step(s, At(m, Deliver(outcome)))
         == With(s, m, s.replicas[m].outbound,
                 if outcome == Stored then Accepted(claims[0], claims[1..]) else Refused(claims[0]),
                 LogAfter(s.log, s.next, claims[0].update, outcome), NextAfter(s.next, outcome))
  {
  }

  lemma SettleStep(s: System, m: MemberId, act: Act, rows: seq<Row>, push: Push)
    requires m in s.replicas
    requires var p := s.replicas[m].push;
             || (act == PushError && rows == s.replicas[m].outbound && push == Idle)
             || (act == AckRow && p.Accepted? && push == Continue(p.rest)
                 && rows == Ack(s.replicas[m].outbound, p.done.localId))
             || (act == ReleaseRow && p.Refused? && push == Idle
                 && rows == Release(s.replicas[m].outbound, p.failed.localId))
    ensures Step(s, At(m, act)) == With(s, m, rows, push, s.log, s.next)
  {
  }

  /** One row's events are one row's upload. */
  lemma RowIsRun(s: System, m: MemberId, claims: seq<Claim>, fate: Fate)
    requires m in s.replicas && claims != [] && s.replicas[m].push == Continue(claims)
    ensures var d := SendOne(s.replicas[m].outbound, s.log, s.next, claims[0], fate);
            Run(s, RowEvents(m, fate))
              == With(s, m, d.rows, if d.ok then Continue(claims[1..]) else Idle, d.log, d.next)
  {
    var rows := s.replicas[m].outbound;
    var d := SendOne(rows, s.log, s.next, claims[0], fate);
    match fate
    case BadPayload =>
      RunOne(s, At(m, PushError));
      SettleStep(s, m, PushError, rows, Idle);
    case Sent(outcome, settled) =>
      var push := if outcome == Stored then Accepted(claims[0], claims[1..]) else Refused(claims[0]);
      var act := if !settled then PushError else if outcome == Stored then AckRow else ReleaseRow;
      RunPair(s, At(m, Deliver(outcome)), At(m, act));
      DeliverStep(s, m, claims, outcome);
      var s1 := With(s, m, rows, push, d.log, d.next);
      WithTwice(s, m, s1, rows, push, d.log, d.next);
      SettleStep(s1, m, act, d.rows, if d.ok then Continue(claims[1..]) else Idle);
  }

  lemma WithTwice(s: System, m: MemberId, s1: System, rows: seq<Row>, push: Push, log: seq<Entry>, next: nat)
    requires m in s.replicas && s1 == With(s, m, rows, push, log, next)
    ensures m in s1.replicas && s1.replicas[m].outbound == rows && s1.replicas[m].push == push
    ensures forall rows2, push2, log2, next2 ::
      With(s1, m, rows2, push2, log2, next2) == With(s, m, rows2, push2, log2, next2)
  {
    forall rows2, push2, log2, next2
      ensures With(s1, m, rows2, push2, log2, next2) == With(s, m, rows2, push2, log2, next2)
    {
      assert With(s1, m, rows2, push2, log2, next2).replicas == With(s, m, rows2, push2, log2, next2).replicas;
    }
  }

  lemma {:induction false} BatchIsRun(s: System, m: MemberId, claims: seq<Claim>, fate: nat -> Fate, sent: nat)
    requires m in s.replicas && s.replicas[m].push == Continue(claims)
    ensures var d := SendBatch(s.replicas[m].outbound, s.log, s.next, claims, fate, sent);
            Run(s, BatchEvents(m, claims, fate, sent)) == With(s, m, d.rows, Idle, d.log, d.next)
    decreases |claims|
  {
    if claims == [] {
      assert s == With(s, m, s.replicas[m].outbound, Idle, s.log, s.next);
    } else {
      var d := SendOne(s.replicas[m].outbound, s.log, s.next, claims[0], fate(sent));
      var push := if d.ok then Continue(claims[1..]) else Idle;
      var s1 := With(s, m, d.rows, push, d.log, d.next);
      RowIsRun(s, m, claims, fate(sent));
      WithTwice(s, m, s1, d.rows, push, d.log, d.next);
      var more := if d.ok then BatchEvents(m, claims[1..], fate, sent + 1) else [];
      RunConcat(s, RowEvents(m, fate(sent)), more);
      if d.ok {
        BatchIsRun(s1, m, claims[1..], fate, sent + 1);
      }
    }
  }

  function PushEvents(m: MemberId, rows: seq<Row>, log: seq<Entry>, next: nat, list: ListId,
                      fate: nat -> Fate, sent: nat): seq<Event>
    decreases Count(rows, list)
  {
    var claims := Select(rows, list, BATCH);
    if claims == [] then []
    else
      ClaimingProgresses(rows, list, BATCH);
      SendingAddsNone(Flip(rows, Ids(claims)), log, next, claims, fate, sent, list);
      var d := SendBatch(Flip(rows, Ids(claims)), log, next, claims, fate, sent);
      [At(m, ClaimRows)] + BatchEvents(m, claims, fate, sent)
        + if d.ok then PushEvents(m, d.rows, d.log, d.next, list, fate, d.sent) else []
  }

  lemma RunInParts(s: System, first: Event, batch: seq<Event>, tail: seq<Event>)
    ensures Run(s, [first] + batch + tail) == Run(Run(Step(s, first), batch), tail)
  {
    assert ([first] + batch + tail)[1..] == batch + tail;
    RunConcat(Step(s, first), batch, tail);
  }

  /** The push loop, run without interruption, is a run of the protocol: all that
      holds of every run holds of it. */
  lemma {:induction false} PushIsRun(s: System, m: MemberId, fate: nat -> Fate, sent: nat)
    requires m in s.replicas && s.replicas[m].push == Idle
    ensures var d := Drain(s.replicas[m].outbound, s.log, s.next, s.list, fate, sent);
            Run(s, PushEvents(m, s.replicas[m].outbound, s.log, s.next, s.list, fate, sent))
              == With(s, m, d.rows, Idle, d.log, d.next)
    decreases Count(s.replicas[m].outbound, s.list)
  {
    var rows := s.replicas[m].outbound;
    var claims := Select(rows, s.list, BATCH);
    if claims == [] {
      assert s == With(s, m, rows, Idle, s.log, s.next);
    } else {
      var flipped := Flip(rows, Ids(claims));
      ClaimingProgresses(rows, s.list, BATCH);
      SendingAddsNone(flipped, s.log, s.next, claims, fate, sent, s.list);
      var d := SendBatch(flipped, s.log, s.next, claims, fate, sent);
      var s1 := With(s, m, flipped, Continue(claims), s.log, s.next);
      assert Step(s, At(m, ClaimRows)) == s1;
      BatchIsRun(s1, m, claims, fate, sent);
      var s2 := With(s, m, d.rows, Idle, d.log, d.next);
      assert With(s1, m, d.rows, Idle, d.log, d.next) == s2;
      var tail := if d.ok then PushEvents(m, d.rows, d.log, d.next, s.list, fate, d.sent) else [];
      RunInParts(s, At(m, ClaimRows), BatchEvents(m, claims, fate, sent), tail);
      if d.ok {
        PushIsRun(s2, m, fate, d.sent);
      }
    }
  }

  // ── pull ──────────────────────────────────────────────────────────────────

  function Flatten(batches: seq<seq<Entry>>): seq<Entry> {
    if batches == [] then [] else batches[0] + Flatten(batches[1..])
  }

  /** `pull` on a log that does not change meanwhile: the batches forwarded to the store. */
  function Pages(log: seq<Entry>, list: ListId, cursor: nat, batch: nat): seq<seq<Entry>>
    requires Sorted(log) && batch > 0
    decreases |After(log, list, cursor)|
  {
    var page := Fetch(log, list, cursor, batch);
    if page == [] then []
    else if |page| < batch then [page]
    else
      AfterResumes(log, list, cursor, |page|);
      [page] + Pages(log, list, page[|page| - 1].seqno, batch)
  }

  lemma FullPage(log: seq<Entry>, list: ListId, cursor: nat, batch: nat)
    requires Sorted(log) && |Fetch(log, list, cursor, batch)| >= batch > 0
    ensures var page, all := Fetch(log, list, cursor, batch), After(log, list, cursor);
            && var next := page[|page| - 1].seqno;
            && |page| == batch <= 1000
            && all == page + After(log, list, next)
            && Flatten(Pages(log, list, cursor, batch)) == page + Flatten(Pages(log, list, next, batch))
  {
    var page := Fetch(log, list, cursor, batch);
    AfterResumes(log, list, cursor, |page|);
    var more := Pages(log, list, page[|page| - 1].seqno, batch);
    assert ([page] + more)[1..] == more;
  }

  lemma ShortPage(log: seq<Entry>, list: ListId, cursor: nat, batch: nat)
    requires Sorted(log) && |Fetch(log, list, cursor, batch)| < batch
    ensures Flatten(Pages(log, list, cursor, batch)) == Fetch(log, list, cursor, batch)
  {
    var page := Fetch(log, list, cursor, batch);
    assert Flatten([page]) == page + Flatten([]);
  }

  /** A pull delivers exactly the list's entries after its cursor, in order, with
      no gap and no repeat, if and only if the batch size lies within the server's
      cap or the cap is not reached. */
  lemma {:induction false} PullIsComplete(log: seq<Entry>, list: ListId, cursor: nat, batch: nat)
    requires Sorted(log) && batch > 0
    ensures Flatten(Pages(log, list, cursor, batch)) == After(log, list, cursor)
      <==> (batch <= 1000 || |After(log, list, cursor)| <= 1000)
    decreases |After(log, list, cursor)|
  {
    var page := Fetch(log, list, cursor, batch);
    if |page| < batch {
      ShortPage(log, list, cursor, batch);
    } else {
      FullPage(log, list, cursor, batch);
      PullIsComplete(log, list, page[|page| - 1].seqno, batch);
    }
  }

  /** Every page but the last is of five hundred entries. */
  lemma {:induction false} PagesAreFull(log: seq<Entry>, list: ListId, cursor: nat, i: nat)
    requires Sorted(log) && i < |Pages(log, list, cursor, BATCH)|
    ensures var pages := Pages(log, list, cursor, BATCH);
            0 < |pages[i]| <= 500 && (i < |pages| - 1 ==> |pages[i]| == 500)
    decreases |After(log, list, cursor)|
  {
    var page := Fetch(log, list, cursor, BATCH);
    if |page| >= BATCH {
      AfterResumes(log, list, cursor, |page|);
      if i > 0 {
        PagesAreFull(log, list, page[|page| - 1].seqno, i - 1);
      }
    }
  }

  /** `batches` have been forwarded and the rest of the pull starts at `cursor`. */
  ghost predicate Forwarded(log: seq<Entry>, list: ListId, applied: nat, batches: seq<seq<Entry>>, cursor: nat)
    requires Sorted(log)
  {
    Pages(log, list, applied, BATCH) == batches + Pages(log, list, cursor, BATCH)
  }

  lemma OnePage(log: seq<Entry>, list: ListId, applied: nat, batches: seq<seq<Entry>>, cursor: nat, page: seq<Entry>)
    requires Sorted(log) && Forwarded(log, list, applied, batches, cursor) && page == Fetch(log, list, cursor, BATCH)
    ensures page == [] ==> Pages(log, list, applied, BATCH) == batches
    ensures 0 < |page| < BATCH ==> Pages(log, list, applied, BATCH) == batches + [page]
    ensures |page| >= BATCH ==>
      && Forwarded(log, list, applied, batches + [page], page[|page| - 1].seqno)
      && |After(log, list, page[|page| - 1].seqno)| < |After(log, list, cursor)|
  {
    if |page| >= BATCH {
      AfterResumes(log, list, cursor, |page|);
      var rest := Pages(log, list, page[|page| - 1].seqno, BATCH);
      assert batches + ([page] + rest) == batches + [page] + rest;
    }
  }

  /** The loop itself, at the engine's batch size: what it forwards is everything
      of the list after `applied`, once each and in order. */
  method Pull(log: Log, list: ListId, applied: nat) returns (batches: seq<seq<Entry>>)
    requires log.Valid()
    ensures batches == Pages(log.entries, list, applied, BATCH)
    ensures Flatten(batches) == After(log.entries, list, applied)
    ensures forall i | 0 <= i < |batches| - 1 :: |batches[i]| == 500
  {
    PullIsComplete(log.entries, list, applied, BATCH);
    forall i | 0 <= i < |Pages(log.entries, list, applied, BATCH)| - 1
      ensures |Pages(log.entries, list, applied, BATCH)[i]| == 500
    {
      PagesAreFull(log.entries, list, applied, i);
    }
    var cursor := applied;
    batches := [];
    while true
      invariant Forwarded(log.entries, list, applied, batches, cursor)
      decreases |After(log.entries, list, cursor)|
    {
      var page := log.FetchUpdatesAfter(list, cursor, BATCH);
      OnePage(log.entries, list, applied, batches, cursor, page);
      if page != [] {
        cursor := page[|page| - 1].seqno;
        batches := batches + [page];
      }
      if |page| < BATCH {
        return;
      }
    }
  }

  function PullEvents(m: MemberId, log: seq<Entry>, list: ListId, cursor: nat): seq<Event>
    requires Sorted(log)
    decreases |After(log, list, cursor)|
  {
    var page := Fetch(log, list, cursor, BATCH);
    if |page| < BATCH then [At(m, PullPage)]
    else
      AfterResumes(log, list, cursor, |page|);
      [At(m, PullPage)] + PullEvents(m, log, list, page[|page| - 1].seqno)
  }

  /** The system with client `m`'s inbox extended and its pull ended. */
  function Handed(s: System, m: MemberId, batches: seq<seq<Entry>>): System
    requires m in s.replicas
  {
    s.(replicas := s.replicas[m := s.replicas[m].(inbox := s.replicas[m].inbox + Flatten(batches), pull := None)])
  }

  lemma PageStep(s: System, m: MemberId, cursor: nat)
    requires m in s.replicas && s.replicas[m].pull == Some(cursor)
    ensures var page := Fetch(s.log, s.list, cursor, BATCH);
            && var at := if page == [] then cursor else page[|page| - 1].seqno;
            && Step(s, At(m, PullPage)) == Paged(s, m, page, if |page| < BATCH then None else Some(at))
  {
  }

  /** The system after one page. */
  function Paged(s: System, m: MemberId, page: seq<Entry>, pull: Option<nat>): System
    requires m in s.replicas
  {
    s.(replicas := s.replicas[m := s.replicas[m].(inbox := s.replicas[m].inbox + page, pull := pull)])
  }

  lemma HandedAfter(s: System, m: MemberId, page: seq<Entry>, pull: Option<nat>, more: seq<seq<Entry>>)
    requires m in s.replicas
    ensures Handed(Paged(s, m, page, pull), m, more) == Handed(s, m, [page] + more)
  {
    assert ([page] + more)[1..] == more;
    var inbox := s.replicas[m].inbox;
    assert inbox + page + Flatten(more) == inbox + (page + Flatten(more));
  }

  lemma LastPage(s: System, m: MemberId, page: seq<Entry>)
    requires m in s.replicas
    ensures Paged(s, m, page, None) == Handed(s, m, if page == [] then [] else [page])
  {
    var inbox := s.replicas[m].inbox;
    assert inbox + [] == inbox;
    assert Flatten([page]) == page;
  }

  /** The pull loop, run without interruption, is a run of the protocol, and the
      inbox grows by everything of the list after the cursor. */
  lemma {:induction false} PullIsRun(s: System, m: MemberId, cursor: nat)
    requires m in s.replicas && s.replicas[m].pull == Some(cursor) && Sorted(s.log)
    ensures Run(s, PullEvents(m, s.log, s.list, cursor)) == Handed(s, m, Pages(s.log, s.list, cursor, BATCH))
    ensures var after := Run(s, PullEvents(m, s.log, s.list, cursor));
            && m in after.replicas
            && after.replicas[m].inbox == s.replicas[m].inbox + After(s.log, s.list, cursor)
    decreases |After(s.log, s.list, cursor)|
  {
    var page := Fetch(s.log, s.list, cursor, BATCH);
    PageStep(s, m, cursor);
    PullIsComplete(s.log, s.list, cursor, BATCH);
    if |page| < BATCH {
      LastPage(s, m, page);
    } else {
      AfterResumes(s.log, s.list, cursor, |page|);
      var rest := page[|page| - 1].seqno;
      PullIsRun(Paged(s, m, page, Some(rest)), m, rest);
      HandedAfter(s, m, page, Some(rest), Pages(s.log, s.list, rest, BATCH));
    }
  }

  lemma RestartedPulls(s: System, m: MemberId, peer: Peer)
    requires m in s.replicas && Unused(s.replicas, peer)
    ensures var s2 := Step(Step(s, At(m, Restart(peer))), At(m, StartPull));
            && m in s2.replicas && s2.log == s.log && s2.list == s.list
            && s2.replicas[m].pull == Some(s.replicas[m].cursor) && s2.replicas[m].inbox == []
            && s2.replicas[m].doc == s2.replicas[m].saved == s.replicas[m].saved
  {
  }

  /** A client that starts again and pulls has its saved document open and gets exactly
      the list's entries after its cursor, whatever it had received before. */
  lemma RestartThenPull(s: System, m: MemberId, peer: Peer)
    requires m in s.replicas && Unused(s.replicas, peer) && Sorted(s.log)
    ensures var cursor := s.replicas[m].cursor;
            var after := Run(s, [At(m, Restart(peer)), At(m, StartPull)] + PullEvents(m, s.log, s.list, cursor));
            && m in after.replicas && after.replicas[m].inbox == After(s.log, s.list, cursor)
            && after.replicas[m].doc == s.replicas[m].saved
  {
    var cursor := s.replicas[m].cursor;
    var first := [At(m, Restart(peer)), At(m, StartPull)];
    RestartedPulls(s, m, peer);
    RunPair(s, first[0], first[1]);
    RunConcat(s, first, PullEvents(m, s.log, s.list, cursor));
    PullIsRun(Run(s, first), m, cursor);
  }
}
