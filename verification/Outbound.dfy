/** The client's queue of updates awaiting upload (the `outbound` table of
    todoers-client/src/db.rs). */
module Outbound {
  import opened Updates

  datatype Status = Pending | Inflight

  datatype Row = Row(localId: nat, update: Update, status: Status, attempts: nat)

  /** What a drain is handed for each row it claimed. */
  datatype Claim = Claim(localId: nat, update: Update)

  predicate ById(rows: seq<Row>) {
    forall i, j | 0 <= i < j < |rows| :: rows[i].localId < rows[j].localId
  }

  predicate Holds(rows: seq<Row>, u: Update) {
    exists i | 0 <= i < |rows| :: rows[i].update == u
  }

  /** SQLite hands out one more than the largest id present, so an id can come
      back once its row is gone. */
  function NextId(rows: seq<Row>): nat {
    if rows == [] then 1 else rows[|rows| - 1].localId + 1
  }

  /** Enqueuing under an id that lies `gap` beyond the next one. */
  function EnqueueAt(rows: seq<Row>, u: Update, gap: nat): seq<Row> {
    if Holds(rows, u) then rows else rows + [Row(NextId(rows) + gap, u, Pending, 0)]
  }

  /** `enqueue_outbound`: a signature already queued changes nothing. */
  function Enqueue(rows: seq<Row>, u: Update): seq<Row> {
    EnqueueAt(rows, u, 0)
  }

  predicate Waiting(row: Row, list: ListId) {
    row.status == Pending && row.update.list == list
  }

  /** The SELECT of `take_outbound`: the first `limit` pending rows of the list. */
  function Select(rows: seq<Row>, list: ListId, limit: nat): seq<Claim> {
    if rows == [] || limit == 0 then []
    else if Waiting(rows[0], list) then
      [Claim(rows[0].localId, rows[0].update)] + Select(rows[1..], list, limit - 1)
    else Select(rows[1..], list, limit)
  }

  function Ids(claims: seq<Claim>): set<nat> {
    set c | c in claims :: c.localId
  }

  function FlipRow(row: Row, ids: set<nat>): Row {
    if row.localId in ids then row.(status := Inflight, attempts := row.attempts + 1) else row
  }

  /** The UPDATEs of `take_outbound`. */
  function Flip(rows: seq<Row>, ids: set<nat>): seq<Row> {
    seq(|rows|, i requires 0 <= i < |rows| => FlipRow(rows[i], ids))
  }

  /** `ack_outbound`. */
  function Ack(rows: seq<Row>, id: nat): seq<Row> {
    if rows == [] then []
    else if rows[0].localId == id then Ack(rows[1..], id)
    else [rows[0]] + Ack(rows[1..], id)
  }

  /** `release_outbound`. */
  function Release(rows: seq<Row>, id: nat): seq<Row> {
    seq(|rows|, i requires 0 <= i < |rows| =>
      if rows[i].localId == id then rows[i].(status := Pending) else rows[i])
  }

  lemma FlipOneMore(rows: seq<Row>, claims: seq<Claim>, k: nat)
    requires k < |claims|
    requires forall i, j | 0 <= i < j < |claims| :: claims[i].localId < claims[j].localId
    ensures Flip(Flip(rows, Ids(claims[..k])), {claims[k].localId}) == Flip(rows, Ids(claims[..k + 1]))
  {
    assert claims[..k + 1] == claims[..k] + [claims[k]];
    assert Ids(claims[..k + 1]) == Ids(claims[..k]) + {claims[k].localId};
    assert claims[k].localId !in Ids(claims[..k]);
  }

  /** The rows of one list. */
  function Of(rows: seq<Row>, list: ListId): seq<Row> {
    if rows == [] then []
    else if rows[0].update.list == list then [rows[0]] + Of(rows[1..], list)
    else Of(rows[1..], list)
  }

  // ── facts about the queue operations ──────────────────────────────────────

  lemma {:induction false} AckHas(rows: seq<Row>, id: nat)
    ensures forall r :: r in Ack(rows, id) <==> r in rows && r.localId != id
  {
    if rows != [] {
      AckHas(rows[1..], id);
      assert rows == [rows[0]] + rows[1..];
    }
  }

  lemma {:induction false} AckById(rows: seq<Row>, id: nat)
    requires ById(rows)
    ensures ById(Ack(rows, id))
  {
    if rows != [] {
      AckById(rows[1..], id);
      AckHas(rows[1..], id);
      var rest := Ack(rows[1..], id);
      forall k | 0 <= k < |rest|
        ensures rows[0].localId < rest[k].localId
      {
        assert rest[k] in rest;
        assert rest[k] in rows[1..];
      }
    }
  }

  /** An ack removes the rows of that id and keeps the others in order. */
  lemma AckFacts(rows: seq<Row>, id: nat)
    ensures forall r :: r in Ack(rows, id) <==> r in rows && r.localId != id
    ensures ById(rows) ==> ById(Ack(rows, id))
  {
    AckHas(rows, id);
    if ById(rows) {
      AckById(rows, id);
    }
  }

  ghost predicate Claims(rows: seq<Row>, list: ListId, c: Claim) {
    exists i | 0 <= i < |rows| :: Waiting(rows[i], list) && c == Claim(rows[i].localId, rows[i].update)
  }

  /** What is claimed: pending rows of the list; nothing only if none waits. */
  lemma {:induction false} SelectFacts(rows: seq<Row>, list: ListId, limit: nat)
    ensures |Select(rows, list, limit)| <= limit
    ensures forall c | c in Select(rows, list, limit) :: Claims(rows, list, c)
    ensures Select(rows, list, limit) == [] && limit > 0 ==> forall r | r in rows :: !Waiting(r, list)
  {
    if rows != [] && limit > 0 {
      var rest := if Waiting(rows[0], list) then limit - 1 else limit;
      SelectFacts(rows[1..], list, rest);
      forall c | c in Select(rows, list, limit)
        ensures Claims(rows, list, c)
      {
        if c in Select(rows[1..], list, rest) {
          var i :| 0 <= i < |rows[1..]| && Waiting(rows[1..][i], list)
            && c == Claim(rows[1..][i].localId, rows[1..][i].update);
          assert rows[i + 1] == rows[1..][i];
        } else {
          assert Waiting(rows[0], list);
        }
      }
    }
  }

  /** The claims come in queue order. */
  lemma {:induction false} SelectInOrder(rows: seq<Row>, list: ListId, limit: nat)
    requires ById(rows)
    ensures forall i, j | 0 <= i < j < |Select(rows, list, limit)| ::
              Select(rows, list, limit)[i].localId < Select(rows, list, limit)[j].localId
  {
    if rows != [] && limit > 0 {
      var rest := if Waiting(rows[0], list) then limit - 1 else limit;
      SelectInOrder(rows[1..], list, rest);
      SelectFacts(rows[1..], list, rest);
      var later := Select(rows[1..], list, rest);
      forall k | 0 <= k < |later|
        ensures rows[0].localId < later[k].localId
      {
        assert later[k] in later;
      }
    }
  }

  /** Every pending row left behind comes after every claim. */
  lemma {:induction false} SelectIsEarliest(rows: seq<Row>, list: ListId, limit: nat, r: Row, c: Claim)
    requires ById(rows)
    requires r in rows && Waiting(r, list) && c in Select(rows, list, limit)
    ensures Claim(r.localId, r.update) in Select(rows, list, limit) || c.localId < r.localId
  {
    var rest := if Waiting(rows[0], list) then limit - 1 else limit;
    if r == rows[0] {
    } else if c in Select(rows[1..], list, rest) {
      SelectIsEarliest(rows[1..], list, rest, r, c);
    } else {
      assert c.localId == rows[0].localId;
    }
  }

  /** Claiming for one list is the same whether or not rows of other lists share
      the table, and leaves those rows alone. */
  lemma OneListAtATime(rows: seq<Row>, list: ListId, other: ListId, limit: nat)
    requires ById(rows) && list != other
    ensures Select(Of(rows, list), list, limit) == Select(rows, list, limit)
    ensures Of(Flip(rows, Ids(Select(rows, list, limit))), list)
         == Flip(Of(rows, list), Ids(Select(rows, list, limit)))
    ensures Of(Flip(rows, Ids(Select(rows, list, limit))), other) == Of(rows, other)
  {
    SelectAlone(rows, list, limit);
    SelectFacts(rows, list, limit);
    var ids := Ids(Select(rows, list, limit));
    forall r | r in rows && r.update.list == other
      ensures r.localId !in ids
    {
      var j :| 0 <= j < |rows| && rows[j] == r;
      forall c | c in Select(rows, list, limit)
        ensures c.localId != r.localId
      {
        var i :| 0 <= i < |rows| && Waiting(rows[i], list) && c == Claim(rows[i].localId, rows[i].update);
        assert i != j;
      }
    }
    FlipOf(rows, list, ids);
    FlipOf(rows, other, ids);
    OfOnly(rows, other);
    assert Flip(Of(rows, other), ids) == Of(rows, other);
  }

  /** So are acking and releasing one of its rows. */
  lemma AckAndReleaseOneList(rows: seq<Row>, list: ListId, other: ListId, row: Row)
    requires ById(rows) && list != other && row in rows && row.update.list == list
    ensures Of(Ack(rows, row.localId), list) == Ack(Of(rows, list), row.localId)
    ensures Of(Release(rows, row.localId), list) == Release(Of(rows, list), row.localId)
    ensures Of(Ack(rows, row.localId), other) == Of(rows, other)
    ensures Of(Release(rows, row.localId), other) == Of(rows, other)
  {
    AckOf(rows, list, row.localId);
    AckOf(rows, other, row.localId);
    ReleaseOf(rows, list, row.localId);
    ReleaseOf(rows, other, row.localId);
    forall r | r in Of(rows, other)
      ensures r.localId != row.localId
    {
      OfOnly(rows, other);
      var i :| 0 <= i < |rows| && rows[i] == r;
      var j :| 0 <= j < |rows| && rows[j] == row;
      assert i != j;
    }
    AckNone(Of(rows, other), row.localId);
  }

  lemma {:induction false} AckOf(rows: seq<Row>, list: ListId, id: nat)
    ensures Of(Ack(rows, id), list) == Ack(Of(rows, list), id)
  {
    if rows != [] {
      AckOf(rows[1..], list, id);
      if rows[0].localId != id {
        assert Ack(rows, id)[1..] == Ack(rows[1..], id);
      }
      if rows[0].update.list == list {
        assert Of(rows, list)[1..] == Of(rows[1..], list);
      }
    }
  }

  lemma {:induction false} ReleaseOf(rows: seq<Row>, list: ListId, id: nat)
    ensures Of(Release(rows, id), list) == Release(Of(rows, list), id)
  {
    if rows != [] {
      ReleaseOf(rows[1..], list, id);
      assert Release(rows, id)[1..] == Release(rows[1..], id);
      if rows[0].update.list == list {
        assert Release(Of(rows, list), id) == [Release(rows, id)[0]] + Release(Of(rows[1..], list), id);
      }
    }
  }

  lemma {:induction false} AckNone(rows: seq<Row>, id: nat)
    requires forall r | r in rows :: r.localId != id
    ensures Ack(rows, id) == rows && Release(rows, id) == rows
  {
    if rows != [] {
      AckNone(rows[1..], id);
      assert rows[0] in rows;
    }
  }

  /** How far beyond its list's own next id a shared table numbers a new row. */
  function Gap(rows: seq<Row>, list: ListId): int {
    NextId(rows) - NextId(Of(rows, list))
  }

  /** Enqueuing is the same too, but for the id, which lies above those of all
      lists: the protocol's edits take any such gap. */
  lemma EnqueueOneList(rows: seq<Row>, u: Update, other: ListId)
    requires ById(rows) && u.list != other
    ensures Gap(rows, u.list) >= 0
    ensures Of(Enqueue(rows, u), u.list) == EnqueueAt(Of(rows, u.list), u, Gap(rows, u.list))
    ensures Of(Enqueue(rows, u), other) == Of(rows, other)
  {
    var mine := Of(rows, u.list);
    OfOnly(rows, u.list);
    assert Holds(rows, u) <==> Holds(mine, u) by {
      if Holds(rows, u) {
        var i :| 0 <= i < |rows| && rows[i].update == u;
        assert rows[i] in mine;
        var j :| 0 <= j < |mine| && mine[j] == rows[i];
      }
      if Holds(mine, u) {
        var j :| 0 <= j < |mine| && mine[j].update == u;
        assert mine[j] in rows;
        var i :| 0 <= i < |rows| && rows[i] == mine[j];
      }
    }
    if mine != [] {
      assert mine[|mine| - 1] in rows;
    }
    OfLast(rows, Row(NextId(rows), u, Pending, 0), u.list);
    OfLast(rows, Row(NextId(rows), u, Pending, 0), other);
  }

  lemma {:induction false} OfLast(rows: seq<Row>, row: Row, list: ListId)
    ensures Of(rows + [row], list) == Of(rows, list) + if row.update.list == list then [row] else []
  {
    if rows == [] {
      assert rows + [row] == [row] && [row][1..] == [];
    } else {
      OfLast(rows[1..], row, list);
      assert (rows + [row])[1..] == rows[1..] + [row];
    }
  }

  lemma {:induction false} SelectAlone(rows: seq<Row>, list: ListId, limit: nat)
    ensures Select(Of(rows, list), list, limit) == Select(rows, list, limit)
  {
    if rows != [] && limit > 0 {
      SelectAlone(rows[1..], list, if Waiting(rows[0], list) then limit - 1 else limit);
      if rows[0].update.list == list {
        assert Of(rows, list)[1..] == Of(rows[1..], list);
      }
    }
  }

  lemma {:induction false} FlipOf(rows: seq<Row>, list: ListId, ids: set<nat>)
    ensures Of(Flip(rows, ids), list) == Flip(Of(rows, list), ids)
  {
    if rows != [] {
      FlipOf(rows[1..], list, ids);
      assert Flip(rows, ids)[1..] == Flip(rows[1..], ids);
      if rows[0].update.list == list {
        assert Flip(Of(rows, list), ids) == [FlipRow(rows[0], ids)] + Flip(Of(rows[1..], list), ids);
      }
    }
  }

  lemma {:induction false} OfOnly(rows: seq<Row>, list: ListId)
    ensures forall r :: r in Of(rows, list) <==> r in rows && r.update.list == list
  {
    if rows != [] {
      OfOnly(rows[1..], list);
      assert rows == [rows[0]] + rows[1..];
    }
  }

  /** The table as the client updates it. */
  class Table {
    var rows: seq<Row>

    ghost predicate Valid()
      reads this
    {
      && ById(rows)
      && forall i, j | 0 <= i < j < |rows| :: rows[i].update != rows[j].update
    }

    constructor ()
      ensures Valid() && rows == []
    {
      rows := [];
    }

    method EnqueueOutbound(u: Update)
      requires Valid()
      modifies this
      ensures Valid() && rows == Enqueue(old(rows), u)
      ensures Holds(rows, u)
    {
      var k := 0;
      while k < |rows|
        invariant 0 <= k <= |rows|
        invariant forall i | 0 <= i < k :: rows[i].update != u
      {
        if rows[k].update == u {
          return;
        }
        k := k + 1;
      }
      rows := rows + [Row(NextId(rows), u, Pending, 0)];
      assert rows[|rows| - 1].update == u;
    }

    method TakeOutbound(list: ListId, limit: nat) returns (claims: seq<Claim>)
      requires Valid()
      modifies this
      ensures Valid()
      ensures claims == Select(old(rows), list, limit)
      ensures rows == Flip(old(rows), Ids(claims))
      ensures |rows| == |old(rows)|
      ensures forall i | 0 <= i < |rows| :: var r := old(rows[i]);
        rows[i] == if r.localId in Ids(claims) then Row(r.localId, r.update, Inflight, r.attempts + 1) else r
    {
      claims := SelectPending(rows, list, limit);
      SelectInOrder(rows, list, limit);
      MarkInflight(claims);
    }

    /** The SELECT of a claim. */
    static method SelectPending(rows: seq<Row>, list: ListId, limit: nat) returns (claims: seq<Claim>)
      ensures claims == Select(rows, list, limit)
    {
      claims := [];
      var k := 0;
      while k < |rows| && |claims| < limit
        invariant 0 <= k <= |rows| && |claims| <= limit
        invariant Select(rows, list, limit) == claims + Select(rows[k..], list, limit - |claims|)
      {
        assert rows[k..][0] == rows[k] && rows[k..][1..] == rows[k + 1..];
        if Waiting(rows[k], list) {
          claims := claims + [Claim(rows[k].localId, rows[k].update)];
        }
        k := k + 1;
      }
      assert Select(rows[k..], list, limit - |claims|) == [];
    }

    /** The per-row UPDATEs of a claim. */
    method MarkInflight(claims: seq<Claim>)
      requires Valid()
      requires forall i, j | 0 <= i < j < |claims| :: claims[i].localId < claims[j].localId
      modifies this
      ensures Valid() && rows == Flip(old(rows), Ids(claims))
    {
      var k := 0;
      ghost var before := rows;
      while k < |claims|
        invariant 0 <= k <= |claims|
        invariant rows == Flip(before, Ids(claims[..k]))
      {
        FlipOneMore(before, claims, k);
        rows := Flip(rows, {claims[k].localId});
        k := k + 1;
      }
      assert claims[..k] == claims;
    }

    method AckOutbound(id: nat)
      requires Valid()
      modifies this
      ensures Valid() && rows == Ack(old(rows), id)
      ensures forall r :: r in rows <==> r in old(rows) && r.localId != id
    {
      AckFacts(rows, id);
      AckDistinct(rows, id);
      rows := Ack(rows, id);
    }

    method ReleaseOutbound(id: nat)
      requires Valid()
      modifies this
      ensures Valid() && rows == Release(old(rows), id) && |rows| == |old(rows)|
      ensures forall i | 0 <= i < |rows| ::
                && (old(rows)[i].localId != id ==> rows[i] == old(rows)[i])
                && (old(rows)[i].localId == id ==> rows[i] == old(rows)[i].(status := Pending))
    {
      rows := Release(rows, id);
    }
  }

  lemma {:induction false} AckDistinct(rows: seq<Row>, id: nat)
    requires forall i, j | 0 <= i < j < |rows| :: rows[i].update != rows[j].update
    ensures forall i, j | 0 <= i < j < |Ack(rows, id)| :: Ack(rows, id)[i].update != Ack(rows, id)[j].update
  {
    if rows != [] {
      AckDistinct(rows[1..], id);
      AckFacts(rows[1..], id);
      var rest := Ack(rows[1..], id);
      forall k | 0 <= k < |rest|
        ensures rest[k].update != rows[0].update
      {
        assert rest[k] in rest;
        assert rest[k] in rows[1..];
      }
    }
  }
}
