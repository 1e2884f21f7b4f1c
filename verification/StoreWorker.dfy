/** The store's document operations and the worker's batch loop in the form they
    have in the program (todoers-client/src/store.rs:470-658,
    todoers-client/src/worker.rs:173-179), for one list. */
module StoreWorker {
  import opened Helpers
  import opened TodoDoc
  import opened Updates
  import opened Outbound
  import opened ServerLog
  import opened Protocol
  import Cursor

  /** Presenting the first `n` entries of the inbox. */
  function Presented(r: Replica, replicas: map<MemberId, Replica>, m: MemberId, n: nat): Replica
    decreases n
  {
    if n == 0 || r.inbox == [] then r else Presented(PresentNext(r, replicas, m), replicas, m, n - 1)
  }

  /** Whether presenting this entry merges it. */
  predicate Merges(deks: set<Epoch>, members: set<MemberId>, replicas: map<MemberId, Replica>, m: MemberId, u: Update) {
    u.author != m && u.epoch in deks && u.author in members && Verifies(replicas, u)
  }

  /** What it means: a merged update is absorbed and its operations are in the
      document; of any other entry nothing is. */
  lemma MergedIff(r: Replica, replicas: map<MemberId, Replica>, m: MemberId)
    requires r.inbox != []
    ensures var u, r' := r.inbox[0].update, PresentNext(r, replicas, m);
            if Merges(r.deks, r.members, replicas, m, u)
            then r'.hist.absorbed == r.hist.absorbed + {u} && u.ops <= r'.doc && r'.saved == r'.doc
            else r'.hist.absorbed == r.hist.absorbed && r'.doc == r.doc && r'.saved == r.saved
  {
  }

  /** Whether presenting the first `k` entries of a batch merges any. */
  ghost predicate MergesAny(deks: set<Epoch>, members: set<MemberId>, replicas: map<MemberId, Replica>, m: MemberId,
                            batch: seq<Entry>, k: nat)
    requires k <= |batch|
  {
    exists i :: 0 <= i < k && Merges(deks, members, replicas, m, batch[i].update)
  }

  lemma MergesOneMore(deks: set<Epoch>, members: set<MemberId>, replicas: map<MemberId, Replica>, m: MemberId,
                      batch: seq<Entry>, k: nat)
    requires k < |batch|
    ensures MergesAny(deks, members, replicas, m, batch, k + 1)
       <==> MergesAny(deks, members, replicas, m, batch, k) || Merges(deks, members, replicas, m, batch[k].update)
  {
  }

  lemma {:induction false} PresentedOneMore(r: Replica, replicas: map<MemberId, Replica>, m: MemberId, n: nat)
    requires n < |r.inbox|
    ensures Presented(r, replicas, m, n).inbox == r.inbox[n..]
    ensures Presented(r, replicas, m, n).deks == r.deks && Presented(r, replicas, m, n).members == r.members
    ensures Presented(r, replicas, m, n + 1) == PresentNext(Presented(r, replicas, m, n), replicas, m)
    decreases n
  {
    if n > 0 {
      PresentedOneMore(PresentNext(r, replicas, m), replicas, m, n - 1);
    }
  }

  lemma GapFact(rows: seq<Row>, list: ListId)
    requires ById(rows)
    ensures Gap(rows, list) >= 0
  {
    OfOnly(rows, list);
    var mine := Of(rows, list);
    if mine != [] {
      assert mine[|mine| - 1] in rows;
    }
  }

  lemma EnqueueForOne(rows: seq<Row>, u: Update)
    requires ById(rows)
    ensures Gap(rows, u.list) >= 0 && Of(Enqueue(rows, u), u.list) == EnqueueAt(Of(rows, u.list), u, Gap(rows, u.list))
    ensures forall other | other != u.list :: Of(Enqueue(rows, u), other) == Of(rows, other)
  {
    forall other | other != u.list
      ensures Of(Enqueue(rows, u), other) == Of(rows, other)
    {
      EnqueueOneList(rows, u, other);
    }
    EnqueueOneList(rows, u, u.list + 1);
  }

  /** A list's open document with what the store keeps about it. */
  class OpenList {
    const list: ListId
    const me: MemberId
    const table: Table
    var epoch: Epoch
    var deks: set<Epoch>
    var members: set<MemberId>
    var doc: set<Op>
    var saved: set<Op>
    var peer: Peer
    var cursor: nat
    var drawn: nat  // nonces drawn so far
    ghost var hist: History

    ghost predicate Valid()
      reads this, table
    {
      table.Valid() && drawn == |hist.produced|
    }

    /** The client in the protocol's terms: of the table the rows of its list; push,
        pull and inbox belong to others. */
    ghost function View(push: Push, pull: Option<nat>, inbox: seq<Entry>): Replica
      reads this, table
    {
      Replica(epoch, deks, members, doc, saved, peer, Of(table.rows, list), push, cursor, pull, inbox, hist)
    }

    /** `ensure_doc`: the document as it was saved, under the peer id it gets. */
    constructor (list: ListId, me: MemberId, table: Table, epoch: Epoch, deks: set<Epoch>, members: set<MemberId>,
                 saved: set<Op>, peer: Peer, cursor: nat, drawn: nat, ghost hist: History)
      requires table.Valid() && drawn == |hist.produced|
      ensures Valid() && this.list == list && this.me == me && this.table == table
      ensures View(Idle, None, []) == Replica(epoch, deks, members, saved, saved, peer, Of(table.rows, list), Idle,
          cursor, None, [], hist)
    {
      this.list, this.me, this.table := list, me, table;
      this.epoch, this.deks, this.members := epoch, deks, members;
      this.doc, this.saved, this.peer := saved, saved, peer;
      this.cursor, this.drawn, this.hist := cursor, drawn, hist;
    }

    /** `edit_doc` and `persist`: on a missing DEK the document stays changed and
        nothing else happens. */
    method EditDoc(n: nat, ghost push: Push, ghost pull: Option<nat>, ghost inbox: seq<Entry>) returns (ok: bool)
      requires Valid()
      modifies this, table
      ensures Valid() && ok == (old(epoch) in old(deks))
      ensures Gap(old(table.rows), list) >= 0
      ensures View(push, pull, inbox)
           == Protocol.EditDoc(old(View(push, pull, inbox)), list, me, n, Gap(old(table.rows), list))
      ensures forall other | other != list :: Of(table.rows, other) == old(Of(table.rows, other))
    {
      ghost var before := table.rows;
      GapFact(before, list);
      var vv := Version(doc);
      var made := NewOps(doc, peer, n);
      doc := doc + made;
      hist := hist.(authored := hist.authored + made);
      if epoch !in deks {
        hist := hist.(abandoned := hist.abandoned + made, loose := hist.loose + made);
        return false;
      }
      var delta := ExportUpdatesFrom(doc, vv);
      if delta != {} {
        var u := Update(list, epoch, me, drawn, delta);
        drawn := drawn + 1;
        table.EnqueueOutbound(u);
        EnqueueForOne(before, u);
        hist := hist.(produced := hist.produced + [u], absorbed := hist.absorbed + {u});
      }
      saved := doc;
      hist := hist.(savedLoose := hist.loose);
      ok := true;
    }

    /** `apply_remote_update`; `replicas` decides which signatures verify. */
    method ApplyRemoteUpdate(e: Entry, replicas: map<MemberId, Replica>,
                             ghost push: Push, ghost pull: Option<nat>, ghost rest: seq<Entry>) returns (changed: bool)
      requires Valid()
      modifies this
      ensures Valid() && deks == old(deks) && members == old(members)
      ensures View(push, pull, rest) == PresentNext(old(View(push, pull, [e] + rest)), replicas, me)
      ensures changed == Merges(deks, members, replicas, me, e.update)
    {
      assert ([e] + rest)[1..] == rest;
      hist := hist.(presented := hist.presented + {e});
      if e.update.author == me {
        cursor := Max(cursor, e.seqno);
        return false;
      }
      if e.update.epoch !in deks {
        return false;
      }
      if e.update.author !in members {
        return false;
      }
      if !Verifies(replicas, e.update) {
        return false;
      }
      doc := Import(doc, e.update.ops);
      saved := doc;
      hist := hist.(absorbed := hist.absorbed + {e.update}, savedLoose := hist.loose);
      cursor := Max(cursor, e.seqno);
      changed := true;
    }

    /** The worker's loop over one batch of remote updates. */
    method ApplyRemote(batch: seq<Entry>, replicas: map<MemberId, Replica>,
                       ghost push: Push, ghost pull: Option<nat>, ghost rest: seq<Entry>) returns (changed: bool)
      requires Valid()
      modifies this
      ensures Valid() && deks == old(deks) && members == old(members)
      ensures View(push, pull, rest) == Presented(old(View(push, pull, batch + rest)), replicas, me, |batch|)
      ensures changed <==> MergesAny(deks, members, replicas, me, batch, |batch|)
    {
      changed := false;
      ghost var start := View(push, pull, batch + rest);
      var k := 0;
      while k < |batch|
        invariant 0 <= k <= |batch| && Valid() && deks == old(deks) && members == old(members)
        invariant View(push, pull, batch[k..] + rest) == Presented(start, replicas, me, k)
        invariant changed <==> MergesAny(deks, members, replicas, me, batch, k)
      {
        MergesOneMore(deks, members, replicas, me, batch, k);
        PresentedOneMore(start, replicas, me, k);
        assert batch[k..] + rest == [batch[k]] + (batch[k + 1..] + rest);
        var one := ApplyRemoteUpdate(batch[k], replicas, push, pull, batch[k + 1..] + rest);
        changed := changed || one;
        k := k + 1;
      }
      assert batch[k..] + rest == rest;
    }
  }

  /** What verifies does not depend on what anybody presented. */
  lemma PresentChangesNoSignature(s: System, m: MemberId)
    requires m in s.replicas && s.replicas[m].inbox != []
    ensures var s' := Step(s, At(m, Present));
            && m in s'.replicas && s'.replicas[m] == PresentNext(s.replicas[m], s.replicas, m)
            && forall u :: Verifies(s'.replicas, u) <==> Verifies(s.replicas, u)
  {
  }

  lemma {:induction false} SameSignatures(r: Replica, a: map<MemberId, Replica>, b: map<MemberId, Replica>,
      m: MemberId, n: nat)
    requires forall u :: Verifies(a, u) <==> Verifies(b, u)
    ensures Presented(r, a, m, n) == Presented(r, b, m, n)
    decreases n
  {
    if n > 0 && r.inbox != [] {
      assert PresentNext(r, a, m) == PresentNext(r, b, m);
      SameSignatures(PresentNext(r, a, m), a, b, m, n - 1);
    }
  }

  /** The batch loop, run without interruption, is a run of the protocol. */
  lemma {:induction false} BatchIsRun(s: System, m: MemberId, n: nat)
    requires m in s.replicas && n <= |s.replicas[m].inbox|
    ensures Run(s, Cursor.PresentAll(m, n))
         == s.(replicas := s.replicas[m := Presented(s.replicas[m], s.replicas, m, n)])
    decreases n
  {
    if n == 0 {
      assert s.replicas == s.replicas[m := s.replicas[m]];
    } else {
      var s1 := Step(s, At(m, Present));
      PresentChangesNoSignature(s, m);
      BatchIsRun(s1, m, n - 1);
      SameSignatures(s1.replicas[m], s1.replicas, s.replicas, m, n - 1);
      assert Cursor.PresentAll(m, n)[1..] == Cursor.PresentAll(m, n - 1);
    }
  }
}
