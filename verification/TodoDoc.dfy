/** The CRDT document of one list (todoers-client/src/list_doc.rs), seen as the
    set of operations it has received. Loro itself is not modelled: an operation
    is named by the peer that made it and that peer's counter, importing is set
    union, and an operation counts only once all its predecessors of the same
    peer are there (Loro keeps the others aside until then). */
module TodoDoc {

  type Peer = nat

  datatype Op = Op(peer: Peer, counter: nat)

  /** For each peer, how many of its operations are covered. */
  type VersionVector = map<Peer, nat>

  /** All the operations up to and including `op` have arrived. */
  predicate Complete(known: set<Op>, op: Op) {
    forall k | 0 <= k <= op.counter :: Op(op.peer, k) in known
  }

  /** The operations the document shows: those with no gap before them. */
  function Oplog(known: set<Op>): set<Op> {
    set op | op in known && Complete(known, op)
  }

  function EndFrom(known: set<Op>, p: Peer, k: nat): (n: nat)
    ensures k <= n && Op(p, n) !in known
    ensures forall j | k <= j < n :: Op(p, j) in known
    decreases |known|
  {
    if Op(p, k) in known then EndFrom(known - {Op(p, k)}, p, k + 1) else k
  }

  /** The first counter of `p` that is missing. */
  function End(known: set<Op>, p: Peer): nat {
    EndFrom(known, p, 0)
  }

  function Peers(known: set<Op>): set<Peer> {
    set op | op in known :: op.peer
  }

  /** `TodoDoc::version`: the version vector of the oplog. */
  function Version(known: set<Op>): VersionVector {
    map p | p in Peers(known) :: End(known, p)
  }

  predicate Covers(vv: VersionVector, op: Op) {
    op.peer in vv && op.counter < vv[op.peer]
  }

  /** `TodoDoc::export_updates_from`: what the oplog holds beyond `from`. */
  function ExportUpdatesFrom(known: set<Op>, from: VersionVector): set<Op> {
    set op | op in Oplog(known) && !Covers(from, op)
  }

  /** `TodoDoc::import`. */
  function Import(known: set<Op>, delta: set<Op>): set<Op> {
    known + delta
  }

  /** The next `n` operations peer `p` makes on the document. */
  function NewOps(known: set<Op>, p: Peer, n: nat): set<Op> {
    set k: nat | End(known, p) <= k < End(known, p) + n :: Op(p, k)
  }

  /** The operations of `p` have arrived without a gap. */
  ghost predicate Gapless(known: set<Op>, p: Peer) {
    forall k: nat | Op(p, k) in known :: Complete(known, Op(p, k))
  }

  /** The version vector covers the oplog and nothing else. */
  lemma VersionCoversOplog(known: set<Op>, op: Op)
    ensures Covers(Version(known), op) <==> op in Oplog(known)
  {
    var e := End(known, op.peer);
    if op in Oplog(known) {
      assert Complete(known, op);
      assert op.counter < e;
    }
    if Covers(Version(known), op) {
      assert Op(op.peer, op.counter) in known;
      assert forall k | 0 <= k <= op.counter :: Op(op.peer, k) in known;
    }
  }

  /** An edit's delta, exported from the version taken just before the edit, is
      exactly the edit: nothing merged earlier from other peers leaks into it. */
  lemma DeltaIsTheEdit(known: set<Op>, p: Peer, n: nat)
    requires Gapless(known, p)
    ensures ExportUpdatesFrom(known + NewOps(known, p, n), Version(known)) == NewOps(known, p, n)
    ensures NewOps(known, p, n) !! known
    ensures Gapless(known + NewOps(known, p, n), p)
  {
    var made := NewOps(known, p, n);
    var after := known + made;
    var e := End(known, p);
    forall k: nat | Op(p, k) in known
      ensures k < e
    {
      assert Complete(known, Op(p, k));
    }
    forall k: nat | Op(p, k) in after
      ensures Complete(after, Op(p, k))
    {
      assert k < e + n;
      forall j | 0 <= j <= k
        ensures Op(p, j) in after
      {
        if j >= e {
          assert Op(p, j) in made;
        }
      }
    }
    forall op
      ensures op in ExportUpdatesFrom(after, Version(known)) <==> op in made
    {
      VersionCoversOplog(known, op);
      if op.peer == p {
        assert op in known ==> Complete(known, op);
      } else {
        assert Complete(after, op) ==> Complete(known, op) by {
          assert forall k | 0 <= k <= op.counter :: Op(op.peer, k) in after <==> Op(op.peer, k) in known;
        }
      }
    }
  }

  /** Version-vector sync loses nothing: a receiver that imports what the sender
      exports beyond the receiver's version shows all the sender shows. */
  lemma SyncFromVersion(sender: set<Op>, receiver: set<Op>)
    ensures Oplog(sender) <= Oplog(Import(receiver, ExportUpdatesFrom(sender, Version(receiver))))
  {
    var merged := Import(receiver, ExportUpdatesFrom(sender, Version(receiver)));
    forall op | op in Oplog(sender)
      ensures op in Oplog(merged)
    {
      forall k | 0 <= k <= op.counter
        ensures Op(op.peer, k) in merged
      {
        var before := Op(op.peer, k);
        assert Complete(sender, op);
        assert before in sender && Complete(sender, before);
        VersionCoversOplog(receiver, before);
      }
    }
  }
}
