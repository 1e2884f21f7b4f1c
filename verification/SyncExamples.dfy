/** Runs that reach the failing side of the exact conditions. */
module SyncExamples {
  import opened TodoDoc
  import opened Updates
  import opened Outbound
  import opened ServerLog
  import opened Protocol
  import Upload
  import Cursor

  function Run2(s: System, a: Event, b: Event): System {
    Step(Step(s, a), b)
  }

  lemma RunOfTwo(s: System, a: Event, b: Event)
    ensures Run(s, [a, b]) == Run2(s, a, b)
  {
    assert [a, b][1..] == [b] && [b][1..] == [];
    assert Run(Step(s, a), [b]) == Run(Step(Step(s, a), b), []);
  }

  lemma RunOfFour(s: System, a: Event, b: Event, c: Event, d: Event)
    ensures Run(s, [a, b, c, d]) == Run2(Run2(s, a, b), c, d)
  {
    assert [a, b, c, d] == [a, b] + [c, d];
    RunConcat(s, [a, b], [c, d]);
    RunOfTwo(s, a, b);
    RunOfTwo(Run2(s, a, b), c, d);
  }

  // ── edits that wait ───────────────────────────────────────────────────────

  const ONE_OP := Edit(1, 0)

  /** A client's update number `k` when every edit makes one operation. */
  function Draft(s0: System, m: MemberId, k: nat): Update
    requires m in s0.replicas
  {
    Update(s0.list, s0.replicas[m].epoch, m, k, {Op(s0.replicas[m].peer, k)})
  }

  function Drafts(s0: System, m: MemberId, n: nat): seq<Update>
    requires m in s0.replicas
  {
    seq(n, k requires k >= 0 => Draft(s0, m, k))
  }

  function Rows(s0: System, m: MemberId, n: nat): seq<Row>
    requires m in s0.replicas
  {
    seq(n, k requires k >= 0 => Row(k + 1, Draft(s0, m, k), Pending, 0))
  }

  ghost predicate Others(s: System, s': System, m: MemberId) {
    s'.list == s.list && s'.replicas.Keys == s.replicas.Keys
    && forall b | b in s.replicas && b != m :: s'.replicas[b] == s.replicas[b]
  }

  /** A client that can edit has made `n` edits of one operation... */
  ghost predicate HasDrafted(s0: System, r: Replica, m: MemberId, n: nat) {
    && m in s0.replicas && r.peer == s0.replicas[m].peer && r.epoch == s0.replicas[m].epoch && r.epoch in r.deks
    && r.doc == (set j: nat | j < n :: Op(r.peer, j))
    && r.outbound == Rows(s0, m, n) && r.push == Idle && r.hist.produced == Drafts(s0, m, n)
  }

  /** ...and nothing else has happened. */
  ghost predicate Drafted(s0: System, s: System, m: MemberId, n: nat) {
    m in s0.replicas && Others(s0, s, m) && s.log == [] && s.next == 1 && HasDrafted(s0, s.replicas[m], m, n)
  }

  lemma NextOp(known: set<Op>, p: Peer, k: nat)
    requires known == (set j: nat | j < k :: Op(p, j))
    ensures End(known, p) == k && NewOps(known, p, 1) == {Op(p, k)}
    ensures ExportUpdatesFrom(known + {Op(p, k)}, Version(known)) == {Op(p, k)}
  {
    assert forall j: nat :: Op(p, j) in known <==> j < k;
    var e := End(known, p);
    assert Op(p, e) !in known;
    assert e > k ==> Op(p, k) in known;
    assert NewOps(known, p, 1) == {Op(p, k)};
    DeltaIsTheEdit(known, p, 1);
  }

  /** `r'` is `r` after one more such edit. */
  ghost predicate Enqueued(r: Replica, r': Replica, n: nat, u: Update) {
    && r'.doc == r.doc + {Op(r.peer, n)} && r'.outbound == r.outbound + [Row(NextId(r.outbound), u, Pending, 0)]
    && r'.hist.produced == r.hist.produced + [u] && r'.push == r.push
    && r'.peer == r.peer && r'.epoch == r.epoch && r'.deks == r.deks
  }

  lemma EditOfOne(r: Replica, list: ListId, m: MemberId, n: nat, u: Update)
    requires r.doc == (set j: nat | j < n :: Op(r.peer, j)) && r.epoch in r.deks
    requires u == Update(list, r.epoch, m, |r.hist.produced|, {Op(r.peer, n)}) && !Holds(r.outbound, u)
    ensures Enqueued(r, EditDoc(r, list, m, 1, 0), n, u)
  {
    NextOp(r.doc, r.peer, n);
  }

  lemma DraftsGrow(s0: System, r: Replica, r': Replica, m: MemberId, n: nat)
    requires HasDrafted(s0, r, m, n) && Enqueued(r, r', n, Draft(s0, m, n))
    ensures HasDrafted(s0, r', m, n + 1)
  {
    assert r.doc + {Op(r.peer, n)} == set j: nat | j < n + 1 :: Op(r.peer, j);
    assert Rows(s0, m, n) + [Row(n + 1, Draft(s0, m, n), Pending, 0)] == Rows(s0, m, n + 1);
    assert Drafts(s0, m, n) + [Draft(s0, m, n)] == Drafts(s0, m, n + 1);
  }

  lemma OneMoreDraft(s0: System, s: System, m: MemberId, n: nat)
    requires Drafted(s0, s, m, n)
    ensures Drafted(s0, Step(s, At(m, ONE_OP)), m, n + 1)
  {
    EditOfOne(s.replicas[m], s.list, m, n, Draft(s0, m, n));
    DraftsGrow(s0, s.replicas[m], EditDoc(s.replicas[m], s.list, m, 1, 0), m, n);
  }

  lemma NoneDrafted(s0: System, m: MemberId)
    requires Init(s0) && m in s0.replicas && s0.replicas[m].epoch in s0.replicas[m].deks
    ensures Drafted(s0, s0, m, 0)
  {
    assert Rows(s0, m, 0) == [] && Drafts(s0, m, 0) == [];
    assert (set j: nat | j < 0 :: Op(s0.replicas[m].peer, j)) == {};
  }

  function Pair(s0: System, m: MemberId): seq<Claim>
    requires m in s0.replicas
  {
    [Claim(1, Draft(s0, m, 0)), Claim(2, Draft(s0, m, 1))]
  }

  lemma BothSelected(s0: System, m: MemberId)
    requires m in s0.replicas
    ensures Select(Rows(s0, m, 2), s0.list, BATCH) == Pair(s0, m)
  {
    var rows := Rows(s0, m, 2);
    assert rows[1..] == [rows[1]] && [rows[1]][1..] == [];
    assert Select(rows[1..], s0.list, BATCH - 1) == [Claim(2, Draft(s0, m, 1))];
  }

  /** Both updates are claimed and nothing is delivered. */
  ghost predicate BothClaimed(s0: System, s: System, m: MemberId) {
    && m in s0.replicas && Others(s0, s, m) && s.log == [] && s.next == 1
    && s.replicas[m].push == Sending(Pair(s0, m)) && s.replicas[m].hist.produced == Drafts(s0, m, 2)
    && forall row | row in s.replicas[m].outbound :: row.status == Inflight
  }

  lemma BothAreClaimed(s0: System, s: System, m: MemberId)
    requires Drafted(s0, s, m, 2)
    ensures BothClaimed(s0, Step(s, At(m, ClaimRows)), m)
  {
    BothSelected(s0, m);
    var r' := Step(s, At(m, ClaimRows)).replicas[m];
    assert r'.outbound == Flip(Rows(s0, m, 2), Ids(Pair(s0, m)));
    assert Pair(s0, m)[0] in Pair(s0, m) && Pair(s0, m)[1] in Pair(s0, m);
    assert {1, 2} <= Ids(Pair(s0, m));
    assert r'.outbound[0].status == Inflight && r'.outbound[1].status == Inflight;
  }

  /** Two edits and the claim of both. */
  lemma TwoEditsClaimed(s0: System, m: MemberId)
    requires Init(s0) && m in s0.replicas && s0.replicas[m].epoch in s0.replicas[m].deks
    ensures BothClaimed(s0, Run(s0, [At(m, ONE_OP), At(m, ONE_OP), At(m, ClaimRows)]), m)
  {
    var edit, claim := At(m, ONE_OP), At(m, ClaimRows);
    NoneDrafted(s0, m);
    OneMoreDraft(s0, s0, m, 0);
    OneMoreDraft(s0, Step(s0, edit), m, 1);
    BothAreClaimed(s0, Run2(s0, edit, edit), m);
    RunOfTwo(Step(s0, edit), edit, claim);
    assert [edit, edit, claim][1..] == [edit, claim];
  }

  // ── a failed delivery ─────────────────────────────────────────────────────

  lemma RefusedIsStranded(s: System, m: MemberId, c: Claim, d: Claim)
    requires m in s.replicas && s.replicas[m].push == Sending([c, d]) && s.log == [] && c.update != d.update
    requires forall row | row in s.replicas[m].outbound :: row.status == Inflight
    ensures var s' := Step(s, At(m, Deliver(Failed)));
            m in s'.replicas && s'.replicas[m].hist == s.replicas[m].hist && Upload.Stranded(s', m, d.update)
  {
    var s' := Step(s, At(m, Deliver(Failed)));
    assert s'.replicas[m].push == Refused(c);
    assert Upload.Held(Refused(c)) == [c];
    assert forall i | 0 <= i < |s.replicas[m].outbound| :: s.replicas[m].outbound[i] in s.replicas[m].outbound;
  }

  /** Two edits, one claim, a first delivery that fails: the second update is
      stranded, from whatever start. */
  lemma FailureStrandsTheRest(s0: System, m: MemberId)
    requires Init(s0) && m in s0.replicas && s0.replicas[m].epoch in s0.replicas[m].deks
    ensures var s := Run(s0, [At(m, ONE_OP), At(m, ONE_OP), At(m, ClaimRows)] + [At(m, Deliver(Failed))]);
            && m in s.replicas && |s.replicas[m].hist.produced| == 2
            && Upload.Stranded(s, m, s.replicas[m].hist.produced[1])
  {
    TwoEditsClaimed(s0, m);
    var claimed := [At(m, ONE_OP), At(m, ONE_OP), At(m, ClaimRows)];
    var s := Run(s0, claimed);
    RunConcat(s0, claimed, [At(m, Deliver(Failed))]);
    RefusedIsStranded(s, m, Pair(s0, m)[0], Pair(s0, m)[1]);
  }

  // ── a live frame out of line ──────────────────────────────────────────────

  /** One delivery and its ack. */
  lemma DeliverAndAck(s: System, m: MemberId, claims: seq<Claim>)
    requires m in s.replicas && claims != [] && s.replicas[m].push == Sending(claims)
    requires !Logged(s.log, claims[0].update)
    ensures var s' := Run2(s, At(m, Deliver(Stored)), At(m, AckRow));
            && Others(s, s', m) && s'.log == s.log + [Entry(s.next, claims[0].update)] && s'.next == s.next + 1
            && s'.replicas[m].push == Continue(claims[1..]) && s'.replicas[m].hist == s.replicas[m].hist
  {
    var s1 := Step(s, At(m, Deliver(Stored)));
    assert s1.replicas[m].push == Accepted(claims[0], claims[1..]);
  }

  ghost predicate BothLogged(s0: System, s: System, m: MemberId) {
    && m in s0.replicas && Others(s0, s, m)
    && s.log == [Entry(1, Draft(s0, m, 0)), Entry(2, Draft(s0, m, 1))]
    && s.replicas[m].hist.produced == Drafts(s0, m, 2)
  }

  lemma BothAreLogged(s0: System, s: System, m: MemberId)
    requires BothClaimed(s0, s, m)
    ensures BothLogged(s0, Run2(Run2(s, At(m, Deliver(Stored)), At(m, AckRow)),
                                At(m, Deliver(Stored)), At(m, AckRow)), m)
  {
    var pair := Pair(s0, m);
    DeliverAndAck(s, m, pair);
    assert pair[1..] == [pair[1]] && [pair[1]][1..] == [];
    SecondIsLogged(s0, Run2(s, At(m, Deliver(Stored)), At(m, AckRow)), m);
  }

  lemma SecondIsLogged(s0: System, s: System, m: MemberId)
    requires m in s0.replicas && Others(s0, s, m)
    requires s.log == [Entry(1, Draft(s0, m, 0))] && s.next == 2
    requires s.replicas[m].push == Sending([Pair(s0, m)[1]]) && s.replicas[m].hist.produced == Drafts(s0, m, 2)
    ensures BothLogged(s0, Run2(s, At(m, Deliver(Stored)), At(m, AckRow)), m)
  {
    DeliverAndAck(s, m, [Pair(s0, m)[1]]);
  }

  /** An entry presented without its predecessor. */
  lemma LivePasses(s: System, b: MemberId, first: Entry, second: Entry)
    requires b in s.replicas && s.log == [first, second] && first.seqno < second.seqno
    requires Cursor.Mergeable(s, b, second.update)
    requires s.replicas[b].inbox == [] && s.replicas[b].hist.presented == {} && first != second
    ensures var s' := Run2(s, At(b, Live(1)), At(b, Present)); b in s'.replicas && !Cursor.Honest(s', b)
  {
    Cursor.LiveStep(s, b, 1);
    var s1 := Step(s, At(b, Live(1)));
    assert s1.replicas[b].inbox == [second];
    Cursor.PresentOne(s1, b);
    var s' := Step(s1, At(b, Present));
    assert s'.replicas[b].hist.presented == {second};
    assert first in s'.log && first !in s'.replicas[b].hist.presented;
  }

  /** Two edits, claimed, delivered and acked. */
  function Uploads(m: MemberId): seq<Event> {
    [At(m, ONE_OP), At(m, ONE_OP), At(m, ClaimRows)]
      + [At(m, Deliver(Stored)), At(m, AckRow), At(m, Deliver(Stored)), At(m, AckRow)]
  }

  lemma UploadsLogBoth(s0: System, m: MemberId)
    requires Init(s0) && m in s0.replicas && s0.replicas[m].epoch in s0.replicas[m].deks
    ensures BothLogged(s0, Run(s0, Uploads(m)), m)
  {
    var stored, ack := At(m, Deliver(Stored)), At(m, AckRow);
    var claimed := [At(m, ONE_OP), At(m, ONE_OP), At(m, ClaimRows)];
    TwoEditsClaimed(s0, m);
    BothAreLogged(s0, Run(s0, claimed), m);
    RunConcat(s0, claimed, [stored, ack, stored, ack]);
    RunOfFour(Run(s0, claimed), stored, ack, stored, ack);
  }

  /** A client uploads two edits; another gets the second as a live frame before it
      ever pulled. Its cursor then stands beyond an entry it never presented. */
  lemma LiveFrameSkipsAnEntry(s0: System, a: MemberId, b: MemberId)
    requires Init(s0) && a in s0.replicas && b in s0.replicas && a != b
    requires s0.replicas[a].epoch in s0.replicas[a].deks
    requires s0.replicas[a].epoch in s0.replicas[b].deks && a in s0.replicas[b].members
    ensures var s := Run(s0, Uploads(a) + [At(b, Live(1)), At(b, Present)]);
            b in s.replicas && !Cursor.Honest(s, b)
  {
    UploadsLogBoth(s0, a);
    var s := Run(s0, Uploads(a));
    assert Verifies(s.replicas, Draft(s0, a, 1));
    LivePasses(s, b, s.log[0], s.log[1]);
    RunConcat(s0, Uploads(a), [At(b, Live(1)), At(b, Present)]);
    RunOfTwo(s, At(b, Live(1)), At(b, Present));
  }
}
