/** The local-first sync protocol: any number of clients editing one list, each
    with its document, its outbound queue, its cursor and the inbox of its store
    worker, and the server's log (todoers-client/src/store.rs, sync.rs and
    worker.rs, todoers-server/src/db.rs). Other lists show only as gaps in the
    server's numbering. Every event is one atomic step; a run is any sequence of
    events. */
module Protocol {
  import opened Helpers
  import opened TodoDoc
  import opened Updates
  import opened Outbound
  import opened ServerLog

  /** Rows per round-trip. */
  const BATCH := 500

  /** Where a running `push` stands. */
  datatype Push =
    | Idle
    | Sending(claims: seq<Claim>)              // the rest of the claimed batch
    | Accepted(done: Claim, rest: seq<Claim>)  // the server answered; not acked yet
    | Refused(failed: Claim)                   // an error came back; not released yet

  /** What has happened at a client so far. Nothing here influences a step. */
  datatype History = History(
    produced: seq<Update>,   // every update enqueued, in order
    authored: set<Op>,       // every operation an edit made here
    abandoned: set<Op>,      // those made by edits that then returned an error
    peers: set<Peer>,        // every peer id its documents were opened under
    presented: set<Entry>,   // every entry handed to `apply_remote_update`
    absorbed: set<Update>,   // the updates whose operations the saved document holds
    loose: set<Op>,          // abandoned operations still in the open document
    savedLoose: set<Op>)     // abandoned operations in the saved document

  /** One client's share of the list. */
  datatype Replica = Replica(
    epoch: Epoch, deks: set<Epoch>, members: set<MemberId>,
    doc: set<Op>, saved: set<Op>, peer: Peer,
    outbound: seq<Row>, push: Push,
    cursor: nat, pull: Option<nat>, inbox: seq<Entry>,
    hist: History)

  datatype System = System(list: ListId, log: seq<Entry>, next: nat, replicas: map<MemberId, Replica>)

  datatype Outcome = Stored | Lost | Failed  // Lost: stored, but the answer never arrived

  datatype Act =
    | Edit(n: nat, gap: nat)            // `edit_doc` with a closure making n operations
    | EditFails(n: nat)                 // the same, but the closure then returns an error
    | EditCut(n: nat, gap: nat, peer: Peer) // the process dies between enqueuing and saving
    | ClaimRows | Deliver(outcome: Outcome) | AckRow | ReleaseRow
    | PushError                         // a statement or a payload fails and `push` returns
    | StartPull | PullPage | DropPull
    | Live(i: nat)                      // a frame repeating log entry i arrives
    | Inject(entry: Entry)              // the relay hands over an entry of its own making
    | Present                           // the store worker takes the next inbox entry
    | Learn(epoch: Epoch, deks: set<Epoch>, members: set<MemberId>)
    | Restart(peer: Peer)

  datatype Event = At(m: MemberId, act: Act) | OtherLists(n: nat)

  // ── the steps ─────────────────────────────────────────────────────────────

  /** Signatures are ideal: one verifies exactly when its author produced it. */
  predicate Verifies(replicas: map<MemberId, Replica>, u: Update) {
    u.author in replicas && Produced(replicas[u.author].hist.produced, u)
  }

  predicate Produced(produced: seq<Update>, u: Update) {
    u.ordinal < |produced| && produced[u.ordinal] == u
  }

  /** Peer ids are random: an opened document never gets one already used. */
  predicate Unused(replicas: map<MemberId, Replica>, p: Peer) {
    forall m | m in replicas :: p !in replicas[m].hist.peers
  }

  function Max(a: nat, b: nat): nat { if a < b then b else a }

  /** An edit that returns an error after its closure changed the open document. */
  function FailedEdit(r: Replica, n: nat): Replica {
    var made := NewOps(r.doc, r.peer, n);
    r.(doc := r.doc + made, hist := r.hist.(authored := r.hist.authored + made,
                                            abandoned := r.hist.abandoned + made,
                                            loose := r.hist.loose + made))
  }

  /** `edit_doc`: the version is taken, the closure runs, then `persist` looks for
      the DEK, exports, enqueues and saves. The table is shared with other lists,
      whose rows show as a gap before the new row's id. */
  function EditDoc(r: Replica, list: ListId, m: MemberId, n: nat, gap: nat): Replica {
    var vv := Version(r.doc);
    var made := NewOps(r.doc, r.peer, n);
    var doc := r.doc + made;
    if r.epoch !in r.deks then FailedEdit(r, n)
    else
      var delta := ExportUpdatesFrom(doc, vv);
      if delta == {} then
        r.(doc := doc, saved := doc,
           hist := r.hist.(authored := r.hist.authored + made, savedLoose := r.hist.loose))
      else
        var u := Update(list, r.epoch, m, |r.hist.produced|, delta);
        r.(doc := doc, saved := doc, outbound := EnqueueAt(r.outbound, u, gap),
           hist := r.hist.(authored := r.hist.authored + made, savedLoose := r.hist.loose,
                           produced := r.hist.produced + [u], absorbed := r.hist.absorbed + {u}))
  }

  /** The process ends and starts again: the document comes from disk under a new
      peer id; the queue, the cursor and the key slots survive. */
  function Reopen(r: Replica, peer: Peer): Replica {
    r.(doc := r.saved, peer := peer, push := Idle, pull := None, inbox := [],
       hist := r.hist.(peers := r.hist.peers + {peer}, loose := r.hist.savedLoose))
  }

  /** The edit reached the queue but neither the saved document nor anything after. */
  function EditThenDie(r: Replica, list: ListId, m: MemberId, n: nat, gap: nat, peer: Peer): Replica {
    var edited := EditDoc(r, list, m, n, gap);
    Reopen(edited.(saved := r.saved,
                   hist := edited.hist.(absorbed := r.hist.absorbed, savedLoose := r.hist.savedLoose)), peer)
  }

  /** `apply_remote_update` on the next entry of the inbox. */
  function PresentNext(r: Replica, replicas: map<MemberId, Replica>, m: MemberId): Replica
    requires r.inbox != []
  {
    var e := r.inbox[0];
    var u := e.update;
    var seen := r.(inbox := r.inbox[1..], hist := r.hist.(presented := r.hist.presented + {e}));
    if u.author == m then
      seen.(cursor := Max(r.cursor, e.seqno))
    else if u.epoch !in r.deks || u.author !in r.members || !Verifies(replicas, u) then
      seen
    else
      var doc := Import(r.doc, u.ops);
      seen.(doc := doc, saved := doc, cursor := Max(r.cursor, e.seqno),
            hist := seen.hist.(absorbed := r.hist.absorbed + {u}, savedLoose := r.hist.loose))
  }

  function Continue(claims: seq<Claim>): Push {
    if claims == [] then Idle else Sending(claims)
  }

  /** What an act changes at the client itself. */
  function ClientStep(s: System, m: MemberId, act: Act): Replica
    requires m in s.replicas
  {
    var r := s.replicas[m];
    match act
    case Edit(n, gap) => EditDoc(r, s.list, m, n, gap)
    case EditFails(n) => FailedEdit(r, n)
    case EditCut(n, gap, peer) => if Unused(s.replicas, peer) then EditThenDie(r, s.list, m, n, gap, peer) else r
    case ClaimRows =>
      if !r.push.Idle? then r else
        var claims := Select(r.outbound, s.list, BATCH);
        r.(outbound := Flip(r.outbound, Ids(claims)), push := Continue(claims))
    case Deliver(outcome) =>
      if !r.push.Sending? || r.push.claims == [] then r else
        r.(push := if outcome == Stored then Accepted(r.push.claims[0], r.push.claims[1..])
                   else Refused(r.push.claims[0]))
    case AckRow =>
      if !r.push.Accepted? then r else
        r.(outbound := Ack(r.outbound, r.push.done.localId), push := Continue(r.push.rest))
    case ReleaseRow =>
      if !r.push.Refused? then r else
        r.(outbound := Release(r.outbound, r.push.failed.localId), push := Idle)
    case PushError => r.(push := Idle)
    case StartPull => if r.pull.Some? then r else r.(pull := Some(r.cursor))
    case PullPage =>
      if r.pull.None? then r else
        var page := Fetch(s.log, s.list, r.pull.value, BATCH);
        var at := if page == [] then r.pull.value else page[|page| - 1].seqno;
        r.(inbox := r.inbox + page, pull := if |page| < BATCH then None else Some(at))
    case DropPull => r.(pull := None)
    case Live(i) => if i < |s.log| then r.(inbox := r.inbox + [s.log[i]]) else r
    case Inject(entry) => r.(inbox := r.inbox + [entry])
    case Present => if r.inbox == [] then r else PresentNext(r, s.replicas, m)
    case Learn(epoch, deks, members) => r.(epoch := epoch, deks := r.deks + deks, members := members)
    case Restart(peer) => if Unused(s.replicas, peer) then Reopen(r, peer) else r
  }

  /** The request a delivery stores, whether or not its answer arrives. */
  function StoredBy(r: Replica, act: Act): Option<Update> {
    if act.Deliver? && act.outcome != Failed && r.push.Sending? && r.push.claims != []
    then Some(r.push.claims[0].update) else None
  }

  function Step(s: System, ev: Event): System {
    match ev
    case OtherLists(n) => s.(next := s.next + n)
    case At(m, act) =>
      if m !in s.replicas then s else
        var moved := s.(replicas := s.replicas[m := ClientStep(s, m, act)]);
        match StoredBy(s.replicas[m], act)
        case None => moved
        case Some(u) => moved.(log := Insert(s.log, s.next, u), next := s.next + 1)
  }

  function Run(s: System, evs: seq<Event>): System
    decreases |evs|
  {
    if evs == [] then s else Run(Step(s, evs[0]), evs[1..])
  }

  /** An event changes at most the client it happens at. */
  lemma StepAt(s: System, ev: Event, m: MemberId)
    requires m in s.replicas
    ensures m in Step(s, ev).replicas
    ensures Step(s, ev).replicas[m] == if ev.At? && ev.m == m then ClientStep(s, m, ev.act) else s.replicas[m]
  {
  }

  /** A run in two parts. */
  lemma {:induction false} RunConcat(s: System, a: seq<Event>, b: seq<Event>)
    ensures Run(s, a + b) == Run(Run(s, a), b)
    decreases |a|
  {
    if a == [] {
      assert a + b == b;
    } else {
      RunConcat(Step(s, a[0]), a[1..], b);
      assert (a + b)[1..] == a[1..] + b;
    }
  }

  /** Clients that know the list but have not touched it yet. */
  ghost predicate Init(s: System) {
    && s.log == [] && s.next == 1
    && (forall m | m in s.replicas ::
          var r := s.replicas[m];
          && r.doc == {} && r.saved == {} && r.outbound == [] && r.push == Idle
          && r.cursor == 0 && r.pull == None && r.inbox == []
          && r.hist == History([], {}, {}, {r.peer}, {}, {}, {}, {}))
    && forall m, n | m in s.replicas && n in s.replicas && m != n :: s.replicas[m].peer != s.replicas[n].peer
  }
}
