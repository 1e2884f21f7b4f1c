/** The pull cursor: what may be concluded from `applied_through_seq`. */
module Cursor {
  import opened Helpers
  import opened Updates
  import opened ServerLog
  import opened Protocol
  import Upload

  /** Every entry before `bound` was presented or waits in `inbox`. */
  ghost predicate Reached(log: seq<Entry>, bound: nat, presented: set<Entry>, inbox: seq<Entry>) {
    forall e | e in log && e.seqno < bound :: e in presented || e in inbox
  }

  /** The inbox repeats log entries, none before its predecessors. */
  ghost predicate InboxOk(log: seq<Entry>, presented: set<Entry>, inbox: seq<Entry>) {
    forall i | 0 <= i < |inbox| :: inbox[i] in log && Reached(log, inbox[i].seqno, presented, inbox[..i])
  }

  ghost predicate CursorOk(s: System, r: Replica) {
    && r.cursor < s.next
    && Reached(s.log, r.cursor + 1, r.hist.presented, [])
    && InboxOk(s.log, r.hist.presented, r.inbox)
    && (r.pull.Some? ==> r.pull.value < s.next && Reached(s.log, r.pull.value + 1, r.hist.presented, r.inbox))
  }

  ghost predicate LogFits(s: System) {
    Sorted(s.log) && forall e | e in s.log :: e.seqno < s.next && e.update.list == s.list
  }

  ghost predicate Inv(s: System) {
    && Upload.Inv(s)
    && forall m | m in s.replicas :: CursorOk(s, s.replicas[m])
  }

  /** A live frame comes in line when all before it has been presented or is
      already waiting; the relay adds nothing of its own. */
  ghost predicate InLine(s: System, ev: Event) {
    ev.At? && ev.m in s.replicas ==>
      var r := s.replicas[ev.m];
      match ev.act
      case Live(i) => i < |s.log| ==> Reached(s.log, s.log[i].seqno, r.hist.presented, r.inbox)
      case Inject(_) => false
      case _ => true
  }

  ghost predicate InLineRun(s: System, evs: seq<Event>)
    decreases |evs|
  {
    evs == [] || (InLine(s, evs[0]) && InLineRun(Step(s, evs[0]), evs[1..]))
  }

  // ── pieces ────────────────────────────────────────────────────────────────

  lemma UploadFits(s: System)
    requires Upload.Inv(s)
    ensures LogFits(s)
  {
    forall e | e in s.log
      ensures e.update.list == s.list
    {
      assert Verifies(s.replicas, e.update);
      assert Upload.ReplicaOk(s, e.update.author);
    }
  }

  /** Handing over an entry that all earlier ones precede keeps the inbox so. */
  lemma InboxOneMore(log: seq<Entry>, presented: set<Entry>, inbox: seq<Entry>, e: Entry)
    requires InboxOk(log, presented, inbox) && e in log
    requires Reached(log, e.seqno, presented, inbox)
    ensures InboxOk(log, presented, inbox + [e])
  {
    var more := inbox + [e];
    forall i | 0 <= i < |more|
      ensures more[i] in log && Reached(log, more[i].seqno, presented, more[..i])
    {
      assert more[..i] == inbox[..i];
      assert inbox[..|inbox|] == inbox;
    }
  }

  /** Appending a page row by row. */
  lemma {:induction false} InboxPage(log: seq<Entry>, list: ListId, presented: set<Entry>, inbox: seq<Entry>,
                                     after: nat, limit: int, n: nat)
    requires Sorted(log) && forall e | e in log :: e.update.list == list
    requires n <= |Fetch(log, list, after, limit)|
    requires InboxOk(log, presented, inbox) && Reached(log, after + 1, presented, inbox)
    ensures InboxOk(log, presented, inbox + Fetch(log, list, after, limit)[..n])
  {
    var page := Fetch(log, list, after, limit);
    if n == 0 {
      assert inbox + page[..0] == inbox;
    } else {
      InboxPage(log, list, presented, inbox, after, limit, n - 1);
      var before := inbox + page[..n - 1];
      var e := page[n - 1];
      AfterFacts(log, list, after);
      assert e in After(log, list, after);
      forall x | x in log && x.seqno < e.seqno
        ensures x in presented || x in before
      {
        if after < x.seqno {
          PageHasNoGap(log, list, after, limit, n - 1, x);
        }
      }
      InboxOneMore(log, presented, before, e);
      assert before + [e] == inbox + page[..n];
    }
  }

  /** After a page everything up to its last row was handed over. */
  lemma PageReaches(log: seq<Entry>, list: ListId, presented: set<Entry>, inbox: seq<Entry>, after: nat, limit: int)
    requires Sorted(log) && forall e | e in log :: e.update.list == list
    requires Reached(log, after + 1, presented, inbox)
    ensures var page := Fetch(log, list, after, limit);
            page != [] ==> Reached(log, page[|page| - 1].seqno + 1, presented, inbox + page)
  {
    var page := Fetch(log, list, after, limit);
    if page != [] {
      var last := page[|page| - 1];
      AfterFacts(log, list, after);
      assert last in After(log, list, after);
      forall x | x in log && x.seqno < last.seqno + 1
        ensures x in presented || x in inbox + page
      {
        if after < x.seqno < last.seqno {
          PageHasNoGap(log, list, after, limit, |page| - 1, x);
        } else if x.seqno == last.seqno {
          assert x == last;
        }
      }
    }
  }

  lemma PullKeeps(s: System, r: Replica, page: seq<Entry>, at: nat, r': Replica)
    requires LogFits(s) && CursorOk(s, r) && r.pull.Some?
    requires page == Fetch(s.log, s.list, r.pull.value, BATCH)
    requires at == if page == [] then r.pull.value else page[|page| - 1].seqno
    requires r'.cursor == r.cursor && r'.hist == r.hist && r'.inbox == r.inbox + page
    requires r'.pull == None || r'.pull == Some(at)
    ensures CursorOk(s, r')
  {
    InboxPage(s.log, s.list, r.hist.presented, r.inbox, r.pull.value, BATCH, |page|);
    assert page[..|page|] == page;
    PageReaches(s.log, s.list, r.hist.presented, r.inbox, r.pull.value, BATCH);
    if page == [] {
      assert r.inbox + page == r.inbox;
    } else {
      AfterFacts(s.log, s.list, r.pull.value);
      assert page[|page| - 1] in After(s.log, s.list, r.pull.value);
    }
  }

  /** Taking the head of the inbox: all before it has been presented. */
  lemma TakeHead(log: seq<Entry>, presented: set<Entry>, inbox: seq<Entry>)
    requires InboxOk(log, presented, inbox) && inbox != []
    ensures InboxOk(log, presented + {inbox[0]}, inbox[1..])
    ensures Reached(log, inbox[0].seqno, presented, [])
    ensures forall b: nat | Reached(log, b, presented, inbox) :: Reached(log, b, presented + {inbox[0]}, inbox[1..])
  {
    assert inbox[..0] == [];
    forall i | 0 <= i < |inbox[1..]|
      ensures Reached(log, inbox[1..][i].seqno, presented + {inbox[0]}, inbox[1..][..i])
    {
      assert Reached(log, inbox[i + 1].seqno, presented, inbox[..i + 1]);
      assert inbox[..i + 1] == [inbox[0]] + inbox[1..][..i];
    }
    assert inbox == [inbox[0]] + inbox[1..];
  }

  lemma PresentKeeps(s: System, r: Replica, r': Replica)
    requires LogFits(s) && CursorOk(s, r) && r.inbox != []
    requires r'.inbox == r.inbox[1..] && r'.pull == r.pull
    requires r'.hist.presented == r.hist.presented + {r.inbox[0]}
    requires r'.cursor == r.cursor || r'.cursor == Max(r.cursor, r.inbox[0].seqno)
    ensures CursorOk(s, r')
  {
    var e := r.inbox[0];
    TakeHead(s.log, r.hist.presented, r.inbox);
    forall x | x in s.log && x.seqno < r'.cursor + 1
      ensures x in r'.hist.presented
    {
      if x.seqno == e.seqno { assert x == e; }
    }
  }

  /** An entry appended behind all cursors and inboxes changes nothing for them. */
  lemma AppendKeeps(s: System, s': System, r: Replica)
    requires LogFits(s) && CursorOk(s, r)
    requires s.next <= s'.next
    requires s'.log == s.log || exists u :: s'.log == s.log + [Entry(s.next, u)]
    ensures CursorOk(s', r)
  {
    forall b: nat, seen, queue | b <= s.next && Reached(s.log, b, seen, queue)
      ensures Reached(s'.log, b, seen, queue)
    {
    }
    forall i | 0 <= i < |r.inbox|
      ensures r.inbox[i] in s'.log && Reached(s'.log, r.inbox[i].seqno, r.hist.presented, r.inbox[..i])
    {
      assert r.inbox[i] in s.log && Reached(s.log, r.inbox[i].seqno, r.hist.presented, r.inbox[..i]);
    }
  }

  // ── every step, every run ─────────────────────────────────────────────────

  lemma Quiet(s: System, m: MemberId, act: Act)
    requires m in s.replicas
    requires !act.StartPull? && !act.PullPage? && !act.Live? && !act.Inject? && !act.Present?
    ensures var r, r' := s.replicas[m], ClientStep(s, m, act);
            && r'.cursor == r.cursor && r'.hist.presented == r.hist.presented
            && (r'.pull == r.pull || r'.pull == None)
            && (r'.inbox == r.inbox || (r'.inbox == [] && r'.pull == None))
  {
  }

  lemma PresentFacts(r: Replica, replicas: map<MemberId, Replica>, m: MemberId)
    requires r.inbox != []
    ensures var r' := PresentNext(r, replicas, m);
            && r'.inbox == r.inbox[1..] && r'.pull == r.pull
            && r'.hist.presented == r.hist.presented + {r.inbox[0]}
            && (r'.cursor == r.cursor || r'.cursor == Max(r.cursor, r.inbox[0].seqno))
  {
  }

  lemma ActorKeeps(s: System, m: MemberId, act: Act)
    requires LogFits(s) && m in s.replicas && CursorOk(s, s.replicas[m]) && InLine(s, At(m, act))
    ensures CursorOk(s, ClientStep(s, m, act))
  {
    var r := s.replicas[m];
    if act.PullPage? {
      if r.pull.Some? {
        var page := Fetch(s.log, s.list, r.pull.value, BATCH);
        PullKeeps(s, r, page, if page == [] then r.pull.value else page[|page| - 1].seqno, ClientStep(s, m, act));
      }
    } else if act.Live? {
      if act.i < |s.log| {
        InboxOneMore(s.log, r.hist.presented, r.inbox, s.log[act.i]);
      }
    } else if act.Present? {
      if r.inbox != [] {
        PresentFacts(r, s.replicas, m);
        PresentKeeps(s, r, ClientStep(s, m, act));
      }
    } else if act.StartPull? {
    } else {
      Quiet(s, m, act);
    }
  }

  lemma LogMoves(s: System, ev: Event)
    ensures s.next <= Step(s, ev).next
    ensures Step(s, ev).log == s.log || exists u :: Step(s, ev).log == s.log + [Entry(s.next, u)]
  {
  }

  lemma StepCursorOk(s: System, ev: Event, m: MemberId)
    requires LogFits(s) && m in s.replicas && CursorOk(s, s.replicas[m]) && InLine(s, ev)
    ensures m in Step(s, ev).replicas && CursorOk(Step(s, ev), Step(s, ev).replicas[m])
  {
    LogMoves(s, ev);
    if ev.At? && ev.m == m {
      ActorKeeps(s, m, ev.act);
      AppendKeeps(s, Step(s, ev), ClientStep(s, m, ev.act));
    } else {
      AppendKeeps(s, Step(s, ev), s.replicas[m]);
    }
  }

  lemma StepKeeps(s: System, ev: Event)
    requires Inv(s) && InLine(s, ev)
    ensures Inv(Step(s, ev))
  {
    Upload.StepKeeps(s, ev);
    UploadFits(s);
    forall m | m in s.replicas
      ensures CursorOk(Step(s, ev), Step(s, ev).replicas[m])
    {
      StepCursorOk(s, ev, m);
    }
  }

  lemma {:induction false} RunKeeps(s: System, evs: seq<Event>)
    requires Inv(s) && InLineRun(s, evs)
    ensures Inv(Run(s, evs))
    decreases |evs|
  {
    if evs != [] {
      StepKeeps(s, evs[0]);
      RunKeeps(Step(s, evs[0]), evs[1..]);
    }
  }

  lemma InitOk(s: System)
    requires Init(s)
    ensures Inv(s)
  {
    Upload.InitOk(s);
  }

  /** In every run fed by pulls and by live frames that come in line, the cursor
      is honest: each log entry at or below it has been presented. */
  lemma CursorIsHonest(s0: System, evs: seq<Event>, m: MemberId, e: Entry)
    requires Init(s0) && InLineRun(s0, evs) && m in Run(s0, evs).replicas
    requires e in Run(s0, evs).log && e.seqno <= Run(s0, evs).replicas[m].cursor
    ensures e in Run(s0, evs).replicas[m].hist.presented
  {
    InitOk(s0);
    RunKeeps(s0, evs);
  }

  /** The cursor never goes back, in any run at all. */
  lemma {:induction false} CursorNeverDecreases(s: System, evs: seq<Event>, m: MemberId)
    requires m in s.replicas
    ensures m in Run(s, evs).replicas && s.replicas[m].cursor <= Run(s, evs).replicas[m].cursor
    decreases |evs|
  {
    if evs != [] {
      var s' := Step(s, evs[0]);
      if evs[0].At? && evs[0].m == m {
        CursorStep(s, m, evs[0].act);
      }
      CursorNeverDecreases(s', evs[1..], m);
    }
  }

  lemma CursorStep(s: System, m: MemberId, act: Act)
    requires m in s.replicas
    ensures s.replicas[m].cursor <= ClientStep(s, m, act).cursor
  {
  }

  // ── live frames, exactly ──────────────────────────────────────────────────

  /** Each log entry at or below the cursor has been presented. */
  ghost predicate Honest(s: System, m: MemberId)
    requires m in s.replicas
  {
    Reached(s.log, s.replicas[m].cursor + 1, s.replicas[m].hist.presented, [])
  }

  /** Presenting the entry moves the cursor to it. */
  predicate Mergeable(s: System, m: MemberId, u: Update)
    requires m in s.replicas
  {
    u.author == m
    || (u.epoch in s.replicas[m].deks && u.author in s.replicas[m].members && Verifies(s.replicas, u))
  }

  function PresentAll(m: MemberId, n: nat): seq<Event> {
    seq(n, _ => At(m, Present))
  }

  ghost function Entries(inbox: seq<Entry>): set<Entry> {
    set e | e in inbox
  }

  lemma PresentOne(s: System, m: MemberId)
    requires m in s.replicas && s.replicas[m].inbox != []
    ensures var s' := Step(s, At(m, Present));
            var r, r' := s.replicas[m], s'.replicas[m];
            && s'.log == s.log && s'.replicas.Keys == s.replicas.Keys
            && r'.inbox == r.inbox[1..] && r'.hist.presented == r.hist.presented + {r.inbox[0]}
            && r.cursor <= r'.cursor && (Mergeable(s, m, r.inbox[0].update) ==> r.inbox[0].seqno <= r'.cursor)
            && forall u :: Mergeable(s', m, u) <==> Mergeable(s, m, u)
  {
    var s' := Step(s, At(m, Present));
    forall u
      ensures Mergeable(s', m, u) <==> Mergeable(s, m, u)
    {
      assert Verifies(s'.replicas, u) <==> Verifies(s.replicas, u);
    }
  }

  /** What draining `inbox` from `s` to `s'` has done. */
  ghost predicate Drained(s: System, s': System, m: MemberId, inbox: seq<Entry>)
    requires m in s.replicas
  {
    && m in s'.replicas && s'.log == s.log
    && s'.replicas[m].hist.presented == s.replicas[m].hist.presented + Entries(inbox)
    && s.replicas[m].cursor <= s'.replicas[m].cursor
    && forall e | e in inbox && Mergeable(s, m, e.update) :: e.seqno <= s'.replicas[m].cursor
  }

  lemma DrainedFurther(s: System, s1: System, s2: System, m: MemberId, inbox: seq<Entry>)
    requires m in s.replicas && m in s1.replicas && inbox != [] && s1.log == s.log
    requires s1.replicas[m].hist.presented == s.replicas[m].hist.presented + {inbox[0]}
    requires s.replicas[m].cursor <= s1.replicas[m].cursor
    requires Mergeable(s, m, inbox[0].update) ==> inbox[0].seqno <= s1.replicas[m].cursor
    requires forall u :: Mergeable(s1, m, u) <==> Mergeable(s, m, u)
    requires Drained(s1, s2, m, inbox[1..])
    ensures Drained(s, s2, m, inbox)
  {
    assert inbox == [inbox[0]] + inbox[1..];
    assert Entries(inbox) == {inbox[0]} + Entries(inbox[1..]);
  }

  /** Draining the inbox presents it all. */
  lemma {:induction false} Drain(s: System, m: MemberId)
    requires m in s.replicas
    ensures Drained(s, Run(s, PresentAll(m, |s.replicas[m].inbox|)), m, s.replicas[m].inbox)
    ensures InLineRun(s, PresentAll(m, |s.replicas[m].inbox|))
    decreases |s.replicas[m].inbox|
  {
    var inbox := s.replicas[m].inbox;
    if inbox != [] {
      var s1 := Step(s, At(m, Present));
      PresentOne(s, m);
      Drain(s1, m);
      assert PresentAll(m, |inbox|)[1..] == PresentAll(m, |inbox| - 1);
      DrainedFurther(s, s1, Run(s1, PresentAll(m, |inbox| - 1)), m, inbox);
    }
  }

  lemma LiveStep(s: System, m: MemberId, i: nat)
    requires m in s.replicas && i < |s.log|
    ensures var s1, r := Step(s, At(m, Live(i))), s.replicas[m];
            && m in s1.replicas && s1.log == s.log && s1.replicas[m].inbox == r.inbox + [s.log[i]]
            && s1.replicas[m].hist == r.hist && s1.replicas[m].cursor == r.cursor
            && forall u | Mergeable(s, m, u) :: Mergeable(s1, m, u)
  {
    var s1 := Step(s, At(m, Live(i)));
    forall u | Mergeable(s, m, u)
      ensures Mergeable(s1, m, u)
    {
      assert Verifies(s1.replicas, u) <==> Verifies(s.replicas, u);
    }
  }

  /** Drained after a frame out of line: the cursor passed what was not presented. */
  lemma OutOfLineJumps(s: System, s2: System, m: MemberId, e: Entry)
    requires m in s.replicas && m in s2.replicas && e in s.log && s2.log == s.log
    requires !Reached(s.log, e.seqno, s.replicas[m].hist.presented, s.replicas[m].inbox)
    requires s2.replicas[m].hist.presented == s.replicas[m].hist.presented + Entries(s.replicas[m].inbox + [e])
    requires e.seqno <= s2.replicas[m].cursor
    ensures !Honest(s2, m)
  {
    var x :| x in s.log && x.seqno < e.seqno && x !in s.replicas[m].hist.presented && x !in s.replicas[m].inbox;
    assert x !in s2.replicas[m].hist.presented;
  }

  lemma LiveFrameFrom(s: System, m: MemberId, i: nat)
    requires Inv(s) && m in s.replicas && i < |s.log| && Mergeable(s, m, s.log[i].update)
    ensures var s1 := Step(s, At(m, Live(i)));
            var s2 := Run(s1, PresentAll(m, |s1.replicas[m].inbox|));
            m in s2.replicas && (Honest(s2, m) <==> InLine(s, At(m, Live(i))))
  {
    var s1 := Step(s, At(m, Live(i)));
    LiveStep(s, m, i);
    Drain(s1, m);
    if InLine(s, At(m, Live(i))) {
      StepKeeps(s, At(m, Live(i)));
      RunKeeps(s1, PresentAll(m, |s1.replicas[m].inbox|));
    } else {
      var e := s.log[i];
      assert e in s1.replicas[m].inbox;
      OutOfLineJumps(s, Run(s1, PresentAll(m, |s1.replicas[m].inbox|)), m, e);
    }
  }

  /** Exactly which live frames the cursor survives, after any run in line: once a
      frame and all that waited before it has been presented, the cursor is honest
      if and only if the frame came in line. */
  lemma LiveFrameExactly(s0: System, evs: seq<Event>, m: MemberId, i: nat)
    requires Init(s0) && InLineRun(s0, evs) && m in Run(s0, evs).replicas
    requires i < |Run(s0, evs).log| && Mergeable(Run(s0, evs), m, Run(s0, evs).log[i].update)
    ensures var s := Run(s0, evs);
            var s1 := Step(s, At(m, Live(i)));
            var s2 := Run(s1, PresentAll(m, |s1.replicas[m].inbox|));
            m in s2.replicas && (Honest(s2, m) <==> InLine(s, At(m, Live(i))))
  {
    InitOk(s0);
    RunKeeps(s0, evs);
    LiveFrameFrom(Run(s0, evs), m, i);
  }

  /** The frame's predecessor in the list is at or below the cursor. */
  predicate FollowsCursor(s: System, m: MemberId, i: nat)
    requires m in s.replicas && i < |s.log|
  {
    i == 0 || s.log[i - 1].seqno <= s.replicas[m].cursor
  }

  lemma PredecessorSuffices(log: seq<Entry>, i: nat, cursor: nat, presented: set<Entry>, inbox: seq<Entry>)
    requires Sorted(log) && i < |log| && Reached(log, cursor + 1, presented, [])
    requires i == 0 || log[i - 1].seqno <= cursor
    ensures Reached(log, log[i].seqno, presented, inbox)
  {
    forall e | e in log && e.seqno < log[i].seqno
      ensures e in presented
    {
      var k :| 0 <= k < |log| && log[k] == e;
      assert k < i;
      assert k == i - 1 || log[k].seqno < log[i - 1].seqno;
    }
  }

  lemma PredecessorNeeded(log: seq<Entry>, i: nat, cursor: nat, presented: set<Entry>)
    requires Sorted(log) && 0 < i < |log| && log[i - 1].seqno > cursor
    requires forall e | e in presented :: e.seqno <= cursor
    ensures !Reached(log, log[i].seqno, presented, [])
  {
    assert log[i - 1] in log && log[i - 1].seqno < log[i].seqno;
  }

  lemma PredecessorFrom(s: System, m: MemberId, i: nat)
    requires Inv(s) && m in s.replicas && i < |s.log|
    ensures FollowsCursor(s, m, i) ==> InLine(s, At(m, Live(i)))
    ensures s.replicas[m].inbox == []
        && (forall e | e in s.replicas[m].hist.presented :: e.seqno <= s.replicas[m].cursor)
      ==> (InLine(s, At(m, Live(i))) <==> FollowsCursor(s, m, i))
  {
    var r := s.replicas[m];
    if FollowsCursor(s, m, i) {
      PredecessorSuffices(s.log, i, r.cursor, r.hist.presented, r.inbox);
    } else if forall e | e in r.hist.presented :: e.seqno <= r.cursor {
      PredecessorNeeded(s.log, i, r.cursor, r.hist.presented);
    }
  }

  /** What a client can check, after any run in line: a frame whose predecessor is
      at or below the cursor comes in line; with nothing presented or waiting
      beyond the cursor, no other frame does. */
  lemma PredecessorAtCursor(s0: System, evs: seq<Event>, m: MemberId, i: nat)
    requires Init(s0) && InLineRun(s0, evs) && m in Run(s0, evs).replicas && i < |Run(s0, evs).log|
    ensures var s := Run(s0, evs);
            var r := s.replicas[m];
            && (FollowsCursor(s, m, i) ==> InLine(s, At(m, Live(i))))
            && (r.inbox == [] && (forall e | e in r.hist.presented :: e.seqno <= r.cursor) ==>
                  (InLine(s, At(m, Live(i))) <==> FollowsCursor(s, m, i)))
  {
    InitOk(s0);
    RunKeeps(s0, evs);
    PredecessorFrom(Run(s0, evs), m, i);
  }
}
