/** Exact conditions over whole runs of the sync protocol, step by step. */
module WholeRuns {
  import opened Updates
  import opened ServerLog
  import opened Protocol
  import Upload
  import Cursor

  /** The state after the first `k` events. */
  function StateAt(s0: System, evs: seq<Event>, k: nat): System
    requires k <= |evs|
  {
    Run(s0, evs[..k])
  }

  lemma NextState(s0: System, evs: seq<Event>, k: nat)
    requires k < |evs|
    ensures StateAt(s0, evs, k + 1) == Step(StateAt(s0, evs, k), evs[k])
  {
    assert evs[..k + 1] == evs[..k] + [evs[k]] && [evs[k]][1..] == [];
    RunConcat(s0, evs[..k], [evs[k]]);
    assert Run(StateAt(s0, evs, k), [evs[k]]) == Run(Step(StateAt(s0, evs, k), evs[k]), []);
  }

  lemma {:induction false} ClientAt(s0: System, evs: seq<Event>, k: nat, m: MemberId)
    requires k <= |evs| && m in s0.replicas
    ensures m in StateAt(s0, evs, k).replicas
    decreases k
  {
    if k > 0 {
      ClientAt(s0, evs, k - 1, m);
      NextState(s0, evs, k - 1);
      StepAt(StateAt(s0, evs, k - 1), evs[k - 1], m);
    }
  }

  lemma InvAt(s0: System, evs: seq<Event>, k: nat)
    requires Init(s0) && k <= |evs|
    ensures Upload.Inv(StateAt(s0, evs, k))
  {
    Upload.InitOk(s0);
    Upload.RunKeeps(s0, evs[..k]);
  }

  // ── stranding ─────────────────────────────────────────────────────────────

  /** The event drops no claimed update of the client it happens at. */
  ghost predicate DropsNothing(s: System, ev: Event) {
    ev.At? && ev.m in s.replicas ==>
      forall u | Produced(s.replicas[ev.m].hist.produced, u) :: !Upload.Drops(s, ev.m, ev.act, u)
  }

  lemma ProducedByEdit(s: System, ev: Event, m: MemberId, u: Update)
    requires m in s.replicas && !Produced(s.replicas[m].hist.produced, u)
    requires Produced(Step(s, ev).replicas[m].hist.produced, u)
    ensures ev.At? && ev.m == m && (ev.act.Edit? || ev.act.EditCut?)
  {
    StepAt(s, ev, m);
  }

  lemma NewIsNotStranded(s: System, ev: Event, m: MemberId, u: Update)
    requires Upload.Inv(s) && m in s.replicas && !Produced(s.replicas[m].hist.produced, u)
    requires Produced(Step(s, ev).replicas[m].hist.produced, u)
    ensures !Upload.Stranded(Step(s, ev), m, u)
  {
    ProducedByEdit(s, ev, m, u);
    StepAt(s, ev, m);
    Upload.NewIsQueued(s, m, ev.act.n, ev.act.gap, u);
  }

  lemma NothingDropped(s: System, ev: Event)
    requires Upload.Inv(s) && Upload.NothingStranded(s) && DropsNothing(s, ev)
    ensures Upload.NothingStranded(Step(s, ev))
  {
    var s' := Step(s, ev);
    forall m, u | m in s'.replicas && Produced(s'.replicas[m].hist.produced, u)
      ensures !Upload.Stranded(s', m, u)
    {
      if Produced(s.replicas[m].hist.produced, u) {
        Upload.StrandsByEvent(s, ev, m, u);
      } else {
        NewIsNotStranded(s, ev, m, u);
      }
    }
  }

  lemma SomethingDropped(s: System, ev: Event)
    requires Upload.Inv(s) && !DropsNothing(s, ev)
    ensures !Upload.NothingStranded(Step(s, ev))
  {
    var u :| Produced(s.replicas[ev.m].hist.produced, u) && Upload.Drops(s, ev.m, ev.act, u);
    Upload.StrandsByEvent(s, ev, ev.m, u);
    Upload.StepExtends(s, ev);
  }

  lemma StepStrandsIff(s: System, ev: Event)
    requires Upload.Inv(s) && Upload.NothingStranded(s)
    ensures Upload.NothingStranded(Step(s, ev)) <==> DropsNothing(s, ev)
  {
    if DropsNothing(s, ev) {
      NothingDropped(s, ev);
    } else {
      SomethingDropped(s, ev);
    }
  }

  lemma {:induction false} NothingStrandedAt(s0: System, evs: seq<Event>, k: nat)
    requires Init(s0) && k <= |evs|
    requires forall i | 0 <= i < k :: DropsNothing(StateAt(s0, evs, i), evs[i])
    ensures Upload.NothingStranded(StateAt(s0, evs, k))
    decreases k
  {
    if k > 0 {
      NothingStrandedAt(s0, evs, k - 1);
      InvAt(s0, evs, k - 1);
      NextState(s0, evs, k - 1);
      StepStrandsIff(StateAt(s0, evs, k - 1), evs[k - 1]);
    }
  }

  /** Over whole runs: no update of any client is ever stranded if and only if no
      event drops a claimed one. */
  lemma NeverStrandedIff(s0: System, evs: seq<Event>)
    requires Init(s0)
    ensures (forall k | 0 <= k <= |evs| :: Upload.NothingStranded(StateAt(s0, evs, k)))
       <==> (forall k | 0 <= k < |evs| :: DropsNothing(StateAt(s0, evs, k), evs[k]))
  {
    if forall k | 0 <= k <= |evs| :: Upload.NothingStranded(StateAt(s0, evs, k)) {
      forall k | 0 <= k < |evs|
        ensures DropsNothing(StateAt(s0, evs, k), evs[k])
      {
        InvAt(s0, evs, k);
        NextState(s0, evs, k);
        assert Upload.NothingStranded(StateAt(s0, evs, k)) && Upload.NothingStranded(StateAt(s0, evs, k + 1));
        StepStrandsIff(StateAt(s0, evs, k), evs[k]);
      }
    }
    if forall k | 0 <= k < |evs| :: DropsNothing(StateAt(s0, evs, k), evs[k]) {
      forall k | 0 <= k <= |evs|
        ensures Upload.NothingStranded(StateAt(s0, evs, k))
      {
        NothingStrandedAt(s0, evs, k);
      }
    }
  }

  // ── the cursor ────────────────────────────────────────────────────────────

  /** The client merges no entry before one that precedes it in the log, and no entry
      joins the log at or below its cursor that it was not shown already. */
  ghost predicate InTime(s: System, ev: Event, m: MemberId)
    requires m in s.replicas
  {
    var r := s.replicas[m];
    && (ev == At(m, Present) && r.inbox != [] && Cursor.Mergeable(s, m, r.inbox[0].update) ==>
          forall e | e in s.log && e.seqno <= r.inbox[0].seqno :: e in r.hist.presented || e == r.inbox[0])
    && (forall e | e in Step(s, ev).log && e !in s.log :: r.cursor < e.seqno || e in r.hist.presented)
  }

  lemma PresentHonestIff(s: System, m: MemberId)
    requires m in s.replicas && s.replicas[m].inbox != [] && Cursor.Honest(s, m)
    ensures Cursor.Honest(Step(s, At(m, Present)), m) <==> InTime(s, At(m, Present), m)
  {
    var r, s' := s.replicas[m], Step(s, At(m, Present));
    StepAt(s, At(m, Present), m);
    assert s'.log == s.log;
    if InTime(s, At(m, Present), m) {
      forall e | e in s'.log && e.seqno < s'.replicas[m].cursor + 1
        ensures e in s'.replicas[m].hist.presented
      {
        assert e.seqno <= r.cursor ==> e in r.hist.presented || e in [];
      }
    } else {
      var e :| e in s.log && e.seqno <= r.inbox[0].seqno && e !in r.hist.presented && e != r.inbox[0];
      assert e in s'.log && e !in s'.replicas[m].hist.presented;
    }
  }

  lemma QuietKeepsCursor(s: System, ev: Event, m: MemberId)
    requires m in s.replicas && (ev == At(m, Present) ==> s.replicas[m].inbox == [])
    ensures m in Step(s, ev).replicas
    ensures Step(s, ev).replicas[m].cursor == s.replicas[m].cursor
    ensures Step(s, ev).replicas[m].hist.presented == s.replicas[m].hist.presented
  {
    StepAt(s, ev, m);
  }

  lemma LogGrows(s: System, ev: Event)
    ensures forall e | e in s.log :: e in Step(s, ev).log
  {
  }

  lemma StepHonestIff(s: System, ev: Event, m: MemberId)
    requires m in s.replicas && Cursor.Honest(s, m)
    ensures m in Step(s, ev).replicas && (Cursor.Honest(Step(s, ev), m) <==> InTime(s, ev, m))
  {
    if ev == At(m, Present) && s.replicas[m].inbox != [] {
      PresentHonestIff(s, m);
    } else {
      var r, s' := s.replicas[m], Step(s, ev);
      QuietKeepsCursor(s, ev, m);
      LogGrows(s, ev);
      if InTime(s, ev, m) {
        forall e | e in s'.log && e.seqno < s'.replicas[m].cursor + 1
          ensures e in s'.replicas[m].hist.presented
        {
          assert e in s.log ==> e in r.hist.presented || e in [];
        }
      } else {
        var e :| e in s'.log && e !in s.log && e.seqno <= r.cursor && e !in r.hist.presented;
        assert e in s'.log && e.seqno < s'.replicas[m].cursor + 1 && e !in s'.replicas[m].hist.presented;
      }
    }
  }

  lemma {:induction false} HonestAt(s0: System, evs: seq<Event>, k: nat, m: MemberId)
    requires Init(s0) && m in s0.replicas && k <= |evs|
    requires forall i | 0 <= i < k :: m in StateAt(s0, evs, i).replicas && InTime(StateAt(s0, evs, i), evs[i], m)
    ensures m in StateAt(s0, evs, k).replicas && Cursor.Honest(StateAt(s0, evs, k), m)
    decreases k
  {
    if k > 0 {
      HonestAt(s0, evs, k - 1, m);
      NextState(s0, evs, k - 1);
      StepHonestIff(StateAt(s0, evs, k - 1), evs[k - 1], m);
    }
  }

  ghost predicate HonestThen(s: System, m: MemberId) {
    m in s.replicas && Cursor.Honest(s, m)
  }

  ghost predicate InTimeThen(s: System, ev: Event, m: MemberId) {
    m in s.replicas && InTime(s, ev, m)
  }

  /** Over whole runs, live frames and the relay's own included: a client's cursor is
      honest at all times if and only if it merges no entry before a predecessor and
      nothing joins the log at or below its cursor. */
  lemma AlwaysHonestIff(s0: System, evs: seq<Event>, m: MemberId)
    requires Init(s0) && m in s0.replicas
    ensures (forall k | 0 <= k <= |evs| :: HonestThen(StateAt(s0, evs, k), m))
       <==> (forall k | 0 <= k < |evs| :: InTimeThen(StateAt(s0, evs, k), evs[k], m))
  {
    if forall k | 0 <= k <= |evs| :: HonestThen(StateAt(s0, evs, k), m) {
      forall k | 0 <= k < |evs|
        ensures InTimeThen(StateAt(s0, evs, k), evs[k], m)
      {
        NextState(s0, evs, k);
        assert HonestThen(StateAt(s0, evs, k), m) && HonestThen(StateAt(s0, evs, k + 1), m);
        StepHonestIff(StateAt(s0, evs, k), evs[k], m);
      }
    }
    if forall k | 0 <= k < |evs| :: InTimeThen(StateAt(s0, evs, k), evs[k], m) {
      forall k | 0 <= k <= |evs|
        ensures HonestThen(StateAt(s0, evs, k), m)
      {
        forall i | 0 <= i < k
          ensures m in StateAt(s0, evs, i).replicas && InTime(StateAt(s0, evs, i), evs[i], m)
        {
          assert InTimeThen(StateAt(s0, evs, i), evs[i], m);
        }
        HonestAt(s0, evs, k, m);
      }
    }
  }

  // ── skipped entries ───────────────────────────────────────────────────────

  /** The event presents this update of another author, and it is merged. */
  predicate Merges(s: System, ev: Event, m: MemberId, u: Update) {
    && m in s.replicas && ev == At(m, Present) && s.replicas[m].inbox != []
    && s.replicas[m].inbox[0].update == u && u.author != m && Cursor.Mergeable(s, m, u)
  }

  lemma StepAbsorbsIff(s: System, ev: Event, m: MemberId, u: Update)
    requires m in s.replicas && u.author != m
    ensures m in Step(s, ev).replicas
    ensures u in Step(s, ev).replicas[m].hist.absorbed <==> u in s.replicas[m].hist.absorbed || Merges(s, ev, m, u)
  {
    StepAt(s, ev, m);
  }

  /** Another author's update has been absorbed if and only if it was mergeable at
      some time it was presented: the key was there and the author known. */
  lemma {:induction false} AbsorbedIff(s0: System, evs: seq<Event>, k: nat, m: MemberId, u: Update)
    requires Init(s0) && m in s0.replicas && u.author != m && k <= |evs|
    ensures m in StateAt(s0, evs, k).replicas
    ensures u in StateAt(s0, evs, k).replicas[m].hist.absorbed
       <==> exists i :: 0 <= i < k && Merges(StateAt(s0, evs, i), evs[i], m, u)
    decreases k
  {
    if k > 0 {
      AbsorbedIff(s0, evs, k - 1, m, u);
      NextState(s0, evs, k - 1);
      StepAbsorbsIff(StateAt(s0, evs, k - 1), evs[k - 1], m, u);
    }
  }

  /** In every run in line, the entries of others at or below the cursor were all
      presented, and exactly those are absorbed that were mergeable at the time. */
  lemma BelowTheCursor(s0: System, evs: seq<Event>, m: MemberId, e: Entry)
    requires Init(s0) && Cursor.InLineRun(s0, evs) && m in s0.replicas && e.update.author != m
    requires m in Run(s0, evs).replicas && e in Run(s0, evs).log && e.seqno <= Run(s0, evs).replicas[m].cursor
    ensures e in Run(s0, evs).replicas[m].hist.presented
    ensures e.update in Run(s0, evs).replicas[m].hist.absorbed
       <==> exists i :: 0 <= i < |evs| && Merges(StateAt(s0, evs, i), evs[i], m, e.update)
  {
    Cursor.CursorIsHonest(s0, evs, m, e);
    assert evs[..|evs|] == evs;
    AbsorbedIff(s0, evs, |evs|, m, e.update);
  }

  /** The cursor, a running pull and the inbox are all past the entry. */
  predicate Past(r: Replica, e: Entry) {
    && e.seqno <= r.cursor && (r.pull.Some? ==> e.seqno <= r.pull.value)
    && forall x | x in r.inbox :: x.update != e.update
  }

  predicate Passed(s: System, m: MemberId, e: Entry) {
    m in s.replicas && e in s.log && Past(s.replicas[m], e)
  }

  /** No live frame repeats the entry to the client, and the relay adds none of its own. */
  predicate NotRepeated(s: System, ev: Event, m: MemberId, e: Entry) {
    ev.At? && ev.m == m ==>
      !ev.act.Inject? && (ev.act.Live? ==> ev.act.i < |s.log| ==> s.log[ev.act.i].update != e.update)
  }

  /** Equal updates stand in one entry. */
  lemma OneEntryEach(log: seq<Entry>, x: Entry, e: Entry)
    requires Upload.InOrder(log) && x in log && e in log && x.update == e.update
    ensures x == e
  {
    var i :| 0 <= i < |log| && log[i] == x;
    var j :| 0 <= j < |log| && log[j] == e;
    assert !(i < j) && !(j < i);
  }

  lemma PageIsPast(log: seq<Entry>, list: ListId, after: nat, e: Entry)
    requires Upload.InOrder(log) && e in log && e.seqno <= after
    ensures var page := Fetch(log, list, after, BATCH);
            && (forall x | x in page :: x.update != e.update)
            && (page != [] ==> e.seqno <= page[|page| - 1].seqno)
  {
    var page, rows := Fetch(log, list, after, BATCH), After(log, list, after);
    AfterFacts(log, list, after);
    forall k | 0 <= k < |page|
      ensures page[k].update != e.update && e.seqno < page[k].seqno
    {
      assert page[k] == rows[k] && rows[k] in rows;
      if page[k].update == e.update {
        OneEntryEach(log, page[k], e);
      }
    }
  }

  lemma PullStaysPast(s: System, m: MemberId, e: Entry)
    requires Upload.InOrder(s.log) && m in s.replicas && e in s.log && Past(s.replicas[m], e)
    ensures Past(ClientStep(s, m, PullPage), e)
  {
    if s.replicas[m].pull.Some? {
      PageIsPast(s.log, s.list, s.replicas[m].pull.value, e);
    }
  }

  lemma ActStaysPast(s: System, m: MemberId, act: Act, e: Entry)
    requires Upload.InOrder(s.log) && m in s.replicas && e in s.log && Past(s.replicas[m], e)
    requires NotRepeated(s, At(m, act), m, e)
    ensures Past(ClientStep(s, m, act), e)
  {
    if act.PullPage? {
      PullStaysPast(s, m, e);
    }
  }

  lemma StepStaysPassed(s: System, ev: Event, m: MemberId, e: Entry)
    requires Upload.InOrder(s.log) && Passed(s, m, e) && NotRepeated(s, ev, m, e)
    ensures Passed(Step(s, ev), m, e)
  {
    StepAt(s, ev, m);
    LogGrows(s, ev);
    if ev.At? && ev.m == m {
      ActStaysPast(s, m, ev.act, e);
    }
  }

  ghost predicate NeverRepeated(s: System, evs: seq<Event>, m: MemberId, e: Entry) {
    forall k | 0 <= k < |evs| :: NotRepeated(StateAt(s, evs, k), evs[k], m, e)
  }

  /** The client is past the entry without having absorbed it. */
  ghost predicate Skipped(s: System, m: MemberId, e: Entry) {
    && Upload.Inv(s) && Passed(s, m, e)
    && e.update.author != m && e.update !in s.replicas[m].hist.absorbed
  }

  lemma StepSkips(s: System, ev: Event, m: MemberId, e: Entry)
    requires Skipped(s, m, e) && NotRepeated(s, ev, m, e)
    ensures Skipped(Step(s, ev), m, e)
  {
    StepStaysPassed(s, ev, m, e);
    StepAbsorbsIff(s, ev, m, e.update);
    Upload.StepKeeps(s, ev);
  }

  /** An entry that was skipped stays so: once cursor, pull and inbox are past it no
      later pull hands it over again, and it is never absorbed. */
  lemma {:induction false} SkippedForGood(s: System, evs: seq<Event>, m: MemberId, e: Entry)
    requires Skipped(s, m, e) && NeverRepeated(s, evs, m, e)
    ensures Skipped(Run(s, evs), m, e)
    decreases |evs|
  {
    if evs != [] {
      assert evs[..0] == [] && StateAt(s, evs, 0) == s;
      assert NotRepeated(StateAt(s, evs, 0), evs[0], m, e);
      StepSkips(s, evs[0], m, e);
      LaterStates(s, evs);
      forall k | 0 <= k < |evs[1..]|
        ensures NotRepeated(StateAt(Step(s, evs[0]), evs[1..], k), evs[1..][k], m, e)
      {
        assert NotRepeated(StateAt(s, evs, k + 1), evs[k + 1], m, e);
      }
      SkippedForGood(Step(s, evs[0]), evs[1..], m, e);
    }
  }

  lemma LaterStates(s: System, evs: seq<Event>)
    requires evs != []
    ensures forall k | 0 <= k < |evs| :: StateAt(Step(s, evs[0]), evs[1..], k) == StateAt(s, evs, k + 1)
  {
    forall k | 0 <= k < |evs|
      ensures StateAt(Step(s, evs[0]), evs[1..], k) == StateAt(s, evs, k + 1)
    {
      assert evs[..k + 1][0] == evs[0] && evs[..k + 1][1..] == evs[1..][..k];
    }
  }

  // ── what a client has learnt ──────────────────────────────────────────────

  /** The client writes under `epoch` and would merge the update, of somebody else. */
  ghost predicate Usable(s: System, m: MemberId, epoch: Epoch, u: Update) {
    m in s.replicas && s.replicas[m].epoch == epoch && u.author != m && Cursor.Mergeable(s, m, u)
  }

  ghost predicate LearnsNothing(m: MemberId, evs: seq<Event>) {
    forall ev | ev in evs :: !(ev.At? && ev.m == m && ev.act.Learn?)
  }

  lemma OnlyLearningTeaches(s: System, m: MemberId, act: Act)
    requires m in s.replicas
    ensures var r, r' := s.replicas[m], ClientStep(s, m, act);
            match act
            case Learn(epoch, deks, members) =>
              r'.epoch == epoch && r'.deks == r.deks + deks && r'.members == members
            case _ => r'.epoch == r.epoch && r'.deks == r.deks && r'.members == r.members
  {
  }

  lemma VerifiesLater(s: System, ev: Event, u: Update)
    requires Upload.Inv(s) && Verifies(s.replicas, u)
    ensures Verifies(Step(s, ev).replicas, u)
  {
    if ev.At? && ev.m in s.replicas {
      Upload.VerifiesStays(s, ev.m, ev.act, u);
    }
  }

  lemma UsableBy(s: System, m: MemberId, epoch: Epoch, u: Update)
    requires m in s.replicas && Verifies(s.replicas, u) && u.author != m
    requires var r := s.replicas[m]; r.epoch == epoch && u.epoch in r.deks && u.author in r.members
    ensures Usable(s, m, epoch, u)
  {
  }

  lemma StepKeepsUsable(s: System, ev: Event, m: MemberId, epoch: Epoch, u: Update)
    requires Upload.Inv(s) && Usable(s, m, epoch, u) && !(ev.At? && ev.m == m && ev.act.Learn?)
    ensures Usable(Step(s, ev), m, epoch, u)
  {
    StepAt(s, ev, m);
    VerifiesLater(s, ev, u);
    if ev.At? {
      OnlyLearningTeaches(s, m, ev.act);
    }
    UsableBy(Step(s, ev), m, epoch, u);
  }

  lemma {:induction false} StaysUsable(s: System, evs: seq<Event>, m: MemberId, epoch: Epoch, u: Update)
    requires Upload.Inv(s) && Usable(s, m, epoch, u) && LearnsNothing(m, evs)
    ensures Usable(Run(s, evs), m, epoch, u)
    decreases |evs|
  {
    if evs != [] {
      assert evs[0] in evs && forall ev | ev in evs[1..] :: ev in evs;
      StepKeepsUsable(s, evs[0], m, epoch, u);
      Upload.StepKeeps(s, evs[0]);
      StaysUsable(Step(s, evs[0]), evs[1..], m, epoch, u);
    }
  }

  /** Once a client has learnt the members and an epoch's key, or had the key before, it
      would merge every genuine update of those members under that epoch at any later
      time, restarts included, until it learns other members; and it writes under the
      epoch it learnt. */
  lemma LearntIsUsable(s0: System, evs: seq<Event>, m: MemberId, epoch: Epoch, deks: set<Epoch>,
                       members: set<MemberId>, more: seq<Event>, u: Update)
    requires Init(s0) && m in Run(s0, evs).replicas && LearnsNothing(m, more)
    requires var s := Run(s0, evs);
             && Verifies(s.replicas, u) && u.author != m && u.author in members
             && (u.epoch in deks || u.epoch in s.replicas[m].deks)
    ensures Usable(Run(Step(Run(s0, evs), At(m, Learn(epoch, deks, members))), more), m, epoch, u)
  {
    var s, learn := Run(s0, evs), At(m, Learn(epoch, deks, members));
    Upload.InitOk(s0);
    Upload.RunKeeps(s0, evs);
    StepAt(s, learn, m);
    VerifiesLater(s, learn, u);
    OnlyLearningTeaches(s, m, learn.act);
    UsableBy(Step(s, learn), m, epoch, u);
    Upload.StepKeeps(s, learn);
    StaysUsable(Step(s, learn), more, m, epoch, u);
  }
}
