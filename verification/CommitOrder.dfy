/** Concurrent appends to the server's log: the identity column hands a
    transaction its number before its row becomes visible
    (todoers-server/db/migrations/0001_init.sql:139, todoers-server/src/db.rs),
    so rows can appear out of order behind a reader's back. One list, one reader
    that pages with the program's query. */
module CommitOrder {
  import opened Updates
  import opened ServerLog

  /** Rows numbered but not visible yet, the visible rows by number, the reader's
      cursor and the rows it has been handed. */
  datatype World = World(list: ListId, next: nat, pending: set<Entry>, visible: seq<Entry>,
                         cursor: nat, read: set<Entry>)

  datatype Event =
    | Draw(u: Update)        // an insert gets its number
    | Commit(entry: Entry)   // its row becomes visible
    | Abort(entry: Entry)    // or never does
    | Page(limit: int)       // the reader fetches and presents one page

  /** A row takes its place by number. */
  function Placed(log: seq<Entry>, e: Entry): seq<Entry> {
    if log == [] || e.seqno < log[0].seqno then [e] + log else [log[0]] + Placed(log[1..], e)
  }

  predicate Allowed(w: World, e: Event) {
    (e.Commit? || e.Abort?) ==> e.entry in w.pending
  }

  function Next(w: World, e: Event): World {
    match e
    case Draw(u) => w.(pending := w.pending + {Entry(w.next, u)}, next := w.next + 1)
    case Commit(entry) => w.(pending := w.pending - {entry}, visible := Placed(w.visible, entry))
    case Abort(entry) => w.(pending := w.pending - {entry})
    case Page(limit) =>
      var page := Fetch(w.visible, w.list, w.cursor, limit);
      if page == [] then w
      else w.(cursor := page[|page| - 1].seqno, read := w.read + set e | e in page)
  }

  predicate Start(w: World) {
    w.next == 1 && w.pending == {} && w.visible == [] && w.cursor == 0 && w.read == {}
  }

  ghost predicate Run(ws: seq<World>, es: seq<Event>) {
    && |ws| == |es| + 1 && Start(ws[0])
    && forall i | 0 <= i < |es| :: Allowed(ws[i], es[i]) && ws[i + 1] == Next(ws[i], es[i])
  }

  /** Every visible row of the list up to the cursor has been read. */
  ghost predicate Honest(w: World) {
    forall e | e in w.visible && e.update.list == w.list && e.seqno <= w.cursor :: e in w.read
  }

  /** No row of the list becomes visible at or below the cursor. */
  predicate InTime(w: World, e: Event) {
    e.Commit? && e.entry.update.list == w.list ==> w.cursor < e.entry.seqno
  }

  ghost predicate Inv(w: World) {
    && w.next > 0 && Sorted(w.visible) && (forall e | e in w.pending :: 0 < e.seqno < w.next)
    && (forall e | e in w.visible :: 0 < e.seqno < w.next)
    && (forall e, f | e in w.pending && f in w.visible :: e.seqno != f.seqno)
    && (forall e, f | e in w.pending && f in w.pending && e.seqno == f.seqno :: e == f)
    && (forall e | e in w.read :: e in w.visible)
    && (w.cursor > 0 ==> exists e :: e in w.visible && e.seqno == w.cursor)
  }

  lemma {:induction false} PlacedHas(log: seq<Entry>, e: Entry)
    ensures forall x :: x in Placed(log, e) <==> x == e || x in log
  {
    if log != [] && log[0].seqno <= e.seqno {
      PlacedHas(log[1..], e);
      assert log == [log[0]] + log[1..];
    }
  }

  lemma {:induction false} PlacedSorted(log: seq<Entry>, e: Entry)
    requires Sorted(log) && forall x | x in log :: x.seqno != e.seqno
    ensures Sorted(Placed(log, e))
  {
    if log != [] && log[0].seqno <= e.seqno {
      PlacedSorted(log[1..], e);
      PlacedHas(log[1..], e);
      var rest := Placed(log[1..], e);
      forall k | 0 <= k < |rest|
        ensures log[0].seqno < rest[k].seqno
      {
        assert rest[k] in rest;
      }
    }
  }

  /** What a page holds. */
  lemma PageHas(w: World, limit: int, e: Entry)
    requires Sorted(w.visible)
    ensures var page := Fetch(w.visible, w.list, w.cursor, limit);
            && (e in page ==> e in w.visible && e.update.list == w.list && w.cursor < e.seqno)
            && (page != [] ==>
                  && page[|page| - 1] in w.visible && w.cursor < page[|page| - 1].seqno
                  && (e in w.visible && e.update.list == w.list && w.cursor < e.seqno <= page[|page| - 1].seqno
                      ==> e in page))
  {
    var page := Fetch(w.visible, w.list, w.cursor, limit);
    var after := After(w.visible, w.list, w.cursor);
    AfterFacts(w.visible, w.list, w.cursor);
    assert forall k | 0 <= k < |page| :: page[k] == after[k] && after[k] in after;
    if page != [] && e in w.visible && e.update.list == w.list && w.cursor < e.seqno <= page[|page| - 1].seqno {
      if e.seqno < page[|page| - 1].seqno {
        PageHasNoGap(w.visible, w.list, w.cursor, limit, |page| - 1, e);
      } else {
        var k :| 0 <= k < |after| && after[k] == e;
        assert k == |page| - 1;
      }
    }
  }

  lemma PageKeeps(w: World, limit: int)
    requires Inv(w)
    ensures Inv(Next(w, Page(limit))) && (Honest(w) ==> Honest(Next(w, Page(limit))))
  {
    var page := Fetch(w.visible, w.list, w.cursor, limit);
    forall e
      ensures e in page ==> e in w.visible && e.update.list == w.list && w.cursor < e.seqno
      ensures page != [] && e in w.visible && e.update.list == w.list && w.cursor < e.seqno <= page[|page| - 1].seqno
          ==> e in page
    {
      PageHas(w, limit, e);
    }
  }

  lemma CommitKeeps(w: World, entry: Entry)
    requires Inv(w) && Allowed(w, Commit(entry))
    ensures Inv(Next(w, Commit(entry)))
    ensures Honest(w) ==> (Honest(Next(w, Commit(entry))) <==> InTime(w, Commit(entry)))
  {
    PlacedHas(w.visible, entry);
    PlacedSorted(w.visible, entry);
    assert entry !in w.visible && entry !in w.read;
    assert entry in Next(w, Commit(entry)).visible;
  }

  lemma StepKeeps(w: World, e: Event)
    requires Inv(w) && Allowed(w, e)
    ensures Inv(Next(w, e))
    ensures Honest(w) ==> (Honest(Next(w, e)) <==> InTime(w, e))
  {
    match e
    case Page(limit) => PageKeeps(w, limit);
    case Commit(entry) => CommitKeeps(w, entry);
    case _ =>
  }

  lemma {:induction false} RunKeeps(ws: seq<World>, es: seq<Event>, n: nat)
    requires Run(ws, es) && n <= |es|
    ensures Inv(ws[n])
    decreases n
  {
    if n > 0 {
      RunKeeps(ws, es, n - 1);
      StepKeeps(ws[n - 1], es[n - 1]);
    }
  }

  lemma {:induction false} HonestUpTo(ws: seq<World>, es: seq<Event>, n: nat)
    requires Run(ws, es) && n <= |es|
    requires forall i | 0 <= i < n :: InTime(ws[i], es[i])
    ensures Honest(ws[n])
    decreases n
  {
    if n > 0 {
      HonestUpTo(ws, es, n - 1);
      RunKeeps(ws, es, n - 1);
      StepKeeps(ws[n - 1], es[n - 1]);
    }
  }

  /** The reader's cursor is honest at every moment of a run if and only if no row
      of its list becomes visible at or below it. */
  lemma HonestIffInTime(ws: seq<World>, es: seq<Event>)
    requires Run(ws, es)
    ensures (forall i | 0 <= i <= |es| :: Honest(ws[i])) <==> (forall i | 0 <= i < |es| :: InTime(ws[i], es[i]))
  {
    if forall i | 0 <= i <= |es| :: Honest(ws[i]) {
      forall i | 0 <= i < |es|
        ensures InTime(ws[i], es[i])
      {
        RunKeeps(ws, es, i);
        assert Honest(ws[i]) && Honest(ws[i + 1]);
        StepKeeps(ws[i], es[i]);
      }
    }
    if forall i | 0 <= i < |es| :: InTime(ws[i], es[i]) {
      forall i | 0 <= i <= |es|
        ensures Honest(ws[i])
      {
        HonestUpTo(ws, es, i);
      }
    }
  }

  /** Rows that become visible in the order of their numbers do not break it: the
      protocol's log, which numbers and shows a row in one step, is of this kind. */
  lemma OrderedCommitsAreHonest(ws: seq<World>, es: seq<Event>, n: nat)
    requires Run(ws, es) && n <= |es|
    requires forall i, e | 0 <= i < |es| && es[i].Commit? && e in ws[i].visible :: e.seqno < es[i].entry.seqno
    ensures Honest(ws[n])
  {
    forall i | 0 <= i < |es|
      ensures InTime(ws[i], es[i])
    {
      RunKeeps(ws, es, i);
      assert Allowed(ws[i], es[i]);
    }
    HonestIffInTime(ws, es);
  }

  /** A row that came too late is never read. */
  lemma {:induction false} LateIsNeverRead(ws: seq<World>, es: seq<Event>, i: nat, n: nat)
    requires Run(ws, es) && i < n <= |es| && !InTime(ws[i], es[i])
    ensures es[i].entry in ws[n].visible && es[i].entry !in ws[n].read
    ensures es[i].entry.seqno <= ws[n].cursor && ws[n].list == ws[i].list
    decreases n
  {
    var entry := es[i].entry;
    assert Allowed(ws[i], es[i]);
    RunKeeps(ws, es, n - 1);
    if n == i + 1 {
      PlacedHas(ws[i].visible, entry);
    } else {
      LateIsNeverRead(ws, es, i, n - 1);
      StaysUnread(ws[n - 1], es[n - 1], entry);
    }
  }

  lemma StaysUnread(w: World, e: Event, entry: Entry)
    requires Inv(w) && Allowed(w, e) && entry in w.visible && entry !in w.read && entry.seqno <= w.cursor
    ensures var w' := Next(w, e);
            entry in w'.visible && entry !in w'.read && entry.seqno <= w'.cursor && w'.list == w.list
  {
    match e
    case Page(limit) => PageHas(w, limit, entry);
    case Commit(c) => PlacedHas(w.visible, c);
    case _ =>
  }

  /** Two inserts in flight: the second becomes visible and is read, then the first. */
  lemma Overtaken(w: World, u: Update, v: Update) returns (ws: seq<World>)
    requires Start(w) && u.list == w.list && v.list == w.list && u != v
    ensures var es := [Draw(u), Draw(v), Commit(Entry(2, v)), Page(1), Commit(Entry(1, u))];
            Run(ws, es) && ws[0] == w && !Honest(ws[5])
  {
    var w2 := Next(Next(w, Draw(u)), Draw(v));
    assert w2.pending == {Entry(1, u), Entry(2, v)};
    var w3 := Next(w2, Commit(Entry(2, v)));
    assert w3.visible == [Entry(2, v)] && w3.pending == {Entry(1, u)};
    assert After(w3.visible, w.list, 0) == [Entry(2, v)] by { assert w3.visible[1..] == []; }
    var w4 := Next(w3, Page(1));
    assert w4.cursor == 2 && w4.read == {Entry(2, v)};
    var w5 := Next(w4, Commit(Entry(1, u)));
    assert w5.visible[0] == Entry(1, u);
    ws := [w, Next(w, Draw(u)), w2, w3, w4, w5];
  }
}
