/** The server's append-only log (the `updates` table of todoers-server/src/db.rs). */
module ServerLog {
  import opened Helpers
  import opened Updates

  datatype Entry = Entry(seqno: nat, update: Update)

  predicate Sorted(log: seq<Entry>) {
    forall i, j | 0 <= i < j < |log| :: log[i].seqno < log[j].seqno
  }

  predicate Logged(log: seq<Entry>, u: Update) {
    exists i | 0 <= i < |log| :: log[i].update == u
  }

  /** The row `insert_update` leaves behind: a signature already there adds nothing. */
  function Insert(log: seq<Entry>, next: nat, u: Update): seq<Entry> {
    if Logged(log, u) then log else log + [Entry(next, u)]
  }

  /** The rows of one list after a cursor, in `seqno` order. */
  function After(log: seq<Entry>, list: ListId, after: nat): seq<Entry> {
    if log == [] then []
    else if log[0].update.list == list && log[0].seqno > after then [log[0]] + After(log[1..], list, after)
    else After(log[1..], list, after)
  }

  function Take<T>(s: seq<T>, n: nat): seq<T> {
    if |s| <= n then s else s[..n]
  }

  /** `fetch_updates_after`: the server caps a page at 1000 rows and never asks for none. */
  function Fetch(log: seq<Entry>, list: ListId, after: nat, limit: int): seq<Entry> {
    Take(After(log, list, after), Clamp(limit, 1, 1000))
  }

  // ── facts ─────────────────────────────────────────────────────────────────

  lemma {:induction false} AfterFacts(log: seq<Entry>, list: ListId, after: nat)
    ensures forall e :: e in After(log, list, after) <==> e in log && e.update.list == list && e.seqno > after
    ensures Sorted(log) ==> Sorted(After(log, list, after))
  {
    if log != [] {
      AfterFacts(log[1..], list, after);
      assert log == [log[0]] + log[1..];
      if Sorted(log) {
        var rest := After(log[1..], list, after);
        forall k | 0 <= k < |rest|
          ensures log[0].seqno < rest[k].seqno
        {
          assert rest[k] in log[1..];
        }
      }
    }
  }

  /** A page skips nothing: whatever lies between the cursor and one of its rows
      stands in the page before that row. */
  lemma PageHasNoGap(log: seq<Entry>, list: ListId, after: nat, limit: int, j: nat, e: Entry)
    requires Sorted(log) && j < |Fetch(log, list, after, limit)|
    requires e in log && e.update.list == list
    requires after < e.seqno < Fetch(log, list, after, limit)[j].seqno
    ensures e in Fetch(log, list, after, limit)[..j]
  {
    AfterFacts(log, list, after);
    var rows := After(log, list, after);
    var i :| 0 <= i < |rows| && rows[i] == e;
    assert i < j;
    assert Fetch(log, list, after, limit)[..j][i] == e;
  }

  /** Resuming after a row continues right behind it. */
  lemma AfterResumes(log: seq<Entry>, list: ListId, after: nat, n: nat)
    requires Sorted(log) && 0 < n <= |After(log, list, after)|
    ensures After(log, list, After(log, list, after)[n - 1].seqno) == After(log, list, after)[n..]
  {
    AfterFacts(log, list, after);
    var here := After(log, list, after);
    assert forall k | 0 <= k < |here| :: here[k] in here;
    AfterTwice(log, list, after, here[n - 1].seqno);
    AfterCuts(here, list, n);
  }

  lemma {:induction false} AfterTwice(log: seq<Entry>, list: ListId, a: nat, b: nat)
    requires a <= b
    ensures After(log, list, b) == After(After(log, list, a), list, b)
  {
    if log != [] {
      AfterTwice(log[1..], list, a, b);
      if log[0].update.list == list && log[0].seqno > a {
        assert After(log, list, a)[1..] == After(log[1..], list, a);
      }
    }
  }

  lemma {:induction false} AfterCuts(rows: seq<Entry>, list: ListId, n: nat)
    requires Sorted(rows) && 0 < n <= |rows|
    requires forall i | 0 <= i < |rows| :: rows[i].update.list == list
    ensures After(rows, list, rows[n - 1].seqno) == rows[n..]
  {
    if n == 1 {
      AfterAll(rows[1..], list, rows[0].seqno);
    } else {
      AfterCuts(rows[1..], list, n - 1);
      assert rows[0].seqno < rows[n - 1].seqno;
    }
  }

  lemma {:induction false} AfterAll(rows: seq<Entry>, list: ListId, after: nat)
    requires forall i | 0 <= i < |rows| :: rows[i].update.list == list && after < rows[i].seqno
    ensures After(rows, list, after) == rows
  {
    if rows != [] {
      AfterAll(rows[1..], list, after);
    }
  }

  /** The log as the server updates it. */
  class Log {
    var entries: seq<Entry>
    var next: nat  // the identity column

    ghost predicate Valid()
      reads this
    {
      && Sorted(entries)
      && (forall i | 0 <= i < |entries| :: entries[i].seqno < next)
      && forall i, j | 0 <= i < j < |entries| :: entries[i].update != entries[j].update
    }

    constructor ()
      ensures Valid() && entries == [] && next == 1
    {
      entries, next := [], 1;
    }

    /** `insert_update`: the returned number is the row's, new or old; the
        identity column moves on either way. */
    method InsertUpdate(u: Update) returns (seqno: nat)
      requires Valid()
      modifies this
      ensures Valid()
      ensures entries == Insert(old(entries), old(next), u) && next == old(next) + 1
      ensures Entry(seqno, u) in entries
      ensures forall e | e in entries && e.update == u :: e.seqno == seqno
    {
      var k := 0;
      while k < |entries|
        invariant 0 <= k <= |entries|
        invariant forall i | 0 <= i < k :: entries[i].update != u
      {
        if entries[k].update == u {
          seqno := entries[k].seqno;
          next := next + 1;
          assert entries[k] == Entry(seqno, u);
          return;
        }
        k := k + 1;
      }
      seqno := next;
      entries := entries + [Entry(next, u)];
      next := next + 1;
      assert entries[|entries| - 1] == Entry(seqno, u);
    }

    method FetchUpdatesAfter(list: ListId, after: nat, limit: int) returns (page: seq<Entry>)
      requires Valid()
      ensures page == Fetch(entries, list, after, limit)
      ensures 0 < |After(entries, list, after)| ==> 0 < |page|
    {
      var want := Clamp(limit, 1, 1000);
      page := [];
      var k := 0;
      while k < |entries| && |page| < want
        invariant 0 <= k <= |entries| && |page| <= want
        invariant After(entries, list, after) == page + After(entries[k..], list, after)
      {
        assert entries[k..][0] == entries[k] && entries[k..][1..] == entries[k + 1..];
        if entries[k].update.list == list && entries[k].seqno > after {
          page := page + [entries[k]];
        }
        k := k + 1;
      }
      assert |page| == want || After(entries[k..], list, after) == [];
    }
  }
}
