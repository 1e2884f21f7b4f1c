/** The read model of the lists: rows derived from the documents, read back sorted,
    and the sidebar computed from them (todoers-client/src/db.rs:391-489,
    todoers-client/src/store.rs:157-182). */
module ReadModel {
  import opened Helpers
  import opened OrderKeys

  type ListId = nat
  type ItemId = nat

  datatype Priority = Unranked | Low | Med | High

  function Rank(p: Priority): int {
    match p
    case Unranked => 0
    case Low => 1
    case Med => 2
    case High => 3
  }

  function FromRank(n: int): Priority {
    if n == 1 then Low else if n == 2 then Med else if n == 3 then High else Unranked
  }

  datatype Subtask = Subtask(id: nat, title: string, done: bool)

  /** An item as the document holds it; times are whole seconds. */
  datatype RawItem = RawItem(id: ItemId, title: string, notes: string, due: Option<int>, priority: Priority, done: bool,
                             tags: seq<string>, subtasks: seq<Subtask>)

  datatype TodoItem = TodoItem(raw: RawItem, orderKey: string)

  /** `TodoDoc::items`: the list in order, each item with its position's key. */
  function Items(doc: seq<RawItem>): (items: seq<TodoItem>)
    ensures |items| == |doc|
  {
    seq(|doc|, i requires 0 <= i < |doc| => TodoItem(doc[i], OrderKey(i)))
  }

  function WithoutSubtasks(items: seq<TodoItem>): (r: seq<TodoItem>)
    ensures |r| == |items|
  {
    seq(|items|, i requires 0 <= i < |items| => items[i].(raw := items[i].raw.(subtasks := [])))
  }

  /** The columns of a row beside its key. */
  datatype Row = Row(title: string, done: int, orderKey: string, dueAt: Option<int>, rank: int, notes: string,
                     tags: seq<string>)

  function ToRow(it: TodoItem): Row {
    Row(it.raw.title, if it.raw.done then 1 else 0, it.orderKey, it.raw.due,
        Rank(it.raw.priority), it.raw.notes, it.raw.tags)
  }

  function FromRow(id: ItemId, r: Row): TodoItem {
    TodoItem(RawItem(id, r.title, r.notes, r.dueAt, FromRank(r.rank), r.done != 0, r.tags, []), r.orderKey)
  }

  lemma RowRoundTrip(it: TodoItem)
    ensures FromRow(it.raw.id, ToRow(it)) == it.(raw := it.raw.(subtasks := []))
    ensures ToRow(it).done in {0, 1}
  {
  }

  // ── replacing and loading ─────────────────────────────────────────────────

  type Table = map<(ListId, ItemId), Row>

  predicate DistinctIds(items: seq<TodoItem>) {
    forall i, j | 0 <= i < j < |items| :: items[i].raw.id != items[j].raw.id
  }

  /** The rows of a list are exactly these items. */
  ghost predicate Mirrors(table: Table, list: ListId, items: seq<TodoItem>) {
    && (forall i | 0 <= i < |items| :: (list, items[i].raw.id) in table
          && table[(list, items[i].raw.id)] == ToRow(items[i]))
    && (forall id | (list, id) in table :: exists i :: 0 <= i < |items| && items[i].raw.id == id)
  }

  predicate SameElsewhere(a: Table, b: Table, list: ListId) {
    && (forall k | k in a && k.0 != list :: k in b && b[k] == a[k])
    && (forall k | k in b && k.0 != list :: k in a)
  }

  class Db {
    var todoItems: Table

    /** Delete the list's rows, insert the items one by one; a key that is there
        already fails the transaction, and nothing has happened. */
    method ReplaceTodoItems(list: ListId, items: seq<TodoItem>) returns (ok: bool)
      modifies this
      ensures ok <==> DistinctIds(items)
      ensures ok ==> Mirrors(todoItems, list, items) && SameElsewhere(old(todoItems), todoItems, list)
      ensures !ok ==> todoItems == old(todoItems)
    {
      var before := todoItems;
      todoItems := map k | k in before && k.0 != list :: before[k];
      var k := 0;
      while k < |items|
        invariant 0 <= k <= |items| && before == old(todoItems)
        invariant Mirrors(todoItems, list, items[..k]) && SameElsewhere(before, todoItems, list)
        invariant DistinctIds(items[..k])
      {
        var key := (list, items[k].raw.id);
        if key in todoItems {
          RowTwice(todoItems, list, items, k);
          todoItems := before;
          return false;
        }
        ghost var table := todoItems;
        todoItems := todoItems[key := ToRow(items[k])];
        OneMoreRow(table, list, items, k);
        k := k + 1;
      }
      assert items[..k] == items;
      ok := true;
    }
  }

  lemma RowTwice(table: Table, list: ListId, items: seq<TodoItem>, k: nat)
    requires k < |items| && Mirrors(table, list, items[..k]) && (list, items[k].raw.id) in table
    ensures !DistinctIds(items)
  {
    var i :| 0 <= i < k && items[..k][i].raw.id == items[k].raw.id;
    assert items[i].raw.id == items[k].raw.id;
  }

  lemma OneMoreRow(table: Table, list: ListId, items: seq<TodoItem>, k: nat)
    requires k < |items| && Mirrors(table, list, items[..k]) && DistinctIds(items[..k])
    requires (list, items[k].raw.id) !in table
    ensures Mirrors(table[(list, items[k].raw.id) := ToRow(items[k])], list, items[..k + 1])
    ensures DistinctIds(items[..k + 1])
  {
    var table' := table[(list, items[k].raw.id) := ToRow(items[k])];
    var fewer, more := items[..k], items[..k + 1];
    forall i | 0 <= i < k
      ensures more[i] == fewer[i] && more[i].raw.id != items[k].raw.id
    {
      assert (list, fewer[i].raw.id) in table;
    }
    assert DistinctIds(more) by {
      assert forall i, j | 0 <= i < j < k :: more[i].raw.id == fewer[i].raw.id && more[j].raw.id == fewer[j].raw.id;
    }
    forall i | 0 <= i < |more|
      ensures (list, more[i].raw.id) in table' && table'[(list, more[i].raw.id)] == ToRow(more[i])
    {
      if i < k {
        assert (list, fewer[i].raw.id) in table;
      }
    }
    forall id | (list, id) in table'
      ensures exists i :: 0 <= i < |more| && more[i].raw.id == id
    {
      if id == items[k].raw.id {
        assert more[k].raw.id == id;
      } else {
        var i :| 0 <= i < k && fewer[i].raw.id == id;
        assert more[i].raw.id == id;
      }
    }
  }

  /** A result of the query: every row of the list once, sorted by order key; rows
      with equal keys in any order. */
  ghost predicate QueryResult(result: seq<TodoItem>, table: Table, list: ListId) {
    && (forall id | (list, id) in table :: FromRow(id, table[(list, id)]) in result)
    && (forall it | it in result :: (list, it.raw.id) in table && it == FromRow(it.raw.id, table[(list, it.raw.id)]))
    && (forall i, j | 0 <= i < j < |result| :: result[i] != result[j])
    && (forall i, j | 0 <= i < j < |result| :: !Before(result[j].orderKey, result[i].orderKey))
  }

  predicate StrictlySorted(items: seq<TodoItem>) {
    forall i, j | 0 <= i < j < |items| :: Before(items[i].orderKey, items[j].orderKey)
  }

  lemma {:induction false} SortedUnique(a: seq<TodoItem>, b: seq<TodoItem>)
    requires StrictlySorted(a) && StrictlySorted(b) && forall x :: x in a <==> x in b
    ensures a == b
  {
    assert b != [] ==> b[0] in b;
    if a != [] {
      assert a[0] in b;
      assert b[0] in a;
      var i :| 0 <= i < |b| && b[i] == a[0];
      var j :| 0 <= j < |a| && a[j] == b[0];
      if i > 0 && j > 0 {
        BeforeTransitive(a[0].orderKey, a[j].orderKey, b[i].orderKey);
        BeforeIrreflexive(a[0].orderKey);
      }
      BeforeIrreflexive(a[0].orderKey);
      forall x
        ensures x in a[1..] <==> x in b[1..]
      {
        TailHas(a, x);
        TailHas(b, x);
      }
      SortedUnique(a[1..], b[1..]);
      assert a == [a[0]] + a[1..] && b == [b[0]] + b[1..];
    }
  }

  lemma TailHas(a: seq<TodoItem>, x: TodoItem)
    requires a != [] && StrictlySorted(a)
    ensures x in a[1..] <==> x in a && x != a[0]
  {
    BeforeIrreflexive(a[0].orderKey);
    assert a == [a[0]] + a[1..];
    if x in a[1..] {
      var i :| 0 <= i < |a[1..]| && a[1..][i] == x;
      assert a[i + 1] == x;
    }
  }

  lemma DroppedAt(doc: seq<RawItem>, i: nat)
    requires i < |doc|
    ensures WithoutSubtasks(Items(doc))[i] == FromRow(doc[i].id, ToRow(Items(doc)[i]))
  {
    RowRoundTrip(Items(doc)[i]);
  }

  /** Loading gives the document's items less their subtasks; whether also in the
      document's order is a matter of the keys. */
  lemma LoadedItems(doc: seq<RawItem>, table: Table, list: ListId, result: seq<TodoItem>, it: TodoItem)
    requires Mirrors(table, list, Items(doc)) && QueryResult(result, table, list)
    ensures it in result <==> it in WithoutSubtasks(Items(doc))
  {
    var items, dropped := Items(doc), WithoutSubtasks(Items(doc));
    if it in dropped {
      var i :| 0 <= i < |dropped| && dropped[i] == it;
      DroppedAt(doc, i);
      assert (list, items[i].raw.id) in table;
    }
    if it in result {
      assert (list, it.raw.id) in table;
      var i :| 0 <= i < |items| && items[i].raw.id == it.raw.id;
      DroppedAt(doc, i);
      assert dropped[i] in dropped;
    }
  }

  lemma ResultStrict(doc: seq<RawItem>, table: Table, list: ListId, result: seq<TodoItem>)
    requires Mirrors(table, list, Items(doc)) && QueryResult(result, table, list) && |doc| <= LIMIT
    ensures StrictlySorted(result)
  {
    var dropped := WithoutSubtasks(Items(doc));
    forall i, j | 0 <= i < j < |result|
      ensures Before(result[i].orderKey, result[j].orderKey)
    {
      LoadedItems(doc, table, list, result, result[i]);
      LoadedItems(doc, table, list, result, result[j]);
      var p :| 0 <= p < |dropped| && dropped[p] == result[i];
      var q :| 0 <= q < |dropped| && dropped[q] == result[j];
      KeysSortAsNumbers(p, q);
      BeforeTotal(result[i].orderKey, result[j].orderKey);
    }
  }

  /** Reading a list back gives its items in the document's order, subtasks
      dropped, exactly when the document has at most 10^8 of them. */
  lemma LoadsInDocumentOrderIff(doc: seq<RawItem>, table: Table, list: ListId, result: seq<TodoItem>)
    requires Mirrors(table, list, Items(doc)) && QueryResult(result, table, list)
    ensures result == WithoutSubtasks(Items(doc)) <==> |doc| <= 100_000_000
  {
    var dropped := WithoutSubtasks(Items(doc));
    if |doc| <= LIMIT {
      ResultStrict(doc, table, list, result);
      KeysInOrderIff(|doc|);
      forall x
        ensures x in result <==> x in dropped
      {
        LoadedItems(doc, table, list, result, x);
      }
      SortedUnique(result, dropped);
    } else {
      NinthDigitSortsWrong();
      assert dropped[LIMIT].orderKey == OrderKey(LIMIT) && dropped[LIMIT - 1].orderKey == OrderKey(LIMIT - 1);
    }
  }

  // ── the sidebar ───────────────────────────────────────────────────────────

  datatype Summary = Summary(openCount: nat, nextDue: Option<int>, topPriority: Priority)

  function Earlier(a: Option<int>, b: Option<int>): Option<int> {
    if a.None? then b else if b.None? then a else if a.value <= b.value then a else b
  }

  function Higher(a: Priority, b: Priority): Priority {
    if Rank(a) >= Rank(b) then a else b
  }

  function Counted(s: Summary, raw: RawItem): Summary {
    if raw.done then s
    else Summary(s.openCount + 1, Earlier(s.nextDue, raw.due), Higher(s.topPriority, raw.priority))
  }

  /** A list's aggregates, from its document: what is open, the nearest due date
      among it, the top priority among it. */
  function OfDocument(doc: seq<RawItem>): Summary {
    if doc == [] then Summary(0, None, Unranked)
    else Counted(OfDocument(doc[..|doc| - 1]), doc[|doc| - 1])
  }

  /** The same from all the rows of all lists, as `list_summaries` goes over them. */
  function OfRows(all: seq<(ListId, TodoItem)>, list: ListId): Summary {
    if all == [] then Summary(0, None, Unranked)
    else
      var before := OfRows(all[..|all| - 1], list);
      var (l, it) := all[|all| - 1];
      if l == list then Counted(before, it.raw) else before
  }

  lemma CountedCommutes(s: Summary, a: RawItem, b: RawItem)
    ensures Counted(Counted(s, a), b) == Counted(Counted(s, b), a)
  {
  }

  /** Taking one row out and counting it last gives the same. */
  lemma {:induction false} CountLast(all: seq<(ListId, TodoItem)>, list: ListId, i: nat)
    requires i < |all|
    ensures OfRows(all, list) == OfRows(all[..i] + all[i + 1..] + [all[i]], list)
    decreases |all|
  {
    var n := |all| - 1;
    var rest := all[..i] + all[i + 1..];
    assert (rest + [all[i]])[..n] == rest;
    if i < n {
      var inner := all[..n];
      CountLast(inner, list, i);
      var innerRest := inner[..i] + inner[i + 1..];
      assert (innerRest + [inner[i]])[..|innerRest|] == innerRest;
      assert rest[..n - 1] == innerRest && rest[n - 1] == all[n];
      CountedCommutes(OfRows(innerRest, list), all[i].1.raw, all[n].1.raw);
    } else {
      assert rest + [all[n]] == all;
    }
  }

  lemma TakenOut<T>(s: seq<T>, i: nat)
    requires i < |s|
    ensures multiset(s) == multiset(s[..i] + s[i + 1..]) + multiset{s[i]}
  {
    assert s == s[..i] + [s[i]] + s[i + 1..];
  }

  lemma SameRest<T>(a: seq<T>, b: seq<T>, i: nat)
    requires a != [] && i < |b| && b[i] == a[|a| - 1] && multiset(a) == multiset(b)
    ensures multiset(a[..|a| - 1]) == multiset(b[..i] + b[i + 1..])
  {
    var n := |a| - 1;
    TakenOut(a, n);
    TakenOut(b, i);
    assert a[..n] + a[n + 1..] == a[..n];
    assert multiset(a[..n]) == multiset(a) - multiset{a[n]};
  }

  lemma LastRow(all: seq<(ListId, TodoItem)>, x: (ListId, TodoItem), list: ListId)
    ensures OfRows(all + [x], list) == if x.0 == list then Counted(OfRows(all, list), x.1.raw) else OfRows(all, list)
  {
    assert (all + [x])[..|all|] == all;
  }

  /** The order in which the rows arrive does not matter. */
  lemma {:induction false} OrderIrrelevant(a: seq<(ListId, TodoItem)>, b: seq<(ListId, TodoItem)>, list: ListId)
    requires multiset(a) == multiset(b)
    ensures OfRows(a, list) == OfRows(b, list)
    decreases |a|
  {
    assert |a| == |multiset(a)| == |b|;
    if a != [] {
      var n := |a| - 1;
      assert a[n] in multiset(b);
      var i :| 0 <= i < |b| && b[i] == a[n];
      var rest := b[..i] + b[i + 1..];
      SameRest(a, b, i);
      OrderIrrelevant(a[..n], rest, list);
      LastRow(a[..n], a[n], list);
      LastRow(rest, b[i], list);
      CountLast(b, list, i);
      assert a == a[..n] + [a[n]];
    }
  }

  /** A query over all lists: every row once, in any order. */
  ghost predicate AllRows(all: seq<(ListId, TodoItem)>, table: Table) {
    && (forall k | k in table :: (k.0, FromRow(k.1, table[k])) in all)
    && (forall x | x in all :: (x.0, x.1.raw.id) in table && x.1 == FromRow(x.1.raw.id, table[(x.0, x.1.raw.id)]))
    && (forall i, j | 0 <= i < j < |all| :: all[i] != all[j])
  }

  function OfList(all: seq<(ListId, TodoItem)>, list: ListId): seq<(ListId, TodoItem)> {
    if all == [] then []
    else OfList(all[..|all| - 1], list) + if all[|all| - 1].0 == list then [all[|all| - 1]] else []
  }

  lemma {:induction false} OnlyItsRowsCount(all: seq<(ListId, TodoItem)>, list: ListId)
    ensures OfRows(all, list) == OfRows(OfList(all, list), list)
  {
    if all != [] {
      var n := |all| - 1;
      OnlyItsRowsCount(all[..n], list);
      if all[n].0 == list {
        LastRow(OfList(all[..n], list), all[n], list);
      } else {
        assert OfList(all, list) == OfList(all[..n], list);
      }
    }
  }

  lemma {:induction false} OfListHas(all: seq<(ListId, TodoItem)>, list: ListId)
    ensures forall x :: x in OfList(all, list) <==> x in all && x.0 == list
  {
    if all != [] {
      OfListHas(all[..|all| - 1], list);
      assert all == all[..|all| - 1] + [all[|all| - 1]];
    }
  }

  lemma {:induction false} OfListUnique(all: seq<(ListId, TodoItem)>, list: ListId)
    requires Unique(all)
    ensures Unique(OfList(all, list))
  {
    if all != [] {
      var n := |all| - 1;
      OfListUnique(all[..n], list);
      OfListHas(all[..n], list);
      assert all[n] !in all[..n];
      assert all[n] !in OfList(all[..n], list);
    }
  }

  predicate Unique<T(==)>(s: seq<T>) {
    forall i, j | 0 <= i < j < |s| :: s[i] != s[j]
  }

  lemma {:induction false} UniqueMultiset<T>(s: seq<T>, x: T)
    requires Unique(s)
    ensures multiset(s)[x] == if x in s then 1 else 0
  {
    if s != [] {
      UniqueMultiset(s[1..], x);
      assert s == [s[0]] + s[1..];
    }
  }

  function Tagged(list: ListId, items: seq<TodoItem>): (r: seq<(ListId, TodoItem)>)
    ensures |r| == |items|
  {
    seq(|items|, i requires 0 <= i < |items| => (list, items[i]))
  }

  lemma {:induction false} OfDocumentRows(list: ListId, doc: seq<RawItem>)
    ensures OfRows(Tagged(list, WithoutSubtasks(Items(doc))), list) == OfDocument(doc)
  {
    if doc != [] {
      var n := |doc| - 1;
      OfDocumentRows(list, doc[..n]);
      var rows := Tagged(list, WithoutSubtasks(Items(doc)));
      assert rows[..n] == Tagged(list, WithoutSubtasks(Items(doc[..n])));
    }
  }

  /** Whatever order the rows come in, the sidebar's aggregates of a list are those
      of its document. */
  lemma SidebarMatchesDocument(doc: seq<RawItem>, table: Table, list: ListId, all: seq<(ListId, TodoItem)>)
    requires Mirrors(table, list, Items(doc)) && DistinctIds(Items(doc)) && AllRows(all, table)
    ensures OfRows(all, list) == OfDocument(doc)
  {
    var mine := OfList(all, list);
    var rows := Tagged(list, WithoutSubtasks(Items(doc)));
    OnlyItsRowsCount(all, list);
    OfListHas(all, list);
    OfListUnique(all, list);
    RowsUnique(list, doc);
    OfDocumentRows(list, doc);
    forall x: (ListId, TodoItem)
      ensures multiset(mine)[x] == multiset(rows)[x]
    {
      RowPresent(doc, table, list, all, x);
      UniqueMultiset(mine, x);
      UniqueMultiset(rows, x);
    }
    assert multiset(mine) == multiset(rows);
    OrderIrrelevant(mine, rows, list);
  }

  lemma RowsUnique(list: ListId, doc: seq<RawItem>)
    requires DistinctIds(Items(doc))
    ensures Unique(Tagged(list, WithoutSubtasks(Items(doc))))
  {
    var rows := Tagged(list, WithoutSubtasks(Items(doc)));
    forall i, j | 0 <= i < j < |rows|
      ensures rows[i] != rows[j]
    {
      assert Items(doc)[i].raw.id != Items(doc)[j].raw.id;
    }
  }

  lemma RowPresent(doc: seq<RawItem>, table: Table, list: ListId, all: seq<(ListId, TodoItem)>, x: (ListId, TodoItem))
    requires Mirrors(table, list, Items(doc)) && AllRows(all, table)
    ensures x in all && x.0 == list <==> x in Tagged(list, WithoutSubtasks(Items(doc)))
  {
    var rows := Tagged(list, WithoutSubtasks(Items(doc)));
    if x in rows {
      var i :| 0 <= i < |rows| && rows[i] == x;
      DroppedAt(doc, i);
      assert (list, Items(doc)[i].raw.id) in table;
    }
    if x in all && x.0 == list {
      assert (list, x.1.raw.id) in table;
      var i :| 0 <= i < |doc| && Items(doc)[i].raw.id == x.1.raw.id;
      DroppedAt(doc, i);
      assert rows[i] == x;
    }
  }

  function OpenIndices(doc: seq<RawItem>): (open: set<nat>)
    ensures forall i | i in open :: i < |doc|
  {
    set i: nat | i < |doc| && !doc[i].done
  }

  lemma OneMoreItem(doc: seq<RawItem>)
    requires doc != []
    ensures var n := |doc| - 1;
            && OpenIndices(doc) == OpenIndices(doc[..n]) + (if doc[n].done then {} else {n})
            && n !in OpenIndices(doc[..n]) && (forall i | 0 <= i < n :: doc[..n][i] == doc[i])
  {
  }

  lemma {:induction false} CountMeans(doc: seq<RawItem>)
    ensures OfDocument(doc).openCount == |OpenIndices(doc)|
  {
    if doc != [] {
      CountMeans(doc[..|doc| - 1]);
      OneMoreItem(doc);
    }
  }

  lemma {:induction false} DueMeans(doc: seq<RawItem>)
    ensures var due := OfDocument(doc).nextDue;
            && (due.None? ==> forall i | i in OpenIndices(doc) :: doc[i].due.None?)
            && (due.Some? ==>
                  && (exists i :: i in OpenIndices(doc) && doc[i].due == due)
                  && (forall i | i in OpenIndices(doc) && doc[i].due.Some? :: due.value <= doc[i].due.value))
  {
    if doc != [] {
      DueMeans(doc[..|doc| - 1]);
      OneMoreItem(doc);
    }
  }

  lemma {:induction false} PriorityMeans(doc: seq<RawItem>)
    ensures var top := OfDocument(doc).topPriority;
            && (forall i | i in OpenIndices(doc) :: Rank(doc[i].priority) <= Rank(top))
            && (top == Unranked || exists i :: i in OpenIndices(doc) && doc[i].priority == top)
  {
    if doc != [] {
      PriorityMeans(doc[..|doc| - 1]);
      OneMoreItem(doc);
    }
  }

  /** High before medium before low before none. */
  predicate NoMoreThan(p: Priority, q: Priority) {
    p == q || p == Unranked || q == High || (p == Low && q == Med)
  }

  /** What the aggregates are: the number of open items, the least due date among
      them if any has one, the greatest priority among them. */
  lemma SummaryMeans(doc: seq<RawItem>)
    ensures var s := OfDocument(doc);
            && s.openCount == |OpenIndices(doc)|
            && (s.nextDue.None? ==> forall i | i in OpenIndices(doc) :: doc[i].due.None?)
            && (s.nextDue.Some? ==>
                  && (exists i :: i in OpenIndices(doc) && doc[i].due == s.nextDue)
                  && (forall i | i in OpenIndices(doc) && doc[i].due.Some? :: s.nextDue.value <= doc[i].due.value))
            && (forall i | i in OpenIndices(doc) :: NoMoreThan(doc[i].priority, s.topPriority))
            && (s.topPriority == Unranked || exists i :: i in OpenIndices(doc) && doc[i].priority == s.topPriority)
  {
    CountMeans(doc);
    DueMeans(doc);
    PriorityMeans(doc);
  }

  // ── whole runs ────────────────────────────────────────────────────────────

  /** The open documents, the table, and the lists whose last operation failed. */
  datatype World = World(docs: map<ListId, seq<RawItem>>, table: Table, stale: set<ListId>)

  /** An edit or a merge that leaves this document and writes the read model; an
      edit that changes the document and then fails; the deletion of a list. */
  datatype Op =
    | Persist(list: ListId, doc: seq<RawItem>)
    | FailAfterEdit(list: ListId, doc: seq<RawItem>)
    | Delete(list: ListId)

  ghost predicate Step(w: World, op: Op, w': World) {
    match op
    case Persist(list, doc) =>
      && w'.docs == w.docs[list := doc]
      && if DistinctIds(Items(doc))
         then Mirrors(w'.table, list, Items(doc)) && SameElsewhere(w.table, w'.table, list)
             && w'.stale == w.stale - {list}
         else w'.table == w.table && w'.stale == w.stale + {list}
    case FailAfterEdit(list, doc) =>
      w' == World(w.docs[list := doc], w.table, w.stale + {list})
    case Delete(list) =>
      w' == World(w.docs - {list}, map k | k in w.table && k.0 != list :: w.table[k], w.stale - {list})
  }

  ghost predicate Run(ws: seq<World>, ops: seq<Op>) {
    && |ws| == |ops| + 1 && ws[0] == World(map[], map[], {})
    && forall i | 0 <= i < |ops| :: Step(ws[i], ops[i], ws[i + 1])
  }

  ghost predicate Derived(w: World) {
    forall list | list in w.docs && list !in w.stale ::
      Mirrors(w.table, list, Items(w.docs[list])) && DistinctIds(Items(w.docs[list]))
  }

  lemma MirrorsElsewhere(a: Table, b: Table, list: ListId, other: ListId, items: seq<TodoItem>)
    requires SameElsewhere(a, b, list) && other != list && Mirrors(a, other, items)
    ensures Mirrors(b, other, items)
  {
  }

  lemma StepKeeps(w: World, op: Op, w': World)
    requires Derived(w) && Step(w, op, w')
    ensures Derived(w')
  {
    forall other | other in w'.docs && other !in w'.stale
      ensures Mirrors(w'.table, other, Items(w'.docs[other])) && DistinctIds(Items(w'.docs[other]))
    {
      if other != op.list {
        MirrorsElsewhere(w.table, w'.table, op.list, other, Items(w.docs[other]));
      }
    }
  }

  lemma {:induction false} RunKeeps(ws: seq<World>, ops: seq<Op>)
    requires Run(ws, ops)
    ensures Derived(ws[|ops|])
    decreases |ops|
  {
    if ops != [] {
      var n := |ops| - 1;
      RunKeeps(ws[..n + 1], ops[..n]);
      assert ws[..n + 1][n] == ws[n];
      StepKeeps(ws[n], ops[n], ws[n + 1]);
    }
  }

  /** In every run, for every list whose last operation was Ok: what is read back is
      the document's list, subtasks dropped, as long as it has at most 10^8 items,
      and the sidebar shows the document's aggregates. */
  lemma ReadModelFollowsDocuments(ws: seq<World>, ops: seq<Op>, list: ListId, result: seq<TodoItem>,
                                  all: seq<(ListId, TodoItem)>)
    requires Run(ws, ops)
    requires var w := ws[|ops|];
             list in w.docs && list !in w.stale && QueryResult(result, w.table, list) && AllRows(all, w.table)
    ensures var doc := ws[|ops|].docs[list];
            && (result == WithoutSubtasks(Items(doc)) <==> |doc| <= 100_000_000)
            && OfRows(all, list) == OfDocument(doc)
  {
    RunKeeps(ws, ops);
    var w := ws[|ops|];
    LoadsInDocumentOrderIff(w.docs[list], w.table, list, result);
    SidebarMatchesDocument(w.docs[list], w.table, list, all);
  }
}
