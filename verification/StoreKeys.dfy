/** The client store's side of membership: list rows, member directory, key slots
    and the in-memory DEK map (todoers-client/src/store.rs and session.rs). */
module StoreKeys {
  import opened Helpers
  import opened Updates
  import opened Keys
  import opened ServerLists

  /** The stored rows of one list; the client keeps only its own wrapped keys. */
  datatype LocalList = LocalList(epoch: Epoch, members: seq<Member>, slots: map<Epoch, Wrapped>)

  type DekMap = map<(ListId, Epoch), Dek>

  datatype Failure = UnknownList | NoDek

  /** `add_member_row`: one row per member id, replaced in place. */
  function Upsert(members: seq<Member>, m: Member): seq<Member> {
    if members == [] then [m]
    else if members[0].id == m.id then [m] + members[1..]
    else [members[0]] + Upsert(members[1..], m)
  }

  function UpsertAll(members: seq<Member>, more: seq<Member>): seq<Member>
    decreases |more|
  {
    if more == [] then members else UpsertAll(Upsert(members, more[0]), more[1..])
  }

  predicate DistinctIds(members: seq<Member>) {
    forall i, j | 0 <= i < j < |members| :: members[i].id != members[j].id
  }

  lemma {:induction false} UpsertFacts(members: seq<Member>, m: Member)
    requires DistinctIds(members)
    ensures DistinctIds(Upsert(members, m))
    ensures forall x :: x in Upsert(members, m) <==> x == m || (x in members && x.id != m.id)
  {
    if members != [] {
      assert members == [members[0]] + members[1..];
      if members[0].id == m.id {
        assert forall x | x in members[1..] :: x.id != m.id;
      } else {
        UpsertFacts(members[1..], m);
        var rest := Upsert(members[1..], m);
        forall k | 0 <= k < |rest|
          ensures rest[k].id != members[0].id
        {
          assert rest[k] in rest;
        }
      }
    }
  }

  predicate Opens(lists: map<ListId, LocalList>, mine: Pub, l: ListId, e: Epoch) {
    l in lists && e in lists[l].slots && OpenSealed(lists[l].slots[e], mine).Some?
  }

  function OpenKeys(lists: map<ListId, LocalList>, mine: Pub): set<(ListId, Epoch)> {
    set l, e | l in lists && e in lists[l].slots && Opens(lists, mine, l, e) :: (l, e)
  }

  /** One pass of `rehydrate`: the boxes that open, by list and epoch. */
  function Opened(lists: map<ListId, LocalList>, mine: Pub): DekMap {
    map key | key in OpenKeys(lists, mine) :: OpenSealed(lists[key.0].slots[key.1], mine).value
  }

  /** A row of the `key_slots` table. */
  datatype SlotRow = SlotRow(list: ListId, epoch: Epoch, wrapped: Wrapped)

  function OpenedRows(rows: seq<SlotRow>, mine: Pub): DekMap {
    if rows == [] then map[]
    else
      var last := rows[|rows| - 1];
      var before := OpenedRows(rows[..|rows| - 1], mine);
      match OpenSealed(last.wrapped, mine)
      case Some(dek) => before[(last.list, last.epoch) := dek]
      case None => before
  }

  predicate IsRow(r: SlotRow, lists: map<ListId, LocalList>) {
    r.list in lists && r.epoch in lists[r.list].slots && lists[r.list].slots[r.epoch] == r.wrapped
  }

  /** The rows of the table, in whatever order the query returns them. */
  ghost predicate RowsOf(rows: seq<SlotRow>, lists: map<ListId, LocalList>) {
    && (forall r | r in rows :: IsRow(r, lists))
    && (forall l, e | l in lists && e in lists[l].slots :: SlotRow(l, e, lists[l].slots[e]) in rows)
  }

  /** The order in which slots come back does not matter. */
  lemma RowOrderIrrelevant(rows: seq<SlotRow>, lists: map<ListId, LocalList>, mine: Pub)
    requires RowsOf(rows, lists)
    ensures OpenedRows(rows, mine) == Opened(lists, mine)
  {
    forall key: (ListId, Epoch)
      ensures key in OpenedRows(rows, mine) <==> key in Opened(lists, mine)
      ensures key in Opened(lists, mine) ==> OpenedRows(rows, mine)[key] == Opened(lists, mine)[key]
    {
      OpenedRow(rows, lists, mine, key);
      if key.0 in lists && key.1 in lists[key.0].slots {
        assert SlotRow(key.0, key.1, lists[key.0].slots[key.1]) in rows;
      }
    }
  }

  lemma {:induction false} OpenedRow(rows: seq<SlotRow>, lists: map<ListId, LocalList>, mine: Pub, key: (ListId, Epoch))
    requires forall r | r in rows :: IsRow(r, lists)
    ensures key in OpenedRows(rows, mine) <==>
      exists r :: r in rows && (r.list, r.epoch) == key && OpenSealed(r.wrapped, mine).Some?
    ensures key in OpenedRows(rows, mine) ==>
      && key.0 in lists && key.1 in lists[key.0].slots
      && Some(OpenedRows(rows, mine)[key]) == OpenSealed(lists[key.0].slots[key.1], mine)
  {
    if rows != [] {
      var n := |rows| - 1;
      OpenedRow(rows[..n], lists, mine, key);
      assert rows == rows[..n] + [rows[n]];
      assert IsRow(rows[n], lists);
    }
  }

  /** The unlocked session. */
  class Session {
    const mine: Pub
    var deks: DekMap

    constructor (mine: Pub)
      ensures this.mine == mine && deks == map[]
    {
      this.mine, deks := mine, map[];
    }

    method InsertDek(list: ListId, epoch: Epoch, dek: Dek)
      modifies this
      ensures deks == old(deks)[(list, epoch) := dek]
    {
      deks := deks[(list, epoch) := dek];
    }

    /** `rehydrate`: every box that opens goes into the map, the others are skipped. */
    method Rehydrate(rows: seq<SlotRow>)
      modifies this
      ensures deks == old(deks) + OpenedRows(rows, mine)
    {
      var k := 0;
      while k < |rows|
        invariant 0 <= k <= |rows|
        invariant deks == old(deks) + OpenedRows(rows[..k], mine)
      {
        assert rows[..k + 1][..k] == rows[..k];
        match OpenSealed(rows[k].wrapped, mine) {
          case Some(dek) => deks := deks[(rows[k].list, rows[k].epoch) := dek];
          case None =>
        }
        k := k + 1;
      }
      assert rows[..k] == rows;
    }
  }

  // ── the store operations ──────────────────────────────────────────────────

  /** All the store holds about keys and members. */
  datatype Local = Local(me: Member, lists: map<ListId, LocalList>, deks: DekMap)

  datatype Done<+T> = Done(local: Local, out: T) | Failed(failure: Failure)

  /** `create_list` */
  function Created(s: Local, list: ListId, dek: Dek): (Local, Request) {
    var box := SealTo(dek, s.me.identityPub);
    (s.(lists := s.lists[list := LocalList(1, [s.me.(role := Owner)], map[1 := box])],
        deks := s.deks[(list, 1) := dek]),
     Create(box))
  }

  /** `add_member_local` */
  function AddedLocally(s: Local, list: ListId, added: Member): Done<Request> {
    if list !in s.lists then Failed(UnknownList)
    else
      var l := s.lists[list];
      if (list, l.epoch) !in s.deks then Failed(NoDek)
      else
        Done(s.(lists := s.lists[list := l.(members := Upsert(l.members, added))]),
             Add(added.id, added.role, SealTo(s.deks[(list, l.epoch)], added.identityPub), l.epoch))
  }

  /** `remove_member_local` */
  function RemovedLocally(s: Local, list: ListId, removed: MemberId, dek: Dek): Done<Request> {
    if list !in s.lists then Failed(UnknownList)
    else
      var l := s.lists[list];
      var rest := Without(l.members, removed);
      Done(s.(lists := s.lists[list := LocalList(l.epoch + 1, rest,
                                                 l.slots[l.epoch + 1 := SealTo(dek, s.me.identityPub)])],
              deks := s.deks[(list, l.epoch + 1) := dek]),
           Remove(removed, l.epoch, SealAll(rest, dek)))
  }

  /** `ingest_remote_list` */
  function Ingested(s: Local, list: ListId, epoch: Epoch, members: seq<Member>, keys: map<Epoch, Wrapped>): Local {
    var l := if list in s.lists then s.lists[list] else LocalList(epoch, [], map[]);
    var lists := s.lists[list := LocalList(epoch, UpsertAll(l.members, members), l.slots + keys)];
    s.(lists := lists, deks := s.deks + Opened(lists, s.me.identityPub))
  }

  /** `delete_list`: the rows cascade; the session's map is not touched. */
  function Deleted(s: Local, list: ListId): Local {
    s.(lists := s.lists - {list})
  }

  datatype KeyFor = Key(dek: Dek) | NoKey(failure: Failure)

  /** The key lookup with which `persist` starts. */
  function CurrentDek(s: Local, list: ListId): KeyFor {
    if list !in s.lists then NoKey(UnknownList)
    else if (list, s.lists[list].epoch) in s.deks then Key(s.deks[(list, s.lists[list].epoch)])
    else NoKey(NoDek)
  }

  /** The store, as the worker drives it. */
  class Store {
    const me: Member
    const session: Session
    var lists: map<ListId, LocalList>

    ghost predicate Valid()
      reads this
    {
      session.mine == me.identityPub
    }

    function View(): Local
      reads this, session
    {
      Local(me, lists, session.deks)
    }

    constructor (me: Member)
      ensures Valid() && fresh(session) && View() == Local(me, map[], map[])
    {
      this.me, lists := me, map[];
      session := new Session(me.identityPub);
    }

    method CreateList(list: ListId, dek: Dek) returns (request: Request)
      requires Valid()
      modifies this, session
      ensures Valid()
      ensures (View(), request) == Created(old(View()), list, dek)
    {
      var box := SealTo(dek, me.identityPub);
      lists := lists[list := LocalList(1, [], map[1 := box])];
      session.InsertDek(list, 1, dek);
      request := Create(box);
      lists := lists[list := lists[list].(members := [me.(role := Owner)])];
      assert lists == old(lists)[list := LocalList(1, [me.(role := Owner)], map[1 := box])];
    }

    method AddMemberLocal(list: ListId, added: Member) returns (done: Done<Request>)
      requires Valid()
      modifies this
      ensures Valid() && done == AddedLocally(old(View()), list, added)
      ensures View() == if done.Done? then done.local else old(View())
    {
      if list !in lists {
        return Failed(UnknownList);
      }
      var epoch := lists[list].epoch;
      if (list, epoch) !in session.deks {
        return Failed(NoDek);
      }
      var wrapped := SealTo(session.deks[(list, epoch)], added.identityPub);
      lists := lists[list := lists[list].(members := Upsert(lists[list].members, added))];
      done := Done(View(), Add(added.id, added.role, wrapped, epoch));
    }

    method RemoveMemberLocal(list: ListId, removed: MemberId, dek: Dek) returns (done: Done<Request>)
      requires Valid()
      modifies this, session
      ensures Valid() && done == RemovedLocally(old(View()), list, removed, dek)
      ensures View() == if done.Done? then done.local else old(View())
    {
      if list !in lists {
        return Failed(UnknownList);
      }
      var l := lists[list];
      var entries := SealAll(Without(l.members, removed), dek);
      var bumped := l.(slots := l.slots[l.epoch + 1 := SealTo(dek, me.identityPub)]);
      lists := lists[list := bumped];
      session.InsertDek(list, l.epoch + 1, dek);
      bumped := bumped.(epoch := l.epoch + 1);
      lists := lists[list := bumped];
      bumped := bumped.(members := Without(l.members, removed));
      lists := lists[list := bumped];
      assert lists == old(lists)[list := bumped];
      done := Done(View(), Remove(removed, l.epoch, entries));
    }

    /** `load_key_slots`: every stored row once, in no particular order. */
    method LoadKeySlots() returns (rows: seq<SlotRow>)
      ensures RowsOf(rows, lists)
    {
      rows := [];
      var todo := set l, e | l in lists && e in lists[l].slots :: SlotRow(l, e, lists[l].slots[e]);
      ghost var table := todo;
      while todo != {}
        invariant todo <= table
        invariant forall r :: r in rows <==> r in table && r !in todo
      {
        var r :| r in todo;
        rows := rows + [r];
        todo := todo - {r};
      }
      forall l, e | l in lists && e in lists[l].slots
        ensures SlotRow(l, e, lists[l].slots[e]) in rows
      {
        assert SlotRow(l, e, lists[l].slots[e]) in table;
      }
    }

    method IngestRemoteList(list: ListId, epoch: Epoch, members: seq<Member>, keys: map<Epoch, Wrapped>)
      requires Valid()
      modifies this, session
      ensures Valid() && View() == Ingested(old(View()), list, epoch, members, keys)
    {
      var l := if list in lists then lists[list].(epoch := epoch) else LocalList(epoch, [], map[]);
      var k := 0;
      ghost var all := UpsertAll(l.members, members);
      while k < |members|
        invariant 0 <= k <= |members| && UpsertAll(l.members, members[k..]) == all
        invariant l.epoch == epoch && lists == old(lists)
        invariant l.slots == if list in lists then lists[list].slots else map[]
      {
        assert members[k..][0] == members[k] && members[k..][1..] == members[k + 1..];
        l := l.(members := Upsert(l.members, members[k]));
        k := k + 1;
      }
      l := l.(slots := l.slots + keys);
      lists := lists[list := l];
      var rows := LoadKeySlots();
      RowOrderIrrelevant(rows, lists, session.mine);
      session.Rehydrate(rows);
    }

    method DeleteList(list: ListId)
      requires Valid()
      modifies this
      ensures Valid() && View() == Deleted(old(View()), list)
    {
      lists := lists - {list};
    }
  }
}
