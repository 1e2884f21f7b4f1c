/** The server's lists, members and key slots (todoers-server/src/db.rs and
    routes/lists.rs). Each handler is one transaction: an error leaves nothing. */
module ServerLists {
  import opened Helpers
  import opened Updates
  import opened Keys

  datatype Error = Forbidden | Duplicate | NoSuchUser | BadRequest | BadEpoch

  /** The rows of one list. */
  datatype Listing = Listing(epoch: Epoch, members: map<MemberId, Role>, slots: map<(Epoch, MemberId), Wrapped>)

  datatype Request =
    | Create(wrapped: Wrapped)
    | Add(member: MemberId, role: Role, wrapped: Wrapped, epoch: Epoch)
    | Remove(member: MemberId, epoch: Epoch, entries: seq<SlotEntry>)

  /** Insert-or-do-nothing for each slot in turn. */
  function InsertSlots(slots: map<(Epoch, MemberId), Wrapped>, epoch: Epoch, entries: seq<SlotEntry>)
    : map<(Epoch, MemberId), Wrapped>
    decreases |entries|
  {
    if entries == [] then slots
    else
      var key := (epoch, entries[0].member);
      InsertSlots(if key in slots then slots else slots[key := entries[0].wrapped], epoch, entries[1..])
  }

  function SlotsOfOthers(slots: map<(Epoch, MemberId), Wrapped>, id: MemberId): map<(Epoch, MemberId), Wrapped> {
    map k | k in slots && k.1 != id :: slots[k]
  }

  predicate IsOwner(l: Option<Listing>, caller: MemberId) {
    l.Some? && caller in l.value.members && l.value.members[caller] == Owner
  }

  /** The first thing that fails when a rotation's slots go in one by one: the
      epoch's CHECK is evaluated with the row, the foreign key after it. */
  function FirstFault(entries: seq<SlotEntry>, removed: MemberId, users: set<MemberId>, epoch: Epoch): Option<Error> {
    if entries == [] then (if epoch < 1 then Some(BadEpoch) else None)
    else if entries[0].member == removed then Some(BadRequest)
    else if epoch < 1 then Some(BadEpoch)
    else if entries[0].member !in users then Some(NoSuchUser)
    else FirstFault(entries[1..], removed, users, epoch)
  }

  lemma {:induction false} FaultFreeIff(entries: seq<SlotEntry>, removed: MemberId, users: set<MemberId>, epoch: Epoch)
    ensures FirstFault(entries, removed, users, epoch) == None
       <==> epoch >= 1 && forall e | e in entries :: e.member != removed && e.member in users
    ensures FirstFault(entries, removed, users, epoch) != Some(Forbidden)
  {
    if entries != [] {
      FaultFreeIff(entries[1..], removed, users, epoch);
      assert entries == [entries[0]] + entries[1..];
    }
  }

  /** What is wrong with one slot, by itself. */
  predicate Faulty(entry: SlotEntry, removed: MemberId, users: set<MemberId>) {
    entry.member == removed || entry.member !in users
  }

  /** Which fault is reported: with a bad epoch, that, unless the very first slot is the
      removed member's; otherwise that of the first faulty slot. */
  lemma {:induction false} FaultIsFirst(entries: seq<SlotEntry>, removed: MemberId, users: set<MemberId>, epoch: Epoch,
                                        k: nat)
    requires k < |entries| && forall i | 0 <= i < k :: !Faulty(entries[i], removed, users)
    ensures epoch < 1 ==>
      FirstFault(entries, removed, users, epoch) == Some(if entries[0].member == removed then BadRequest else BadEpoch)
    ensures epoch >= 1 && Faulty(entries[k], removed, users) ==>
      FirstFault(entries, removed, users, epoch)
        == Some(if entries[k].member == removed then BadRequest else NoSuchUser)
  {
    if k > 0 {
      assert !Faulty(entries[0], removed, users);
      FaultIsFirst(entries[1..], removed, users, epoch, k - 1);
    }
  }

  /** One request by `caller`, against the registered `users`. */
  function Handle(l: Option<Listing>, users: set<MemberId>, caller: MemberId, req: Request): Result<Listing, Error> {
    match req
    case Create(wrapped) =>
      if l.Some? then Err(Duplicate)
      else if caller !in users then Err(NoSuchUser)
      else Ok(Listing(1, map[caller := Owner], map[(1, caller) := wrapped]))
    case Add(id, role, wrapped, epoch) =>
      if !IsOwner(l, caller) then Err(Forbidden)
      else if id !in users then Err(NoSuchUser)
      else if epoch < 1 then Err(BadEpoch)
      else Ok(l.value.(members := l.value.members[id := role],
                       slots := InsertSlots(l.value.slots, epoch, [SlotEntry(id, wrapped)])))
    case Remove(id, epoch, entries) =>
      if !IsOwner(l, caller) then Err(Forbidden)
      else
        match FirstFault(entries, id, users, epoch + 1)
        case Some(fault) => Err(fault)
        case None =>
          Ok(Listing(epoch + 1, l.value.members - {id},
                     SlotsOfOthers(InsertSlots(l.value.slots, epoch + 1, entries), id)))
  }

  /** Who gets which answer, on the rows: only one whose own row says owner changes
      anything, everybody else is forbidden to, and an owner's request goes through
      exactly when it names registered users and an epoch from 1 on and gives the
      removed member no slot. */
  lemma AnsweredIff(l: Option<Listing>, users: set<MemberId>, caller: MemberId, req: Request)
    ensures var owner := l.Some? && caller in l.value.members && l.value.members[caller] == Owner;
            var answer := Handle(l, users, caller, req);
            match req
            case Create(_) => answer.Ok? <==> l.None? && caller in users
            case Add(id, _, _, epoch) =>
              && (answer == Err(Forbidden) <==> !owner)
              && (answer.Ok? <==> owner && id in users && epoch >= 1)
            case Remove(id, epoch, entries) =>
              && (answer == Err(Forbidden) <==> !owner)
              && (answer.Ok? <==>
                   owner && epoch >= 0 && forall e | e in entries :: e.member != id && e.member in users)
  {
    if req.Remove? {
      FaultFreeIff(req.entries, req.member, users, req.epoch + 1);
    }
  }

  lemma {:induction false} InsertedSlots(slots: map<(Epoch, MemberId), Wrapped>, epoch: Epoch, entries: seq<SlotEntry>,
                                         key: (Epoch, MemberId))
    ensures var all := InsertSlots(slots, epoch, entries);
            && (key in all <==>
                 || key in slots
                 || (key.0 == epoch && exists i | 0 <= i < |entries| :: entries[i].member == key.1))
            && (key in slots ==> all[key] == slots[key])
            && (key in all && key !in slots ==> exists i | 0 <= i < |entries| ::
                  entries[i].member == key.1 && entries[i].wrapped == all[key])
    decreases |entries|
  {
    if entries != [] {
      var first := (epoch, entries[0].member);
      var slots' := if first in slots then slots else slots[first := entries[0].wrapped];
      InsertedSlots(slots', epoch, entries[1..], key);
      var all := InsertSlots(slots, epoch, entries);
      forall i | 0 <= i < |entries[1..]|
        ensures entries[1..][i] == entries[i + 1]
      {
      }
      if key in all && key !in slots {
        if key in slots' {
          assert entries[0].member == key.1 && entries[0].wrapped == all[key];
        } else {
          var i :| 0 <= i < |entries[1..]| && entries[1..][i].member == key.1 && entries[1..][i].wrapped == all[key];
          assert entries[i + 1].member == key.1 && entries[i + 1].wrapped == all[key];
        }
      }
      forall i | 0 <= i < |entries| && key == (epoch, entries[i].member)
        ensures key in all
      {
        if i > 0 { assert entries[1..][i - 1].member == key.1; }
      }
    }
  }

  /** The tables, list by list. */
  class Lists {
    var lists: map<ListId, Listing>
    var users: set<MemberId>

    function Of(list: ListId): Option<Listing>
      reads this
    {
      if list in lists then Some(lists[list]) else None
    }

    method CreateList(list: ListId, caller: MemberId, wrapped: Wrapped) returns (r: Result<Listing, Error>)
      modifies this`lists
      ensures r == Handle(old(Of(list)), users, caller, Create(wrapped))
      ensures lists == if r.Ok? then old(lists)[list := r.value] else old(lists)
    {
      if list in lists {
        return Err(Duplicate);
      }
      if caller !in users {
        return Err(NoSuchUser);
      }
      var made := Listing(1, map[caller := Owner], map[(1, caller) := wrapped]);
      lists := lists[list := made];
      r := Ok(made);
    }

    method AddMember(list: ListId, caller: MemberId, id: MemberId, role: Role, wrapped: Wrapped, epoch: Epoch)
      returns (r: Result<Listing, Error>)
      modifies this`lists
      ensures r == Handle(old(Of(list)), users, caller, Add(id, role, wrapped, epoch))
      ensures lists == if r.Ok? then old(lists)[list := r.value] else old(lists)
      ensures r.Ok? ==> old(list in lists && caller in lists[list].members && lists[list].members[caller] == Owner)
      ensures r == Err(Forbidden)
         <==> !old(list in lists && caller in lists[list].members && lists[list].members[caller] == Owner)
    {
      AnsweredIff(Of(list), users, caller, Add(id, role, wrapped, epoch));
      if !IsOwner(Of(list), caller) {
        return Err(Forbidden);
      }
      if id !in users {
        return Err(NoSuchUser);
      }
      if epoch < 1 {
        return Err(BadEpoch);
      }
      var l := lists[list];
      l := l.(members := l.members[id := role]);
      if (epoch, id) !in l.slots {
        l := l.(slots := l.slots[(epoch, id) := wrapped]);
      }
      lists := lists[list := l];
      r := Ok(l);
      assert InsertSlots(old(lists[list].slots), epoch, [SlotEntry(id, wrapped)]) == l.slots;
    }

    method RemoveMember(list: ListId, caller: MemberId, id: MemberId, epoch: Epoch, entries: seq<SlotEntry>)
      returns (r: Result<Listing, Error>)
      modifies this`lists
      ensures r == Handle(old(Of(list)), users, caller, Remove(id, epoch, entries))
      ensures lists == if r.Ok? then old(lists)[list := r.value] else old(lists)
      ensures r.Ok? ==> old(list in lists && caller in lists[list].members && lists[list].members[caller] == Owner)
      ensures r == Err(Forbidden)
         <==> !old(list in lists && caller in lists[list].members && lists[list].members[caller] == Owner)
    {
      AnsweredIff(Of(list), users, caller, Remove(id, epoch, entries));
      if !IsOwner(Of(list), caller) {
        return Err(Forbidden);
      }
      var l := lists[list];
      var slots := l.slots;
      var k := 0;
      while k < |entries|
        invariant 0 <= k <= |entries|
        invariant InsertSlots(l.slots, epoch + 1, entries) == InsertSlots(slots, epoch + 1, entries[k..])
        invariant FirstFault(entries, id, users, epoch + 1) == FirstFault(entries[k..], id, users, epoch + 1)
      {
        assert entries[k..][0] == entries[k] && entries[k..][1..] == entries[k + 1..];
        if entries[k].member == id {
          return Err(BadRequest);
        }
        if epoch + 1 < 1 {
          return Err(BadEpoch);
        }
        if entries[k].member !in users {
          return Err(NoSuchUser);
        }
        if (epoch + 1, entries[k].member) !in slots {
          slots := slots[(epoch + 1, entries[k].member) := entries[k].wrapped];
        }
        k := k + 1;
      }
      if epoch + 1 < 1 {
        return Err(BadEpoch);
      }
      l := Listing(epoch + 1, l.members - {id}, SlotsOfOthers(slots, id));
      lists := lists[list := l];
      r := Ok(l);
    }

    /** Members, slots, updates and snapshot go with the list. */
    method DeleteList(list: ListId, caller: MemberId) returns (r: Result<(), Error>)
      modifies this`lists
      ensures r == if old(list in lists && caller in lists[list].members && lists[list].members[caller] == Owner)
                   then Ok(()) else Err(Forbidden)
      ensures lists == if r.Ok? then old(lists) - {list} else old(lists)
    {
      if !IsOwner(Of(list), caller) {
        return Err(Forbidden);
      }
      lists := lists - {list};
      r := Ok(());
    }
  }
}
