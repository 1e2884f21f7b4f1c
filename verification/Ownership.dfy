/** Whole runs of one list's rows with requests by anybody: who can change what
    (todoers-server/src/routes/lists.rs). */
module Ownership {
  import opened Helpers
  import opened Updates
  import opened Keys
  import opened ServerLists

  /** What reaches the server: a registration, a membership request, a deletion. */
  datatype Call =
    | Register(who: MemberId)
    | Ask(caller: MemberId, request: Request)
    | Delete(caller: MemberId)

  datatype Rows = Rows(listing: Option<Listing>, users: set<MemberId>)

  function Next(s: Rows, call: Call): Rows {
    match call
    case Register(who) => s.(users := s.users + {who})
    case Ask(caller, request) =>
      var answer := Handle(s.listing, s.users, caller, request);
      if answer.Ok? then s.(listing := Some(answer.value)) else s
    case Delete(caller) => if IsOwner(s.listing, caller) then s.(listing := None) else s
  }

  ghost predicate Run(ss: seq<Rows>, calls: seq<Call>) {
    && |ss| == |calls| + 1 && ss[0].listing == None
    && forall i | 0 <= i < |calls| :: ss[i + 1] == Next(ss[i], calls[i])
  }

  /** The member's own row says owner. */
  predicate Owns(s: Rows, who: MemberId) {
    s.listing.Some? && who in s.listing.value.members && s.listing.value.members[who] == Owner
  }

  /** Nobody's row does. */
  ghost predicate Ownerless(s: Rows) {
    s.listing.Some? && forall who | who in s.listing.value.members :: s.listing.value.members[who] != Owner
  }

  /** A call of somebody who owns the list when it arrives. */
  predicate ByOwner(s: Rows, call: Call) {
    !call.Register? && Owns(s, call.caller)
  }

  lemma StrangerChangesNothing(s: Rows, call: Call)
    requires s.listing.Some? && !ByOwner(s, call)
    ensures Next(s, call).listing == s.listing
  {
    if call.Ask? {
      AnsweredIff(s.listing, s.users, call.caller, call.request);
    }
  }

  /** However many people send whatever they like: epoch, members, roles and slots
      of a list are the same until one of its owners of that moment changes them. */
  lemma {:induction false} OnlyOwnersChange(ss: seq<Rows>, calls: seq<Call>, i: nat, j: nat)
    requires Run(ss, calls) && i <= j <= |calls| && ss[i].listing.Some?
    requires forall k | i <= k < j :: !ByOwner(ss[k], calls[k])
    ensures ss[j].listing == ss[i].listing
    decreases j - i
  {
    if i < j {
      StrangerChangesNothing(ss[i], calls[i]);
      OnlyOwnersChange(ss, calls, i + 1, j);
    }
  }

  /** So a list that has lost its last owner stays as it is for good. */
  lemma {:induction false} OwnerlessIsFrozen(ss: seq<Rows>, calls: seq<Call>, i: nat, j: nat)
    requires Run(ss, calls) && i <= j <= |calls| && Ownerless(ss[i])
    ensures ss[j].listing == ss[i].listing
    decreases j - i
  {
    if i < j {
      StrangerChangesNothing(ss[i], calls[i]);
      OwnerlessIsFrozen(ss, calls, i + 1, j);
    }
  }

  /** An owner's well-formed request is carried out: the member is there with that role
      and a slot of that epoch, or is gone with every slot and the epoch is the next;
      nobody else's row changes. A deletion leaves nothing. */
  lemma OwnersAreServed(s: Rows, caller: MemberId, request: Request)
    requires Owns(s, caller) && Handle(s.listing, s.users, caller, request).Ok?
    ensures var l, now := s.listing.value, Next(s, Ask(caller, request)).listing;
            && now.Some?
            && match request
               case Create(_) => false
               case Add(id, role, _, epoch) =>
                 && id in now.value.members && now.value.members[id] == role && (epoch, id) in now.value.slots
                 && now.value.members - {id} == l.members - {id} && now.value.epoch == l.epoch
               case Remove(id, epoch, _) =>
                 && id !in now.value.members && (forall e :: (e, id) !in now.value.slots)
                 && now.value.members == l.members - {id} && now.value.epoch == epoch + 1
    ensures Next(s, Delete(caller)).listing == None
  {
    AnsweredIff(s.listing, s.users, caller, request);
    if request.Add? {
      InsertedSlots(s.listing.value.slots, request.epoch, [SlotEntry(request.member, request.wrapped)],
                    (request.epoch, request.member));
      assert [SlotEntry(request.member, request.wrapped)][0].member == request.member;
    }
  }

  /** The call by which somebody became an owner: creating the list, or being added
      as one by an owner of that moment. */
  predicate Makes(s: Rows, call: Call, who: MemberId) {
    call.Ask? &&
    match call.request
    case Create(_) => s.listing.None? && call.caller == who
    case Add(id, role, _, _) => Owns(s, call.caller) && id == who && role == Owner
    case Remove(_, _, _) => false
  }

  lemma NewOwnerWasMade(s: Rows, call: Call, who: MemberId)
    requires Owns(Next(s, call), who)
    ensures Owns(s, who) || Makes(s, call, who)
  {
    if call.Ask? {
      AnsweredIff(s.listing, s.users, call.caller, call.request);
    }
  }

  ghost predicate MadeIn(ss: seq<Rows>, calls: seq<Call>, n: nat, who: MemberId)
    requires |ss| == |calls| + 1
  {
    exists i :: 0 <= i < n <= |calls| && Makes(ss[i], calls[i], who)
  }

  /** Ownership is handed on by owners only: every owner created the list or was
      added as one by somebody who owned it at that moment. */
  lemma {:induction false} OwnersWereMade(ss: seq<Rows>, calls: seq<Call>, n: nat, who: MemberId)
    requires Run(ss, calls) && n <= |calls| && Owns(ss[n], who)
    ensures MadeIn(ss, calls, n, who)
    decreases n
  {
    if n > 0 {
      NewOwnerWasMade(ss[n - 1], calls[n - 1], who);
      if Owns(ss[n - 1], who) {
        OwnersWereMade(ss, calls, n - 1, who);
        var i :| 0 <= i < n - 1 && Makes(ss[i], calls[i], who);
        assert 0 <= i < n && Makes(ss[i], calls[i], who);
      }
    }
  }
}
