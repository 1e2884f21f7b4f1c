/** Members, wrapped list keys and what an owner does with them in memory
    (todoers-client/src/crypto.rs). Sealed boxes are ideal: a box opens for the
    key it was sealed to and for no other. */
module Keys {
  import opened Helpers
  import opened Updates

  type Dek = nat
  type Pub = nat

  datatype Role = Owner | Ordinary

  datatype Member = Member(id: MemberId, identityPub: Pub, role: Role)

  datatype Wrapped = Sealed(dek: Dek, recipient: Pub) | Noise(bytes: seq<int>)

  /** `seal_to` */
  function SealTo(dek: Dek, recipient: Pub): Wrapped {
    Sealed(dek, recipient)
  }

  /** `open_sealed` */
  function OpenSealed(box: Wrapped, mine: Pub): Option<Dek> {
    if box.Sealed? && box.recipient == mine then Some(box.dek) else None
  }

  datatype KeySlot = KeySlot(epoch: Epoch, member: MemberId, wrapped: Wrapped)

  /** One remaining member's copy of a rotated key, as it travels. */
  datatype SlotEntry = SlotEntry(member: MemberId, wrapped: Wrapped)

  datatype Meta = Meta(epoch: Epoch, members: seq<Member>, slots: seq<KeySlot>)

  function Without(members: seq<Member>, id: MemberId): seq<Member> {
    if members == [] then []
    else if members[0].id == id then Without(members[1..], id)
    else [members[0]] + Without(members[1..], id)
  }

  function SlotsWithout(slots: seq<KeySlot>, id: MemberId): seq<KeySlot> {
    if slots == [] then []
    else if slots[0].member == id then SlotsWithout(slots[1..], id)
    else [slots[0]] + SlotsWithout(slots[1..], id)
  }

  /** The key sealed to each member. */
  function SealAll(members: seq<Member>, dek: Dek): seq<SlotEntry> {
    seq(|members|, i requires 0 <= i < |members| =>
      SlotEntry(members[i].id, SealTo(dek, members[i].identityPub)))
  }

  function AtEpoch(entries: seq<SlotEntry>, epoch: Epoch): seq<KeySlot> {
    seq(|entries|, i requires 0 <= i < |entries| => KeySlot(epoch, entries[i].member, entries[i].wrapped))
  }

  /** `add_member` */
  function AddMeta(meta: Meta, added: Member, dek: Dek): Meta {
    Meta(meta.epoch, meta.members + [added],
         meta.slots + [KeySlot(meta.epoch, added.id, SealTo(dek, added.identityPub))])
  }

  /** `remove_member` */
  function RemoveMeta(meta: Meta, removed: MemberId, dek: Dek): Meta {
    var rest := Without(meta.members, removed);
    Meta(meta.epoch + 1, rest, SlotsWithout(meta.slots + AtEpoch(SealAll(rest, dek), meta.epoch + 1), removed))
  }

  lemma {:induction false} WithoutFacts(members: seq<Member>, id: MemberId)
    ensures forall m :: m in Without(members, id) <==> m in members && m.id != id
  {
    if members != [] {
      WithoutFacts(members[1..], id);
      assert members == [members[0]] + members[1..];
    }
  }

  lemma {:induction false} SlotsWithoutFacts(slots: seq<KeySlot>, id: MemberId)
    ensures forall s :: s in SlotsWithout(slots, id) <==> s in slots && s.member != id
  {
    if slots != [] {
      SlotsWithoutFacts(slots[1..], id);
      assert slots == [slots[0]] + slots[1..];
    }
  }

  /** The metadata of one list, as the owner's client edits it. */
  class ListMetadata {
    var epoch: Epoch
    var members: seq<Member>
    var slots: seq<KeySlot>

    constructor (epoch: Epoch, members: seq<Member>, slots: seq<KeySlot>)
      ensures this.epoch == epoch && this.members == members && this.slots == slots
    {
      this.epoch, this.members, this.slots := epoch, members, slots;
    }

    method AddMember(added: Member, dek: Dek)
      modifies this
      ensures Meta(epoch, members, slots) == AddMeta(old(Meta(epoch, members, slots)), added, dek)
    {
      slots := slots + [KeySlot(epoch, added.id, SealTo(dek, added.identityPub))];
      members := members + [added];
    }

    method RemoveMember(removed: MemberId, dek: Dek)
      modifies this
      ensures Meta(epoch, members, slots) == RemoveMeta(old(Meta(epoch, members, slots)), removed, dek)
    {
      members := Without(members, removed);
      epoch := epoch + 1;
      var k := 0;
      var entries := SealAll(members, dek);
      ghost var resealed := AtEpoch(entries, epoch);
      while k < |members|
        invariant 0 <= k <= |members|
        invariant members == old(Without(members, removed)) && epoch == old(epoch) + 1
        invariant slots == old(slots) + resealed[..k]
      {
        slots := slots + [KeySlot(epoch, members[k].id, SealTo(dek, members[k].identityPub))];
        k := k + 1;
      }
      assert resealed[..k] == resealed;
      slots := SlotsWithout(slots, removed);
    }
  }
}
