/** The signed update envelope (todoers-types/src/lib.rs). */
module Updates {
  import opened TodoDoc

  type ListId = nat
  type MemberId = nat
  type Epoch = int

  /** One produced update. The random nonce is replaced by `ordinal`, the number
      of updates its author produced before it: like the nonce, no author uses
      one twice. The signature covers every field, so it is not a field of its
      own: two updates carry the same signature exactly when they are equal. */
  datatype Update = Update(list: ListId, epoch: Epoch, author: MemberId, ordinal: nat, ops: set<Op>)
}
