/** The canonical byte layouts that are encrypted against and signed, and an update's
    way from its author to a reader (todoers-types/src/lib.rs:786-836,
    todoers-client/src/crypto.rs:28-107). */
module Wire {
  import opened Helpers

  type Bytes = seq<Byte>
  type Id = s: Bytes | |s| == 16 witness seq(16, _ => 0)
  type Nonce = s: Bytes | |s| == 24 witness seq(24, _ => 0)

  /** A signed 64-bit epoch. */
  type Epoch = e: int | -0x8000_0000_0000_0000 <= e < 0x8000_0000_0000_0000

  const UPDATE_VERSION: Byte := 1

  /** "todoers:device-challenge:v1" */
  const DOMAIN: Bytes := [116, 111, 100, 111, 101, 114, 115, 58, 100, 101, 118, 105, 99, 101, 45,
                          99, 104, 97, 108, 108, 101, 110, 103, 101, 58, 118, 49]

  // ── little-endian integers ────────────────────────────────────────────────

  function Pow256(n: nat): (p: nat)
    ensures p > 0
  {
    if n == 0 then 1 else 256 * Pow256(n - 1)
  }

  function LittleEndian(v: nat, width: nat): (s: Bytes)
    ensures |s| == width
  {
    if width == 0 then [] else [v % 256] + LittleEndian(v / 256, width - 1)
  }

  function FromLittleEndian(s: Bytes): nat {
    if s == [] then 0 else s[0] + 256 * FromLittleEndian(s[1..])
  }

  lemma {:induction false} LittleEndianReads(v: nat, width: nat)
    requires v < Pow256(width)
    ensures FromLittleEndian(LittleEndian(v, width)) == v
    decreases width
  {
    if width > 0 {
      LittleEndianReads(v / 256, width - 1);
      assert LittleEndian(v, width)[1..] == LittleEndian(v / 256, width - 1);
    }
  }

  lemma LowByte(b: Byte, rest: nat)
    ensures (b + 256 * rest) % 256 == b && (b + 256 * rest) / 256 == rest
  {
  }

  lemma {:induction false} LittleEndianWrites(s: Bytes)
    ensures FromLittleEndian(s) < Pow256(|s|)
    ensures LittleEndian(FromLittleEndian(s), |s|) == s
  {
    if s != [] {
      LittleEndianWrites(s[1..]);
      LowByte(s[0], FromLittleEndian(s[1..]));
      assert s == [s[0]] + s[1..];
    }
  }

  const TWO_64: int := 0x1_0000_0000_0000_0000

  /** `to_le_bytes` of the two's complement. */
  function EpochBytes(e: Epoch): (s: Bytes)
    ensures |s| == 8
  {
    LittleEndian(if e < 0 then e + TWO_64 else e, 8)
  }

  function ReadEpoch(s: Bytes): Epoch
    requires |s| == 8
  {
    LittleEndianWrites(s);
    EightBytes();
    var v := FromLittleEndian(s);
    if v < TWO_64 / 2 then v else v - TWO_64
  }

  lemma EightBytes()
    ensures Pow256(8) == TWO_64
  {
    assert Pow256(2) == 0x1_0000 && Pow256(4) == 0x1_0000_0000;
    assert Pow256(6) == 0x1_0000_0000_0000;
  }

  lemma EpochReads(e: Epoch)
    ensures ReadEpoch(EpochBytes(e)) == e
  {
    EightBytes();
    LittleEndianReads(if e < 0 then e + TWO_64 else e, 8);
  }

  lemma EpochWrites(s: Bytes)
    requires |s| == 8
    ensures EpochBytes(ReadEpoch(s)) == s
  {
    EightBytes();
    LittleEndianWrites(s);
  }

  // ── the views ─────────────────────────────────────────────────────────────

  /** What an update's signature covers. */
  datatype Envelope = Envelope(version: Byte, list: Id, epoch: Epoch, author: Id, nonce: Nonce, ciphertext: Bytes)

  function Aad(version: Byte, list: Id, epoch: Epoch, author: Id, nonce: Nonce): (v: Bytes)
    ensures |v| == 65
  {
    [version] + list + EpochBytes(epoch) + author + nonce
  }

  function SigningView(e: Envelope): Bytes {
    Aad(e.version, e.list, e.epoch, e.author, e.nonce) + e.ciphertext
  }

  function ChallengeView(version: Byte, member: Id, device: Id, nonce: Nonce): (v: Bytes)
    ensures |v| == 84
  {
    DOMAIN + [version] + member + device + nonce
  }

  /** The envelope a byte string would be the view of. */
  function ReadView(v: Bytes): Envelope
    requires |v| >= 65
  {
    Envelope(v[0], v[1..17], ReadEpoch(v[17..25]), v[25..41], v[41..65], v[65..])
  }

  lemma ViewReads(e: Envelope)
    ensures ReadView(SigningView(e)) == e
  {
    var v := SigningView(e);
    EpochReads(e.epoch);
    assert v[0] == e.version && v[1..17] == e.list && v[17..25] == EpochBytes(e.epoch);
    assert v[25..41] == e.author && v[41..65] == e.nonce && v[65..] == e.ciphertext;
  }

  lemma ViewWrites(v: Bytes)
    requires |v| >= 65
    ensures SigningView(ReadView(v)) == v
  {
    EpochWrites(v[17..25]);
    assert [v[0]] + v[1..17] + v[17..25] + v[25..41] + v[41..65] + v[65..] == v;
  }

  /** The signed view fixes every one of the six fields. */
  lemma SigningViewInjective(a: Envelope, b: Envelope)
    requires SigningView(a) == SigningView(b)
    ensures a == b
  {
    ViewReads(a);
    ViewReads(b);
  }

  /** A device challenge is the view of some update of a version exactly when that
      version is 116, the letter the domain starts with; with the version in use
      the two can never be confused. */
  lemma ChallengeIsAnUpdateViewIff(version: Byte, c: Byte, member: Id, device: Id, nonce: Nonce)
    ensures (exists e: Envelope :: e.version == version && SigningView(e) == ChallengeView(c, member, device, nonce))
       <==> version == 116
    ensures forall e: Envelope | e.version == UPDATE_VERSION :: SigningView(e) != ChallengeView(c, member,
        device, nonce)
  {
    var v := ChallengeView(c, member, device, nonce);
    assert v[0] == 116;
    ViewWrites(v);
    var e := ReadView(v);
    assert e.version == 116 && SigningView(e) == v;
    forall e: Envelope | SigningView(e) == v
      ensures e.version == 116
    {
      assert SigningView(e)[0] == e.version;
    }
  }

  lemma DomainIs()
    ensures |DOMAIN| == 27 && forall i | 0 <= i < 27 :: DOMAIN[i] == "todoers:device-challenge:v1"[i] as int
  {
  }

  /** The challenge's fields, each in its place: a signature over one fits no other
      member, device or nonce. */
  lemma ChallengeViewReads(version: Byte, member: Id, device: Id, nonce: Nonce)
    ensures var v := ChallengeView(version, member, device, nonce);
            && (forall i | 0 <= i < 27 :: v[i] == "todoers:device-challenge:v1"[i] as int)
            && v[27] == version && v[28..44] == member && v[44..60] == device && v[60..] == nonce
  {
    var v := ChallengeView(version, member, device, nonce);
    DomainIs();
    assert v == DOMAIN + ([version] + (member + (device + nonce)));
    assert v[28..] == member + (device + nonce);
    assert v[44..] == device + nonce;
  }

  lemma ChallengeViewInjective(a: Byte, m: Id, d: Id, n: Nonce, b: Byte, other: Id, device: Id, nonce: Nonce)
    requires ChallengeView(a, m, d, n) == ChallengeView(b, other, device, nonce)
    ensures a == b && m == other && d == device && n == nonce
  {
    ChallengeViewReads(a, m, d, n);
    ChallengeViewReads(b, other, device, nonce);
  }

  /** The two builders, field after field. */
  method BuildSigningView(version: Byte, list: Id, epoch: Epoch, author: Id, nonce: Nonce, ciphertext: Bytes)
    returns (v: Bytes)
    ensures |v| >= 65 && ReadView(v) == Envelope(version, list, epoch, author, nonce, ciphertext)
  {
    v := [version];
    v := v + list;
    v := v + EpochBytes(epoch);
    v := v + author;
    v := v + nonce;
    v := v + ciphertext;
    assert v == SigningView(Envelope(version, list, epoch, author, nonce, ciphertext));
    ViewReads(Envelope(version, list, epoch, author, nonce, ciphertext));
  }

  // ── an update's way ───────────────────────────────────────────────────────

  type Dek = nat
  type Secret = nat
  type Pub = nat
  type Sig = nat

  /** The cipher and the signature scheme, unknown inside. */
  datatype Scheme = Scheme(
    encrypt: (Dek, Nonce, Bytes, Bytes) -> Bytes,
    decrypt: (Dek, Nonce, Bytes, Bytes) -> Option<Bytes>,
    publicOf: Secret -> Pub,
    sign: (Secret, Bytes) -> Sig,
    verify: (Pub, Bytes, Sig) -> bool)

  /** What is asked of them: decryption undoes encryption under the same key, nonce
      and associated data, and a signature verifies for the bytes it was made over
      and for no others. */
  ghost predicate Correct(s: Scheme) {
    && (forall k: Dek, n: Nonce, a: Bytes, m: Bytes :: s.decrypt(k, n, a, s.encrypt(k, n, a, m)) == Some(m))
    && (forall sk: Secret, v: Bytes, w: Bytes :: s.verify(s.publicOf(sk), v, s.sign(sk, w)) <==> v == w)
  }

  datatype Payload = Payload(envelope: Envelope, signature: Sig)

  /** A row of the log. */
  datatype Stored = Stored(seqno: nat, epoch: Epoch, author: Id, nonce: Nonce, ciphertext: Bytes, signature: Sig)

  datatype Error = WrongList | BadSignature | AeadFailed

  function ProduceUpdate(s: Scheme, version: Byte, list: Id, epoch: Epoch, author: Id, dek: Dek, secret: Secret,
                         nonce: Nonce, update: Bytes): Payload {
    var ciphertext := s.encrypt(dek, nonce, Aad(version, list, epoch, author, nonce), update);
    var e := Envelope(version, list, epoch, author, nonce, ciphertext);
    Payload(e, s.sign(secret, SigningView(e)))
  }

  datatype Refusal = Unauthorized | InvalidSignature | BadEpoch

  /** `append_update` with verification on: only the caller's own updates, only
      correctly signed ones; somebody who is not a member of the list has no key. The
      version is checked against and then not stored; the table checks the epoch. */
  function Append(s: Scheme, caller: Id, callerKey: Option<Pub>, p: Payload, seqno: nat): Result<Stored, Refusal> {
    var e := p.envelope;
    if e.author != caller then Err(Unauthorized)
    else if callerKey.None? || !s.verify(callerKey.value, SigningView(e), p.signature) then Err(InvalidSignature)
    else if e.epoch < 1 then Err(BadEpoch)
    else Ok(Stored(seqno, e.epoch, e.author, e.nonce, e.ciphertext, p.signature))
  }

  /** The reader fills the version in. */
  function Rebuild(row: Stored, list: Id): Payload {
    Payload(Envelope(UPDATE_VERSION, list, row.epoch, row.author, row.nonce, row.ciphertext), row.signature)
  }

  function VerifyAndDecrypt(s: Scheme, p: Payload, expected: Id, authorKey: Pub, dek: Dek): Result<Bytes, Error> {
    var e := p.envelope;
    if e.list != expected then Err(WrongList)
    else if !s.verify(authorKey, SigningView(e), p.signature) then Err(BadSignature)
    else
      match s.decrypt(dek, e.nonce, Aad(e.version, e.list, e.epoch, e.author, e.nonce), e.ciphertext)
      case Some(update) => Ok(update)
      case None => Err(AeadFailed)
  }

  /** From the author through the log to any reader who holds that epoch's key: the
      server takes the update whatever its version, if its epoch is one, and the
      reader gets the original bytes exactly when the version was the one in use. */
  lemma DeliveredIff(s: Scheme, version: Byte, list: Id, epoch: Epoch, author: Id, dek: Dek, secret: Secret,
                     nonce: Nonce, update: Bytes, seqno: nat)
    requires Correct(s)
    ensures var p := ProduceUpdate(s, version, list, epoch, author, dek, secret, nonce, update);
            && var row := Append(s, author, Some(s.publicOf(secret)), p, seqno);
            && (row.Ok? <==> epoch >= 1)
            && (row.Ok? ==>
                 (VerifyAndDecrypt(s, Rebuild(row.value, list), list, s.publicOf(secret), dek) == Ok(update)
                  <==> version == 1))
  {
    if epoch >= 1 {
      var p := ProduceUpdate(s, version, list, epoch, author, dek, secret, nonce, update);
      var rebuilt := Rebuild(Append(s, author, Some(s.publicOf(secret)), p, seqno).value, list).envelope;
      if version != UPDATE_VERSION && SigningView(rebuilt) == SigningView(p.envelope) {
        SigningViewInjective(rebuilt, p.envelope);
      }
    }
  }

  /** The server stores exactly a member's own envelopes, all six fields as that
      member signed them: not somebody else's, not with a changed field, and nothing
      of somebody who is no member. */
  lemma OnlyOwnIsStored(s: Scheme, signed: Envelope, secret: Secret, caller: Id, member: bool, e: Envelope, seqno: nat)
    requires Correct(s)
    ensures var key := if member then Some(s.publicOf(secret)) else None;
            var answer := Append(s, caller, key, Payload(e, s.sign(secret, SigningView(signed))), seqno);
            && (answer == Err(Unauthorized) <==> e.author != caller)
            && (answer == Err(InvalidSignature) <==> e.author == caller && (!member || e != signed))
            && (answer.Ok? <==> member && signed == e && e.author == caller && e.epoch >= 1)
            && (answer.Ok? ==> answer.value == Stored(seqno, signed.epoch, caller, signed.nonce, signed.ciphertext,
                                                      s.sign(secret, SigningView(signed))))
  {
    if SigningView(e) == SigningView(signed) {
      SigningViewInjective(e, signed);
    }
  }

  /** What a reader with the key makes of a produced update that may have been changed
      on the way, in any of its fields or by going to another list. */
  lemma ReadsWhatWasProduced(s: Scheme, version: Byte, list: Id, epoch: Epoch, author: Id, dek: Dek, secret: Secret,
                             nonce: Nonce, update: Bytes, e: Envelope, expected: Id)
    requires Correct(s)
    ensures var p := ProduceUpdate(s, version, list, epoch, author, dek, secret, nonce, update);
            var answer := VerifyAndDecrypt(s, Payload(e, p.signature), expected, s.publicOf(secret), dek);
            && (answer == Err(WrongList) <==> e.list != expected)
            && (answer == Err(BadSignature) <==> e.list == expected && e != p.envelope)
            && (answer == Ok(update) <==> list == expected && e == p.envelope)
  {
    var p := ProduceUpdate(s, version, list, epoch, author, dek, secret, nonce, update);
    if SigningView(e) == SigningView(p.envelope) {
      SigningViewInjective(e, p.envelope);
    }
  }

  /** A row under an author's signature passes a reader's check exactly when the
      list it is read into and every stored field are the ones signed, and the
      signed version was the one in use. */
  lemma OnlyWhatWasSignedPasses(s: Scheme, signed: Envelope, secret: Secret, row: Stored, list: Id, dek: Dek)
    requires Correct(s) && row.signature == s.sign(secret, SigningView(signed))
    ensures VerifyAndDecrypt(s, Rebuild(row, list), list, s.publicOf(secret), dek) != Err(BadSignature)
       <==> signed == Envelope(UPDATE_VERSION, list, row.epoch, row.author, row.nonce, row.ciphertext)
  {
    var e := Rebuild(row, list).envelope;
    if SigningView(e) == SigningView(signed) {
      SigningViewInjective(e, signed);
    }
  }
}
