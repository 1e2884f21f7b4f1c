/** Recovery keys: the base32 encoder with its 32-bit accumulator, and what makes
    a retyped key the same key (todoers-client/src/sqlcipher.rs:370-414). */
module Base32 {
  import opened Helpers

  type Alphabet = s: string | |s| == 32 witness seq(32, _ => '0')

  const CROCKFORD: Alphabet := "0123456789ABCDEFGHJKMNPQRSTVWXYZ"

  // ── bits ──────────────────────────────────────────────────────────────────

  function Pow2(n: nat): (p: nat)
    ensures p > 0
  {
    if n == 0 then 1 else 2 * Pow2(n - 1)
  }

  /** The low `width` bits, most significant first. */
  function Bits(v: nat, width: nat): (bits: seq<bool>)
    ensures |bits| == width
  {
    if width == 0 then [] else Bits(v / 2, width - 1) + [v % 2 == 1]
  }

  function Value(bits: seq<bool>): nat {
    if bits == [] then 0 else 2 * Value(bits[..|bits| - 1]) + if bits[|bits| - 1] then 1 else 0
  }

  function BitString(bytes: seq<Byte>): (bits: seq<bool>)
    ensures |bits| == 8 * |bytes|
  {
    if bytes == [] then [] else BitString(bytes[..|bytes| - 1]) + Bits(bytes[|bytes| - 1], 8)
  }

  lemma {:induction false} ValueBound(bits: seq<bool>)
    ensures Value(bits) < Pow2(|bits|)
  {
    if bits != [] {
      ValueBound(bits[..|bits| - 1]);
    }
  }

  lemma Doubled(x: nat, y: nat)
    ensures 2 * (x * y) == x * (2 * y)
  {
  }

  lemma {:induction false} ValueConcat(a: seq<bool>, b: seq<bool>)
    ensures Value(a + b) == Value(a) * Pow2(|b|) + Value(b)
  {
    if b == [] {
      assert a + b == a;
    } else {
      var n := |b| - 1;
      var last := if b[n] then 1 else 0;
      ValueConcat(a, b[..n]);
      assert (a + b)[..|a + b| - 1] == a + b[..n] && (a + b)[|a + b| - 1] == b[n];
      calc {
        Value(a + b);
        2 * Value(a + b[..n]) + last;
        2 * (Value(a) * Pow2(n) + Value(b[..n])) + last;
        { Doubled(Value(a), Pow2(n)); }
        Value(a) * Pow2(n + 1) + (2 * Value(b[..n]) + last);
      }
    }
  }

  lemma {:induction false} ValueOfBits(v: nat, width: nat)
    requires v < Pow2(width)
    ensures Value(Bits(v, width)) == v
  {
    if width > 0 {
      ValueOfBits(v / 2, width - 1);
      assert Bits(v, width)[..width - 1] == Bits(v / 2, width - 1);
    }
  }

  lemma {:induction false} BitsOfValue(bits: seq<bool>)
    ensures Bits(Value(bits), |bits|) == bits
  {
    if bits != [] {
      BitsOfValue(bits[..|bits| - 1]);
    }
  }

  lemma {:induction false} ValueZeros(n: nat)
    ensures Value(Repeat(false, n)) == 0
  {
    if n > 0 {
      ValueZeros(n - 1);
      assert Repeat(false, n)[..n - 1] == Repeat(false, n - 1);
    }
  }

  // ── the encoding, as section 6 of RFC 4648 states it ──────────────────────

  /** Five bits to a letter; a last short group is filled up with zeros. */
  function Letters(alphabet: Alphabet, bits: seq<bool>): (s: string)
    decreases |bits|
  {
    if bits == [] then ""
    else if |bits| < 5 then Letter(alphabet, bits + Repeat(false, 5 - |bits|))
    else Letter(alphabet, bits[..5]) + Letters(alphabet, bits[5..])
  }

  function Letter(alphabet: Alphabet, group: seq<bool>): (s: string)
    requires |group| == 5
    ensures |s| == 1
  {
    ValueBound(group);
    assert Pow2(5) == 32;
    [alphabet[Value(group)]]
  }

  function Encoded(bytes: seq<Byte>): string {
    Letters(CROCKFORD, BitString(bytes))
  }

  lemma LettersHead(alphabet: Alphabet, bits: seq<bool>)
    requires |bits| >= 5
    ensures Letters(alphabet, bits) == Letter(alphabet, bits[..5]) + Letters(alphabet, bits[5..])
  {
  }

  lemma Associate(a: string, b: string, c: string)
    ensures (a + b) + c == a + (b + c)
  {
  }

  lemma {:induction false} LettersConcat(alphabet: Alphabet, a: seq<bool>, b: seq<bool>)
    requires |a| % 5 == 0
    ensures Letters(alphabet, a + b) == Letters(alphabet, a) + Letters(alphabet, b)
    decreases |a|
  {
    if a == [] {
      assert a + b == b;
    } else {
      LettersConcat(alphabet, a[5..], b);
      assert (a + b)[..5] == a[..5];
      assert (a + b)[5..] == a[5..] + b;
      LettersHead(alphabet, a);
      LettersHead(alphabet, a + b);
      Associate(Letter(alphabet, a[..5]), Letters(alphabet, a[5..]), Letters(alphabet, b));
    }
  }

  /** `ceil(8n / 5)` letters. */
  lemma {:induction false} LettersLength(alphabet: Alphabet, bits: seq<bool>)
    ensures |Letters(alphabet, bits)| == (|bits| + 4) / 5
    decreases |bits|
  {
    if |bits| >= 5 {
      LettersLength(alphabet, bits[5..]);
    }
  }

  // ── the 32-bit arithmetic ─────────────────────────────────────────────────

  const WORD: nat := 0x1_0000_0000

  /** `acc << n`: bits pushed past the top are lost. */
  function Shl(acc: nat, n: nat): nat
    decreases n, acc
  {
    if n == 0 then acc else Shl(2 * acc % WORD, n - 1)
  }

  /** `acc >> n` */
  function Shr(acc: nat, n: nat): nat
    decreases n, acc
  {
    if n == 0 then acc else Shr(acc / 2, n - 1)
  }

  lemma {:induction false} ShlIs(acc: nat, n: nat)
    requires acc < WORD
    ensures Shl(acc, n) == acc * Pow2(n) % WORD
    decreases n
  {
    if n > 0 {
      ShlIs(2 * acc % WORD, n - 1);
      ShlOnce(acc, Pow2(n - 1));
    }
  }

  lemma ShlOnce(acc: nat, p: nat)
    ensures (2 * acc % WORD) * p % WORD == acc * (2 * p) % WORD
  {
    var k, m := 2 * acc / WORD, 2 * acc % WORD;
    var j, r := m * p / WORD, m * p % WORD;
    assert 2 * acc == k * WORD + m && m * p == j * WORD + r;
    calc {
      acc * (2 * p);
      (k * WORD + m) * p;
      k * p * WORD + m * p;
      (k * p + j) * WORD + r;
    }
    Remainder(acc * (2 * p), WORD, k * p + j, r);
  }

  lemma HalfThen(acc: nat, p: nat)
    requires p > 0
    ensures acc / 2 / p == acc / (2 * p)
  {
    var half := acc / 2;
    var q, r := half / p, half % p;
    assert half == q * p + r;
    assert q * (2 * p) == 2 * (q * p);
    Remainder(acc, 2 * p, q, 2 * r + acc % 2);
  }

  lemma {:induction false} ShrIs(acc: nat, n: nat)
    ensures Shr(acc, n) == acc / Pow2(n)
    decreases n
  {
    if n > 0 {
      ShrIs(acc / 2, n - 1);
      HalfThen(acc, Pow2(n - 1));
    }
  }

  lemma Powers()
    ensures Pow2(0) == 1 && Pow2(1) == 2 && Pow2(2) == 4 && Pow2(3) == 8 && Pow2(4) == 16
    ensures Pow2(5) == 32 && Pow2(6) == 64 && Pow2(7) == 128 && Pow2(8) == 256
    ensures Pow2(9) == 512 && Pow2(10) == 1024 && Pow2(11) == 2048 && Pow2(12) == 4096
  {
    assert Pow2(6) == 2 * Pow2(5) && Pow2(9) == 2 * Pow2(8);
  }

  lemma MulAtLeast(k: int, m: nat)
    ensures k >= 1 ==> k * m >= m
  {
    if k >= 1 {
      assert k * m == m + (k - 1) * m;
    }
  }

  lemma NoSmallMultiple(k: int, m: nat, d: int)
    requires k * m == d && 0 < d + m && d < m
    ensures k == 0
  {
    MulAtLeast(k, m);
    MulAtLeast(-k, m);
    assert (-k) * m == -d;
  }

  lemma Remainder(x: int, m: nat, q: int, r: nat)
    requires x == q * m + r && r < m
    ensures x % m == r && x / m == q
  {
    var q' := x / m;
    assert x == q' * m + x % m;
    assert (q - q') * m == q * m - q' * m;
    NoSmallMultiple(q - q', m, x % m - r);
  }

  /** A new byte enters below the pending bits, whatever falls off the top. */
  lemma ShiftIn(acc: nat, bits: nat, b: Byte)
    requires bits < 5 && acc < WORD
    ensures (Shl(acc, 8) + b) % Pow2(bits + 8) == acc % Pow2(bits) * 256 + b
  {
    Powers();
    ShlIs(acc, 8);
    var lost := acc * 256 / WORD;
    var next := acc * 256 - WORD * lost + b;
    assert Shl(acc, 8) + b == next;
    if bits == 0 {
      Remainder(next, 256, acc - 0x100_0000 * lost, b);
    } else if bits == 1 {
      Remainder(next, 512, acc / 2 - 0x80_0000 * lost, acc % 2 * 256 + b);
    } else if bits == 2 {
      Remainder(next, 1024, acc / 4 - 0x40_0000 * lost, acc % 4 * 256 + b);
    } else if bits == 3 {
      Remainder(next, 2048, acc / 8 - 0x20_0000 * lost, acc % 8 * 256 + b);
    } else {
      Remainder(next, 4096, acc / 16 - 0x10_0000 * lost, acc % 16 * 256 + b);
    }
  }

  /** Five pending bits and more: the top five come out at the shift. */
  lemma ShiftOut(acc: nat, bits: nat)
    requires 5 <= bits <= 12
    ensures Shr(acc, bits - 5) % 32 == acc % Pow2(bits) / Pow2(bits - 5)
    ensures acc % Pow2(bits) % Pow2(bits - 5) == acc % Pow2(bits - 5)
  {
    Powers();
    ShrIs(acc, bits - 5);
    var low := Pow2(bits - 5);
    assert Pow2(bits) == 32 * low;
    var v := acc % (32 * low);
    Split(acc, low);
  }

  lemma Distribute(q: int, h: int, low: int)
    ensures (q * 32 + h) * low == q * (32 * low) + h * low
  {
    assert (q * 32) * low == q * (32 * low);
  }

  lemma FitsInFive(h: int, l: nat, low: nat)
    requires l < low && 0 <= h * low + l < 32 * low
    ensures 0 <= h < 32
  {
    MulAtLeast(h - 31, low);
    assert (h - 31) * low == h * low - 31 * low;
    MulAtLeast(-h, low);
    assert (-h) * low == -(h * low);
  }

  lemma Split(acc: nat, low: nat)
    requires low > 0
    ensures acc / low % 32 == acc % (32 * low) / low
    ensures acc % (32 * low) % low == acc % low
  {
    var q, v := acc / (32 * low), acc % (32 * low);
    var h: int, l := v / low, v % low;
    assert acc == q * (32 * low) + v && v == h * low + l;
    Distribute(q, h, low);
    Remainder(acc, low, q * 32 + h, l);
    FitsInFive(h, l, low);
    Remainder(q * 32 + h, 32, q, h);
  }

  lemma LastGroup(acc: nat, bits: nat)
    requires 0 < bits < 5 && acc < WORD
    ensures Shl(acc, 5 - bits) % 32 == acc % Pow2(bits) * Pow2(5 - bits)
  {
    Powers();
    ShlIs(acc, 5 - bits);
    if bits == 1 {
      Remainder(acc * 16 - WORD * (acc * 16 / WORD), 32, acc / 2 - WORD / 32 * (acc * 16 / WORD), acc % 2 * 16);
    } else if bits == 2 {
      Remainder(acc * 8 - WORD * (acc * 8 / WORD), 32, acc / 4 - WORD / 32 * (acc * 8 / WORD), acc % 4 * 8);
    } else if bits == 3 {
      Remainder(acc * 4 - WORD * (acc * 4 / WORD), 32, acc / 8 - WORD / 32 * (acc * 4 / WORD), acc % 8 * 4);
    } else {
      Remainder(acc * 2 - WORD * (acc * 2 / WORD), 32, acc / 16 - WORD / 32 * (acc * 2 / WORD), acc % 16 * 2);
    }
  }

  /** After the bits `seen`, all but the last `bits` are letters already; those
      are the low bits of `acc`. */
  ghost predicate Encoding(alphabet: Alphabet, seen: seq<bool>, acc: nat, bits: nat, out: string) {
    && bits <= |seen| && (|seen| - bits) % 5 == 0
    && acc < WORD && Value(seen[|seen| - bits..]) == acc % Pow2(bits)
    && out == Letters(alphabet, seen[..|seen| - bits])
  }

  lemma LowByteEmpty(acc: nat)
    ensures acc * 256 % WORD <= WORD - 256
  {
    var lost := acc * 256 / WORD;
    assert acc * 256 - WORD * lost == 256 * (acc - 0x100_0000 * lost);
  }

  lemma TopFits(acc: nat, b: Byte)
    requires acc < WORD
    ensures Shl(acc, 8) + b < WORD
  {
    assert Pow2(8) == 256 by { Powers(); }
    ShlIs(acc, 8);
    LowByteEmpty(acc);
  }

  lemma ByteValue(tail: seq<bool>, acc: nat, b: Byte)
    requires |tail| < 5 && acc < WORD && Value(tail) == acc % Pow2(|tail|)
    ensures Value(tail + Bits(b, 8)) == (Shl(acc, 8) + b) % Pow2(|tail| + 8)
  {
    ShiftIn(acc, |tail|, b);
    Powers();
    ValueConcat(tail, Bits(b, 8));
    ValueOfBits(b, 8);
  }

  lemma Extend(alphabet: Alphabet, seen: seq<bool>, acc: nat, bits: nat, out: string, more: seq<bool>, next: nat)
    requires Encoding(alphabet, seen, acc, bits, out) && next < WORD
    requires |more| == 8 && Value(seen[|seen| - bits..] + more) == next % Pow2(bits + 8)
    ensures Encoding(alphabet, seen + more, next, bits + 8, out)
  {
    var all := seen + more;
    assert all[|all| - (bits + 8)..] == seen[|seen| - bits..] + more;
    assert all[..|all| - (bits + 8)] == seen[..|seen| - bits];
  }

  lemma EncodeByte(alphabet: Alphabet, seen: seq<bool>, acc: nat, bits: nat, out: string, b: Byte)
    requires Encoding(alphabet, seen, acc, bits, out) && bits < 5
    ensures Encoding(alphabet, seen + Bits(b, 8), Shl(acc, 8) + b, bits + 8, out)
  {
    ByteValue(seen[|seen| - bits..], acc, b);
    TopFits(acc, b);
    Extend(alphabet, seen, acc, bits, out, Bits(b, 8), Shl(acc, 8) + b);
  }

  lemma LetterValue(group: seq<bool>, rest: seq<bool>, acc: nat)
    requires |group| == 5 && |rest| <= 7 && Value(group + rest) == acc % Pow2(5 + |rest|)
    ensures Value(group) == Shr(acc, |rest|) % 32 && Value(rest) == acc % Pow2(|rest|)
  {
    ValueConcat(group, rest);
    ValueBound(rest);
    ShiftOut(acc, 5 + |rest|);
    Remainder(acc % Pow2(5 + |rest|), Pow2(|rest|), Value(group), Value(rest));
  }

  lemma OneMoreGroup(alphabet: Alphabet, seen: seq<bool>, cut: nat, digit: nat)
    requires cut + 5 <= |seen| && cut % 5 == 0 && digit < 32 && digit == Value(seen[cut..cut + 5])
    ensures Letters(alphabet, seen[..cut + 5]) == Letters(alphabet, seen[..cut]) + [alphabet[digit]]
  {
    var group := seen[cut..cut + 5];
    assert seen[..cut + 5] == seen[..cut] + group;
    LettersConcat(alphabet, seen[..cut], group);
    assert group[..5] == group && group[5..] == [];
  }

  lemma EncodeLetter(alphabet: Alphabet, seen: seq<bool>, acc: nat, bits: nat, out: string)
    requires Encoding(alphabet, seen, acc, bits, out) && 5 <= bits <= 12
    ensures Encoding(alphabet, seen, acc, bits - 5, out + [alphabet[Shr(acc, bits - 5) % 32]])
  {
    var cut := |seen| - bits;
    assert seen[cut..] == seen[cut..cut + 5] + seen[cut + 5..];
    LetterValue(seen[cut..cut + 5], seen[cut + 5..], acc);
    OneMoreGroup(alphabet, seen, cut, Shr(acc, bits - 5) % 32);
  }

  lemma LastValue(tail: seq<bool>, acc: nat)
    requires 0 < |tail| < 5 && acc < WORD && Value(tail) == acc % Pow2(|tail|)
    ensures Value(tail + Repeat(false, 5 - |tail|)) == Shl(acc, 5 - |tail|) % 32
  {
    LastGroup(acc, |tail|);
    ValueConcat(tail, Repeat(false, 5 - |tail|));
    ValueZeros(5 - |tail|);
  }

  lemma EncodeLast(alphabet: Alphabet, seen: seq<bool>, acc: nat, bits: nat, out: string)
    requires Encoding(alphabet, seen, acc, bits, out) && bits < 5
    ensures Letters(alphabet, seen) == if bits > 0 then out + [alphabet[Shl(acc, 5 - bits) % 32]] else out
  {
    var head, tail := seen[..|seen| - bits], seen[|seen| - bits..];
    assert seen == head + tail;
    if bits > 0 {
      LastValue(tail, acc);
      LettersConcat(alphabet, head, tail);
    } else {
      assert head == seen;
    }
  }

  lemma BitStringOneMore(bytes: seq<Byte>, k: nat)
    requires k < |bytes|
    ensures BitString(bytes[..k + 1]) == BitString(bytes[..k]) + Bits(bytes[k], 8)
  {
    assert bytes[..k + 1][..k] == bytes[..k];
  }

  /** One byte into the accumulator, and out of it while five bits are there. */
  method EncodeOne(alphabet: Alphabet, ghost seen: seq<bool>, before: nat, pending: nat, done: string, b: Byte)
    returns (acc: nat, bits: nat, out: string)
    requires pending < 5 && Encoding(alphabet, seen, before, pending, done)
    ensures bits < 5 && Encoding(alphabet, seen + Bits(b, 8), acc, bits, out)
  {
    EncodeByte(alphabet, seen, before, pending, done, b);
    acc, bits, out := Shl(before, 8) + b, pending + 8, done;
    while bits >= 5
      invariant bits <= 12 && Encoding(alphabet, seen + Bits(b, 8), acc, bits, out)
    {
      EncodeLetter(alphabet, seen + Bits(b, 8), acc, bits, out);
      bits := bits - 5;
      out := out + [alphabet[Shr(acc, bits) % 32]];
    }
  }

  /** The encoder, over a 32-bit accumulator that overflows after four bytes. */
  method Base32Encode(bytes: seq<Byte>) returns (out: string)
    ensures out == Encoded(bytes)
  {
    out := "";
    var acc: nat, bits: nat, k := 0, 0, 0;
    while k < |bytes|
      invariant 0 <= k <= |bytes| && bits < 5 && Encoding(CROCKFORD, BitString(bytes[..k]), acc, bits, out)
    {
      BitStringOneMore(bytes, k);
      acc, bits, out := EncodeOne(CROCKFORD, BitString(bytes[..k]), acc, bits, out, bytes[k]);
      k := k + 1;
    }
    assert bytes[..k] == bytes;
    EncodeLast(CROCKFORD, BitString(bytes), acc, bits, out);
    if bits > 0 {
      out := out + [CROCKFORD[Shl(acc, 5 - bits) % 32]];
    }
  }

  // ── decoding ──────────────────────────────────────────────────────────────

  function IndexIn(s: string, c: char): (k: nat)
    ensures k <= |s|
  {
    if s == "" || s[0] == c then 0 else 1 + IndexIn(s[1..], c)
  }

  lemma {:induction false} IndexOfSorted(s: string, k: nat)
    requires k < |s| && Rises(s)
    ensures IndexIn(s, s[k]) == k
  {
    if k > 0 {
      Rising(s, 0, k);
      assert forall i | 0 < i < |s[1..]| :: s[1..][i - 1] == s[i] && s[1..][i] == s[i + 1];
      IndexOfSorted(s[1..], k - 1);
    }
  }

  lemma {:induction false} Rising(s: string, i: nat, j: nat)
    requires i < j < |s| && Rises(s)
    ensures s[i] < s[j]
  {
    if i + 1 < j {
      Rising(s, i, j - 1);
    }
  }

  /** The bits of a text, five for a letter; characters outside the alphabet count
      as its last letter. */
  function TextBits(alphabet: Alphabet, s: string): (bits: seq<bool>)
    ensures |bits| == 5 * |s|
  {
    if s == "" then [] else Bits(IndexIn(alphabet, s[0]), 5) + TextBits(alphabet, s[1..])
  }

  /** Whole bytes; what is left over is filling. */
  function Bytes(bits: seq<bool>): seq<Byte>
    decreases |bits|
  {
    if |bits| < 8 then []
    else
      ValueBound(bits[..8]);
      Powers();
      [Value(bits[..8])] + Bytes(bits[8..])
  }

  function Decoded(s: string): seq<Byte> {
    Bytes(TextBits(CROCKFORD, s))
  }

  predicate Rises(s: string) {
    forall i | 0 < i < |s| :: s[i - 1] < s[i]
  }

  lemma CrockfordRises()
    ensures Rises(CROCKFORD)
  {
  }

  lemma LetterBits(alphabet: Alphabet, group: seq<bool>)
    requires |group| == 5 && Rises(alphabet)
    ensures TextBits(alphabet, Letter(alphabet, group)) == group
  {
    ValueBound(group);
    Powers();
    IndexOfSorted(alphabet, Value(group));
    BitsOfValue(group);
    assert Letter(alphabet, group)[1..] == "";
  }

  /** Reading letters back gives the bits, and fewer than five more zeros. */
  ghost predicate Filled(bits: seq<bool>, back: seq<bool>) {
    |bits| <= |back| < |bits| + 5 && back == bits + Repeat(false, |back| - |bits|)
  }

  lemma TextBitsAfter(alphabet: Alphabet, c: string, s: string)
    requires |c| == 1
    ensures TextBits(alphabet, c + s) == TextBits(alphabet, c) + TextBits(alphabet, s)
  {
    assert (c + s)[1..] == s && c[1..] == "";
  }

  lemma {:induction false} LettersBits(alphabet: Alphabet, bits: seq<bool>)
    requires Rises(alphabet)
    ensures Filled(bits, TextBits(alphabet, Letters(alphabet, bits)))
    decreases |bits|
  {
    if bits == [] {
    } else if |bits| < 5 {
      LetterBits(alphabet, bits + Repeat(false, 5 - |bits|));
    } else {
      LettersBits(alphabet, bits[5..]);
      LetterBits(alphabet, bits[..5]);
      TextBitsAfter(alphabet, Letter(alphabet, bits[..5]), Letters(alphabet, bits[5..]));
      assert bits == bits[..5] + bits[5..];
    }
  }

  lemma BytesHead(bits: seq<bool>)
    requires |bits| >= 8
    ensures |Bytes(bits)| > 0 && Bytes(bits)[0] == Value(bits[..8]) && Bytes(bits)[1..] == Bytes(bits[8..])
  {
  }

  lemma {:induction false} BytesOfBits(bytes: seq<Byte>, filling: seq<bool>)
    requires |filling| < 8
    ensures Bytes(BitString(bytes) + filling) == bytes
    decreases |bytes|
  {
    if bytes != [] {
      BitStringFirst(bytes);
      var bits := BitString(bytes) + filling;
      assert bits[..8] == Bits(bytes[0], 8) && bits[8..] == BitString(bytes[1..]) + filling;
      assert Value(bits[..8]) == bytes[0] by {
        Powers();
        ValueOfBits(bytes[0], 8);
      }
      BytesHead(bits);
      BytesOfBits(bytes[1..], filling);
    }
  }

  lemma {:induction false} BitStringFirst(bytes: seq<Byte>)
    requires bytes != []
    ensures BitString(bytes) == Bits(bytes[0], 8) + BitString(bytes[1..])
  {
    var n := |bytes| - 1;
    if n > 0 {
      BitStringFirst(bytes[..n]);
      assert bytes[..n][1..] == bytes[1..][..n - 1] && bytes[..n][0] == bytes[0] && bytes[1..][n - 1] == bytes[n];
    }
  }

  /** Nothing is lost: a decoder recovers the bytes, of any number. */
  lemma DecodeEncoded(bytes: seq<Byte>)
    ensures Decoded(Encoded(bytes)) == bytes
    ensures |Encoded(bytes)| == (8 * |bytes| + 4) / 5
  {
    var bits := BitString(bytes);
    LettersLength(CROCKFORD, bits);
    CrockfordRises();
    LettersBits(CROCKFORD, bits);
    BytesOfBits(bytes, Repeat(false, |TextBits(CROCKFORD, Letters(CROCKFORD, bits))| - |bits|));
  }

  /** So the accumulator's overflow is invisible: two byte strings of one length
      never share an encoding, nor do any two of different lengths. */
  lemma EncodedInjective(a: seq<Byte>, b: seq<Byte>)
    requires Encoded(a) == Encoded(b)
    ensures a == b
  {
    DecodeEncoded(a);
    DecodeEncoded(b);
  }

  // ── the letters ───────────────────────────────────────────────────────────

  /** A digit or a capital other than the four left out. */
  predicate Transcribable(c: char) {
    ('0' <= c <= '9' || 'A' <= c <= 'Z') && c != 'I' && c != 'L' && c != 'O' && c != 'U'
  }

  lemma CrockfordIsTranscribable(c: char)
    requires c in CROCKFORD
    ensures Transcribable(c)
  {
  }

  lemma TranscribableIsCrockford(c: char) returns (k: nat)
    requires Transcribable(c)
    ensures k < 32 && CROCKFORD[k] == c
  {
    k := if c <= '9' then c as int - 48 else if c <= 'H' then c as int - 55 else if c <= 'K' then c as int - 56
        else if c <= 'N' then c as int - 57 else if c <= 'T' then c as int - 58 else c as int - 59;
  }

  lemma {:induction false} LettersFrom(alphabet: Alphabet, bits: seq<bool>)
    ensures forall c | c in Letters(alphabet, bits) :: c in alphabet
    decreases |bits|
  {
    Powers();
    if |bits| >= 5 {
      ValueBound(bits[..5]);
      LettersFrom(alphabet, bits[5..]);
    } else if bits != [] {
      ValueBound(bits + Repeat(false, 5 - |bits|));
    }
  }

  lemma UpperFive(b: Byte)
    ensures Value(Bits(b, 8)[..5]) == b / 8 < 32
  {
    var bits := Bits(b, 8);
    Powers();
    ValueOfBits(b, 8);
    ValueConcat(bits[..5], bits[5..]);
    ValueBound(bits[5..]);
    assert bits[..5] + bits[5..] == bits;
    assert b == Value(bits[..5]) * 8 + Value(bits[5..]);
  }

  lemma FirstGroup(alphabet: Alphabet, bits: seq<bool>)
    requires |bits| >= 5 && Value(bits[..5]) < 32
    ensures Letters(alphabet, bits) != "" && Letters(alphabet, bits)[0] == alphabet[Value(bits[..5])]
  {
  }

  /** The first letter of a byte stands for its upper five bits. */
  lemma FirstLetter(b: Byte)
    ensures Encoded([b]) != "" && Encoded([b])[0] == CROCKFORD[b / 8]
  {
    assert BitString([]) == [] && [b][..0] == [] && BitString([b]) == Bits(b, 8);
    UpperFive(b);
    FirstGroup(CROCKFORD, Bits(b, 8));
  }

  lemma UsedIsTranscribable(bytes: seq<Byte>, c: char)
    requires c in Encoded(bytes)
    ensures Transcribable(c)
  {
    LettersFrom(CROCKFORD, BitString(bytes));
    CrockfordIsTranscribable(c);
  }

  lemma TranscribableIsUsed(c: char) returns (b: Byte)
    requires Transcribable(c)
    ensures c in Encoded([b])
  {
    var k := TranscribableIsCrockford(c);
    b := 8 * k;
    FirstLetter(b);
  }

  /** Encodings are written in exactly the ten digits and the capitals but I, L, O
      and U. */
  lemma LettersInUseIff(c: char)
    ensures (exists bytes :: c in Encoded(bytes)) <==> Transcribable(c)
  {
    if bytes :| c in Encoded(bytes) {
      UsedIsTranscribable(bytes, c);
    }
    if Transcribable(c) {
      var b := TranscribableIsUsed(c);
      assert c in Encoded([b]);
    }
  }

  /** The letters stand in the order of their values. */
  lemma LettersInOrder(a: Byte, b: Byte)
    ensures Encoded([a]) != "" && Encoded([b]) != ""
    ensures Encoded([a])[0] < Encoded([b])[0] <==> a / 8 < b / 8
  {
    FirstLetter(a);
    FirstLetter(b);
    CrockfordRises();
    if a / 8 < b / 8 {
      Rising(CROCKFORD, a / 8, b / 8);
    } else if b / 8 < a / 8 {
      Rising(CROCKFORD, b / 8, a / 8);
    }
  }

  // ── showing and retyping a recovery key ───────────────────────────────────

  predicate AsciiUpper(c: char) { 'A' <= c <= 'Z' }
  predicate AsciiLower(c: char) { 'a' <= c <= 'z' }
  predicate AsciiDigit(c: char) { '0' <= c <= '9' }

  predicate Alphanumeric(c: char) {
    AsciiUpper(c) || AsciiLower(c) || AsciiDigit(c)
  }

  function Upper(c: char): char {
    if AsciiLower(c) then (c as int - 'a' as int + 'A' as int) as char else c
  }

  /** `canonical`: the letters and digits, in upper case. */
  function Canonical(s: string): string {
    if s == "" then ""
    else if Alphanumeric(s[0]) then [Upper(s[0])] + Canonical(s[1..])
    else Canonical(s[1..])
  }

  /** Groups of four, joined by dashes. */
  function Grouped(s: string): string
    decreases |s|
  {
    if |s| <= 4 then s else s[..4] + "-" + Grouped(s[4..])
  }

  function RecoveryKey(bytes: seq<Byte>): string {
    Grouped(Encoded(bytes))
  }

  lemma CanonicalHead(s: string)
    requires s != ""
    ensures Canonical(s) == (if Alphanumeric(s[0]) then [Upper(s[0])] else "") + Canonical(s[1..])
  {
  }

  lemma {:induction false} CanonicalConcat(a: string, b: string)
    ensures Canonical(a + b) == Canonical(a) + Canonical(b)
  {
    if a == "" {
      assert a + b == b;
    } else {
      CanonicalConcat(a[1..], b);
      CanonicalHead(a);
      CanonicalHead(a + b);
      assert (a + b)[1..] == a[1..] + b && (a + b)[0] == a[0];
    }
  }

  predicate InAlphabet(s: string) {
    forall i | 0 <= i < |s| :: AsciiUpper(s[i]) || AsciiDigit(s[i])
  }

  lemma {:induction false} CanonicalOfAlphabet(s: string)
    requires InAlphabet(s)
    ensures Canonical(s) == s
  {
    if s != "" {
      CanonicalOfAlphabet(s[1..]);
    }
  }

  lemma CrockfordInAlphabet()
    ensures InAlphabet(CROCKFORD)
  {
  }

  lemma LetterInAlphabet(alphabet: Alphabet, group: seq<bool>)
    requires |group| == 5 && InAlphabet(alphabet)
    ensures InAlphabet(Letter(alphabet, group))
  {
    ValueBound(group);
    assert Pow2(5) == 32;
  }

  lemma {:induction false} LettersInAlphabet(alphabet: Alphabet, bits: seq<bool>)
    requires InAlphabet(alphabet)
    ensures InAlphabet(Letters(alphabet, bits))
    decreases |bits|
  {
    if |bits| >= 5 {
      LetterInAlphabet(alphabet, bits[..5]);
      LettersInAlphabet(alphabet, bits[5..]);
    } else if bits != [] {
      LetterInAlphabet(alphabet, bits + Repeat(false, 5 - |bits|));
    }
  }

  lemma {:induction false} CanonicalOfGrouped(s: string)
    requires InAlphabet(s)
    ensures Canonical(Grouped(s)) == s
    ensures s != "" ==> |Grouped(s)| == |s| + (|s| - 1) / 4
    decreases |s|
  {
    if |s| <= 4 {
      CanonicalOfAlphabet(s);
    } else {
      CanonicalOfGrouped(s[4..]);
      CanonicalOfAlphabet(s[..4]);
      CanonicalConcat(s[..4] + "-", Grouped(s[4..]));
      CanonicalConcat(s[..4], "-");
      assert Canonical("-") == Canonical("-"[1..]) && "-"[1..] == "";
      assert s == s[..4] + s[4..];
    }
  }

  lemma {:induction false} DashesOfGrouped(s: string, i: nat)
    requires InAlphabet(s) && i < |Grouped(s)|
    ensures Grouped(s)[i] == '-' <==> i % 5 == 4
    ensures i % 5 != 4 ==> Grouped(s)[i] in s
    decreases |s|
  {
    if |s| > 4 {
      assert s == s[..4] + s[4..];
      if i >= 5 {
        DashesOfGrouped(s[4..], i - 5);
      }
    }
  }

  /** The same, but for the case of a letter. */
  predicate SameButCase(a: char, b: char) {
    a == b || ('a' <= a <= 'z' && a as int == b as int + 32) || ('a' <= b <= 'z' && b as int == a as int + 32)
  }

  /** What stands around the digits and letters. */
  predicate Separator(c: char) {
    c < '0' || '9' < c < 'A' || 'Z' < c < 'a' || 'z' < c
  }

  lemma SeparatorIff()
    ensures forall c :: Separator(c) <==> !Alphanumeric(c)
  {
  }

  lemma UpperIff(a: char, b: char)
    requires Alphanumeric(a) && Alphanumeric(b)
    ensures Upper(a) == Upper(b) <==> SameButCase(a, b)
  {
  }

  /** What the user may do to a key: put in or leave out separators, and change case. */
  ghost predicate Retyped(typed: string, key: string)
    decreases |typed| + |key|
  {
    || (typed == "" && key == "")
    || (typed != "" && Separator(typed[0]) && Retyped(typed[1..], key))
    || (key != "" && Separator(key[0]) && Retyped(typed, key[1..]))
    || (typed != "" && key != "" && !Separator(typed[0]) && !Separator(key[0])
        && SameButCase(typed[0], key[0]) && Retyped(typed[1..], key[1..]))
  }

  lemma {:induction false} SameCanonicalIff(typed: string, key: string)
    ensures Retyped(typed, key) <==> Canonical(typed) == Canonical(key)
    decreases |typed| + |key|
  {
    SeparatorIff();
    if typed != "" && !Alphanumeric(typed[0]) {
      SameCanonicalIff(typed[1..], key);
      if key != "" && !Alphanumeric(key[0]) {
        SameCanonicalIff(typed, key[1..]);
      }
    } else if key != "" && !Alphanumeric(key[0]) {
      SameCanonicalIff(typed, key[1..]);
    } else if typed != "" && key != "" {
      SameCanonicalIff(typed[1..], key[1..]);
      UpperIff(typed[0], key[0]);
      assert Canonical(typed)[1..] == Canonical(typed[1..]) && Canonical(key)[1..] == Canonical(key[1..]);
    }
  }

  /** A displayed recovery key keeps all its bytes, and a text stands for the same
      key exactly when it differs in separators and case only. Every fifth character
      is a dash; a 16-byte key is 26 letters, 32 characters with the dashes. */
  lemma RecoveryKeyKeepsItsBytes(bytes: seq<Byte>, typed: string)
    ensures Decoded(Canonical(RecoveryKey(bytes))) == bytes
    ensures Canonical(typed) == Encoded(bytes) <==> Retyped(typed, RecoveryKey(bytes))
    ensures forall i | 0 <= i < |RecoveryKey(bytes)| :: RecoveryKey(bytes)[i] == '-' <==> i % 5 == 4
    ensures |bytes| == 16 ==> |Encoded(bytes)| == 26 && |RecoveryKey(bytes)| == 32
  {
    DecodeEncoded(bytes);
    CrockfordInAlphabet();
    LettersInAlphabet(CROCKFORD, BitString(bytes));
    CanonicalOfGrouped(Encoded(bytes));
    SameCanonicalIff(typed, RecoveryKey(bytes));
    forall i | 0 <= i < |RecoveryKey(bytes)|
      ensures RecoveryKey(bytes)[i] == '-' <==> i % 5 == 4
    {
      DashesOfGrouped(Encoded(bytes), i);
    }
  }
}
