/** The sort key of the read model: a position printed with at least eight digits
    (todoers-client/src/list_doc.rs:384), compared as text. */
module OrderKeys {
  import opened Helpers

  /** `{position:08}` */
  function OrderKey(position: nat): string {
    var digits := Decimal(position);
    Repeat('0', if |digits| < 8 then 8 - |digits| else 0) + digits
  }

  /** The order in which text columns sort: byte by byte, a proper prefix first. */
  predicate Before(a: string, b: string) {
    if a == "" then b != ""
    else if b == "" then false
    else if a[0] != b[0] then a[0] < b[0]
    else Before(a[1..], b[1..])
  }

  lemma {:induction false} BeforeTransitive(a: string, b: string, c: string)
    requires Before(a, b) && Before(b, c)
    ensures Before(a, c)
  {
    if a != "" && a[0] == b[0] == c[0] {
      BeforeTransitive(a[1..], b[1..], c[1..]);
    }
  }

  lemma {:induction false} BeforeIrreflexive(a: string)
    ensures !Before(a, a)
  {
    if a != "" {
      BeforeIrreflexive(a[1..]);
    }
  }

  lemma {:induction false} BeforeTotal(a: string, b: string)
    ensures Before(a, b) || a == b || Before(b, a)
  {
    if a != "" && b != "" && a[0] == b[0] {
      BeforeTotal(a[1..], b[1..]);
      assert a == [a[0]] + a[1..] && b == [b[0]] + b[1..];
    }
  }

  // ── fixed width ───────────────────────────────────────────────────────────

  function Pow10(n: nat): (p: nat)
    ensures p > 0
  {
    if n == 0 then 1 else 10 * Pow10(n - 1)
  }

  function Digits(n: nat, width: nat): (s: string)
    ensures |s| == width
  {
    if width == 0 then "" else Digits(n / 10, width - 1) + [DigitChar(n % 10)]
  }

  lemma {:induction false} DecimalIsDigits(n: nat, width: nat)
    requires n < Pow10(width) && width > 0
    ensures |Decimal(n)| <= width && Repeat('0', width - |Decimal(n)|) + Decimal(n) == Digits(n, width)
    decreases width
  {
    if width == 1 {
    } else if n < 10 {
      AllZeros(width - 1);
    } else {
      DecimalIsDigits(n / 10, width - 1);
    }
  }

  lemma {:induction false} AllZeros(width: nat)
    ensures Digits(0, width) == Repeat('0', width)
  {
    if width > 0 {
      AllZeros(width - 1);
    }
  }

  lemma {:induction false} BeforeAppend(a: string, b: string, x: char, y: char)
    requires |a| == |b|
    ensures Before(a + [x], b + [y]) <==> Before(a, b) || (a == b && x < y)
  {
    if a == "" {
      assert a + [x] == [x] && b + [y] == [y];
      assert [x][1..] == "" && [y][1..] == "";
    } else {
      BeforeAppend(a[1..], b[1..], x, y);
      assert (a + [x])[1..] == a[1..] + [x] && (b + [y])[1..] == b[1..] + [y];
      if a[0] == b[0] {
        assert a == [a[0]] + a[1..] && b == [b[0]] + b[1..];
      }
    }
  }

  lemma {:induction false} DigitsOrder(m: nat, n: nat, width: nat)
    requires m < Pow10(width) && n < Pow10(width)
    ensures Before(Digits(m, width), Digits(n, width)) <==> m < n
    ensures Digits(m, width) == Digits(n, width) <==> m == n
    decreases width
  {
    if width > 0 {
      DigitsOrder(m / 10, n / 10, width - 1);
      var a, b := Digits(m / 10, width - 1), Digits(n / 10, width - 1);
      BeforeAppend(a, b, DigitChar(m % 10), DigitChar(n % 10));
      if Digits(m, width) == Digits(n, width) {
        assert a == Digits(m, width)[..width - 1] && b == Digits(n, width)[..width - 1];
        assert Digits(m, width)[width - 1] == Digits(n, width)[width - 1];
      }
    }
  }

  const LIMIT: nat := 1_0000_0000

  lemma EightDigits()
    ensures Pow10(8) == LIMIT
  {
    assert Pow10(4) == 10000 && Pow10(6) == 100_0000;
  }

  /** Below 10^8 the keys sort as the positions do. */
  lemma KeysSortAsNumbers(i: nat, j: nat)
    requires i < 100_000_000 && j < 100_000_000
    ensures Before(OrderKey(i), OrderKey(j)) <==> i < j
    ensures OrderKey(i) == OrderKey(j) <==> i == j
  {
    EightDigits();
    DecimalIsDigits(i, 8);
    DecimalIsDigits(j, 8);
    DigitsOrder(i, j, 8);
  }

  /** The ninth digit breaks it: position 10^8 sorts before 10^8 - 1. */
  lemma NinthDigitSortsWrong()
    ensures Before(OrderKey(LIMIT), OrderKey(LIMIT - 1))
  {
    EightDigits();
    DecimalIsDigits(LIMIT - 1, 8);
    FirstDigit(LIMIT - 1, 8, 9);
    FirstDigit(LIMIT, 9, 1);
    DecimalIsDigits(LIMIT, 9);
    NineDigitsLong();
    assert OrderKey(LIMIT)[0] == '1' && OrderKey(LIMIT - 1)[0] == '9';
  }

  lemma {:induction false} FirstDigit(n: nat, width: nat, d: nat)
    requires width > 0 && d < 10 && d * Pow10(width - 1) <= n < (d + 1) * Pow10(width - 1)
    ensures Digits(n, width)[0] == DigitChar(d)
    decreases width
  {
    if width > 1 {
      var p := Pow10(width - 2);
      assert d * (10 * p) == 10 * (d * p) && (d + 1) * (10 * p) == 10 * ((d + 1) * p);
      FirstDigit(n / 10, width - 1, d);
    }
  }

  lemma NineDigitsLong()
    ensures |Decimal(LIMIT)| == 9
  {
    assert |Decimal(1_0000)| == 5;
    assert |Decimal(1000_0000)| == 8;
  }

  /** A list's keys are in the order of its positions exactly when it has at most
      10^8 items. */
  lemma KeysInOrderIff(n: nat)
    ensures (forall i, j | 0 <= i < j < n :: Before(OrderKey(i), OrderKey(j))) <==> n <= 100_000_000
  {
    if n <= LIMIT {
      forall i, j | 0 <= i < j < n
        ensures Before(OrderKey(i), OrderKey(j))
      {
        KeysSortAsNumbers(i, j);
      }
    } else {
      NinthDigitSortsWrong();
      if Before(OrderKey(LIMIT - 1), OrderKey(LIMIT)) {
        BeforeTransitive(OrderKey(LIMIT), OrderKey(LIMIT - 1), OrderKey(LIMIT));
        BeforeIrreflexive(OrderKey(LIMIT));
      }
    }
  }
}
