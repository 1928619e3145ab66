/** Naira to kobo through binary64: each operation is exact up to a relative error of
    at most 2^-53 (IEEE 754-2019, section 4.3.1), then Go truncates toward zero. */
module Amounts {
  import opened Domain

  const UNIT: real := 1.0 / 9007199254740992.0

  /** The amounts covered: up to ten million million naira. */
  const MAX_KOBO: int := 1_000_000_000_000_000

  predicate Small(e: real) { -UNIT <= e <= UNIT }

  function Abs(x: real): real { if x < 0.0 then -x else x }

  /** One operation whose exact result is x. */
  function Rounded(x: real, e: real): real { x * (1.0 + e) }

  /** Go's conversion of a float to an integer. */
  function Trunc(x: real): int { if x < 0.0 then -((-x).Floor) else x.Floor }

  /** What a JSON number may be. */
  datatype Number = Missing | Malformed | Naira(kobo: int)

  /** The three operations' errors: parsing, multiplying by 100, adding a half. */
  datatype Errors = Errors(parse: real, scale: real, half: real) {
    predicate Valid() { Small(parse) && Small(scale) && Small(half) }
  }

  /** The parsed amount times 100. */
  function Scaled(kobo: int, e: Errors): real { Rounded(Rounded(kobo as real / 100.0, e.parse) * 100.0, e.scale) }

  /** The listing and requery path rounds by adding a half. */
  function NairaToKobo(n: Number, e: Errors): Result<int> {
    match n
    case Missing => Ok(0)
    case Malformed => Err
    case Naira(k) => Ok(Trunc(Rounded(Scaled(k, e) + 0.5, e.half)))
  }

  /** The webhook path truncates. */
  function WebhookKobo(k: int, e: Errors): int { Trunc(Scaled(k, e)) }

  lemma ProductAtMost(a: real, b: real, c: real, d: real)
    requires 0.0 <= a <= c && 0.0 <= b <= d
    ensures a * b <= c * d
  {
    assert c * d - a * b == (c - a) * d + a * (d - b);
  }

  lemma RoundedIsNear(x: real, e: real, bound: real)
    requires Small(e) && Abs(x) <= bound
    ensures Abs(Rounded(x, e) - x) <= bound * UNIT
  {
    assert Rounded(x, e) - x == x * e;
    assert Abs(x * e) == Abs(x) * Abs(e);
    ProductAtMost(Abs(x), Abs(e), bound, UNIT);
  }

  lemma ScaledIsNear(k: int, e: Errors)
    requires e.Valid() && -MAX_KOBO <= k <= MAX_KOBO
    ensures Abs(Scaled(k, e) - k as real) <= 0.2225
  {
    var x := k as real;
    var y := Rounded(x / 100.0, e.parse) * 100.0;
    assert y == Rounded(x, e.parse);
    RoundedIsNear(x, e.parse, 1000000000000000.0);
    RoundedIsNear(y, e.scale, 1000000000000001.0);
  }

  lemma TruncIs(x: real, m: int)
    requires if x < 0.0 then (m - 1) as real < x <= m as real else m as real <= x < (m + 1) as real
    ensures Trunc(x) == m
  {}

  /** Rounding by adding a half recovers every non-negative number of kobo, whatever the
      rounding errors; a negative number always comes out one kobo too high, because the
      conversion truncates toward zero. */
  lemma RoundingIsExactIff(k: int, e: Errors)
    requires e.Valid() && -MAX_KOBO <= k <= MAX_KOBO
    ensures NairaToKobo(Naira(k), e) == Ok(k) <==> k >= 0
    ensures k < 0 ==> NairaToKobo(Naira(k), e) == Ok(k + 1)
  {
    var p := Scaled(k, e);
    ScaledIsNear(k, e);
    RoundedIsNear(p + 0.5, e.half, 1000000000000001.0);
    var s := Rounded(p + 0.5, e.half);
    assert Abs(s - (k as real + 0.5)) < 0.4;
    if k >= 0 { TruncIs(s, k); } else { TruncIs(s, k + 1); }
  }

  /** Truncating returns the amount or one kobo less, and less exactly when the scaled
      float fell short of it. */
  lemma TruncatingLosesAtMostOne(k: int, e: Errors)
    requires e.Valid() && 0 <= k <= MAX_KOBO
    ensures WebhookKobo(k, e) == if Scaled(k, e) < k as real && k > 0 then k - 1 else k
  {
    ScaledIsNear(k, e);
    var p := Scaled(k, e);
    if k == 0 {
      assert p == 0.0;
      TruncIs(p, 0);
    } else if p < k as real {
      TruncIs(p, k - 1);
    } else {
      TruncIs(p, k);
    }
  }

  // ── When truncating is safe ───────────────────────────────────────────────

  function Pow2(n: nat): (p: int) ensures p > 0 { if n == 0 then 1 else 2 * Pow2(n - 1) }

  /** A binary64 number, the exponent's range aside: a significand of at most 53 bits times a
      power of two. */
  ghost predicate Representable(x: real) { exists m: int, n: nat :: IsScaled(x, m, n) }

  predicate IsScaled(x: real, m: int, n: nat) {
    -9007199254740992 < m < 9007199254740992 && (x * Pow2(n) as real == m as real || x == m as real * Pow2(n) as real)
  }

  /** The errors that the two operations of the webhook path can have: an operation whose exact
      result is representable has none. */
  ghost predicate Admissible(k: int, e: Errors) {
    && e.Valid()
    && (Representable(k as real / 100.0) ==> e.parse == 0.0)
    && (Representable(Rounded(k as real / 100.0, e.parse) * 100.0) ==> e.scale == 0.0)
  }

  lemma WholeIsRepresentable(m: int)
    requires -9007199254740992 < m < 9007199254740992
    ensures Representable(m as real)
  {
    assert Pow2(0) == 1;
    assert IsScaled(m as real, m, 0);
  }

  lemma {:induction false} TwentyFiveDividesHalf(a: int, n: nat)
    requires (a * Pow2(n)) % 25 == 0
    ensures a % 25 == 0
  {
    if n > 0 {
      var b := a * Pow2(n - 1);
      assert a * Pow2(n) == 2 * b;
      assert b % 25 == 0;
      TwentyFiveDividesHalf(a, n - 1);
    }
  }

  lemma Multiples(a: int, b: int)
    requires a == 100 * b
    ensures a % 25 == 0
  {
    assert a == 25 * (4 * b);
  }

  /** k/100 is representable exactly when k is a multiple of 25. */
  lemma HundredthIsRepresentableIff(k: int)
    requires 0 <= k <= MAX_KOBO
    ensures Representable(k as real / 100.0) <==> k % 25 == 0
  {
    var x := k as real / 100.0;
    if m: int, n: nat :| IsScaled(x, m, n) { ScaledHundredth(k, m, n); }
    if k % 25 == 0 { QuarterIsScaled(k); }
  }

  lemma ScaledHundredth(k: int, m: int, n: nat)
    requires IsScaled(k as real / 100.0, m, n)
    ensures k % 25 == 0
  {
    hide Pow2;
    var p := Pow2(n);
    if k as real / 100.0 * p as real == m as real {
      FineScale(k, m, p);
      Multiples(k * p, m);
      TwentyFiveDividesHalf(k, n);
    } else {
      CoarseScale(k, m, p);
      Multiples(k, m * p);
    }
  }

  lemma FineScale(k: int, m: int, p: int)
    requires k as real / 100.0 * p as real == m as real
    ensures k * p == 100 * m
  {
    assert (k * p) as real == k as real * p as real == (100 * m) as real;
  }

  lemma CoarseScale(k: int, m: int, p: int)
    requires k as real / 100.0 == m as real * p as real
    ensures k == 100 * (m * p)
  {
    assert (m * p) as real == m as real * p as real;
    assert k as real == (100 * (m * p)) as real;
  }

  lemma QuarterIsScaled(k: int)
    requires 0 <= k <= MAX_KOBO && k % 25 == 0
    ensures IsScaled(k as real / 100.0, k / 25, 2)
  {
    assert Pow2(2) == 4 by { assert Pow2(1) == 2 * Pow2(0); }
    assert k == 25 * (k / 25);
    assert k as real == 25.0 * (k / 25) as real;
  }

  /** Truncating is guaranteed to keep an amount, whatever admissible rounding errors occur, if
      and only if it is a multiple of 25 kobo, a quarter of a naira: those are computed
      exactly. For any other amount the error model admits a parse that rounds down. */
  lemma TruncatingIsSafeIff(k: int)
    requires 0 <= k <= MAX_KOBO
    ensures (forall e: Errors :: Admissible(k, e) ==> WebhookKobo(k, e) == k) <==> k % 25 == 0
  {
    HundredthIsRepresentableIff(k);
    if k % 25 == 0 {
      forall e: Errors | Admissible(k, e) ensures WebhookKobo(k, e) == k { QuartersAreExact(k, e); }
    } else {
      var e := Errors(-UNIT, 0.0, 0.0);
      assert Scaled(k, e) == k as real - k as real * UNIT;
      assert k as real * UNIT > 0.0;
      TruncatingLosesAtMostOne(k, e);
      assert Admissible(k, e) && WebhookKobo(k, e) != k;
    }
  }

  lemma QuartersAreExact(k: int, e: Errors)
    requires 0 <= k <= MAX_KOBO && k % 25 == 0 && Admissible(k, e)
    ensures WebhookKobo(k, e) == k
  {
    HundredthIsRepresentableIff(k);
    WholeIsRepresentable(k);
    assert Rounded(k as real / 100.0, 0.0) * 100.0 == k as real;
    assert Scaled(k, e) == k as real;
    TruncIs(k as real, k);
  }

  // ── An actual loss ────────────────────────────────────────────────────────

  /** m times the unit u is a nearest binary64 number to x: a 53-bit significand, and
      at most half a unit away. */
  predicate Nearest(x: real, m: int, u: real) {
    4503599627370496 <= m < 9007199254740992 && 2.0 * Abs(x - m as real * u) < u
  }

  const POW48: real := 281474976710656.0
  const POW54: real := 18014398509481984.0

  /** Twenty-nine kobo arrive by webhook as twenty-eight: the float nearest to 0.29, and
      the float nearest to a hundred times that, lie below; the listing path keeps them. */
  lemma TwentyNineKoboLoseOne()
    ensures var parsed, scaled := 5224175567749775, 8162774324609023;
            && Nearest(0.29, parsed, 1.0 / POW54)
            && Nearest(parsed as real / POW54 * 100.0, scaled, 1.0 / POW48)
            && Trunc(scaled as real / POW48) == 28
            && Nearest(scaled as real / POW48 + 0.5, 8303511812964351, 1.0 / POW48)
            && Trunc(8303511812964351.0 / POW48) == 29
  {
    TruncIs(8162774324609023.0 / POW48, 28);
    TruncIs(8303511812964351.0 / POW48, 29);
  }
}
