/** The handful of JavaScript value semantics the workout engine relies on:
    numbers that may be NaN or infinite, the form text that unary `+` converts,
    `Number.isFinite`, the comparison `v > 0`, and the decimal text of a
    non-negative integer (`n + ''`) with `slice(-k)` on it. */
module JsValues {

  /** A JavaScript number: finite values as exact reals, plus NaN and the two infinities. */
  datatype JsNumber = Finite(value: real) | NaN | Infinity(negative: bool)

  /** A value handed to the validators: a number, or the empty string that the
      cycling form keeps for a blank elevation field. */
  datatype JsValue = Number(n: JsNumber) | EmptyString

  /** A value that may be missing (`undefined` or `null` in the source). */
  datatype Option<T> = None | Some(value: T)

  /** The text of a form input: blank, or non-blank text together with what
      unary `+` converts it to. */
  datatype InputText = Blank | Text(converted: JsNumber)

  /** Unary `+` applied to the input's text: the empty string becomes 0. */
  function ToNumber(t: InputText): (r: JsNumber)
    ensures t.Blank? ==> r == Finite(0.0)
    ensures t.Text? ==> r == t.converted
  {
    match t
    case Blank => Finite(0.0)
    case Text(n) => n
  }

  /** `Number.isFinite(v)`: true only for finite numbers; it does not coerce,
      so the empty string is not finite. */
  function IsFinite(v: JsValue): (ok: bool)
    ensures v.EmptyString? ==> !ok
    ensures ok <==> v.Number? && v.n != NaN && !v.n.Infinity?
  {
    v.Number? && v.n.Finite?
  }

  /** `v > 0`: the empty string compares as 0, NaN compares false, and only
      +Infinity among the infinities is above zero. */
  function IsPositive(v: JsValue): (ok: bool)
    ensures v.EmptyString? || v == Number(NaN) ==> !ok
    ensures IsFinite(v) ==> (ok <==> v.n.value > 0.0)
    ensures v.Number? && v.n.Infinity? ==> (ok <==> !v.n.negative)
  {
    match v
    case EmptyString => false
    case Number(Finite(r)) => r > 0.0
    case Number(NaN) => false
    case Number(Infinity(negative)) => !negative
  }

  // ---------------------------------------------------------------------
  // Decimal text of a non-negative integer

  predicate IsDigit(c: char)
  {
    '0' <= c <= '9'
  }

  predicate AllDigits(s: string)
  {
    forall i :: 0 <= i < |s| ==> IsDigit(s[i])
  }

  function Digit(d: nat): (c: char)
    requires d < 10
    ensures IsDigit(c) && DigitValue(c) == d
  {
    (48 + d) as char
  }

  function DigitValue(c: char): nat
    requires IsDigit(c)
  {
    c as int - 48
  }

  function Pow10(k: nat): (p: nat)
    ensures p >= 1
  {
    if k == 0 then 1 else 10 * Pow10(k - 1)
  }

  /** `n + ''` for a non-negative integer n: its decimal digits, most significant first. */
  function Decimal(n: nat): (s: string)
    ensures |s| >= 1 && AllDigits(s)
  {
    if n < 10 then [Digit(n)] else Decimal(n / 10) + [Digit(n % 10)]
  }

  /** The number a string of decimal digits denotes (the inverse of Decimal). */
  function ValueOf(s: string): nat
    requires AllDigits(s)
  {
    if s == [] then 0 else 10 * ValueOf(s[..|s| - 1]) + DigitValue(s[|s| - 1])
  }

  /** `s.slice(-k)` for k >= 1 (`slice(-0)` would keep everything): the last k characters, or all of s when it is shorter. */
  function Suffix(s: string, k: nat): (r: string)
    requires k > 0
    ensures |r| <= k && |r| <= |s|
    ensures |s| >= k ==> |r| == k
    ensures |s| <= k ==> r == s
    ensures s == s[..|s| - |r|] + r
  {
    if |s| <= k then s else s[|s| - k..]
  }

  // ---------------------------------------------------------------------
  // Lemmas about decimal text

  /** Reading back the decimal text of n gives n. */
  lemma {:induction false} DecimalRoundTrip(n: nat)
    ensures ValueOf(Decimal(n)) == n
  {
    if n >= 10 {
      DecimalRoundTrip(n / 10);
      var s := Decimal(n);
      assert s[..|s| - 1] == Decimal(n / 10);
    }
  }

  /** A string of k digits denotes a number below 10^k. */
  lemma {:induction false} ValueBelowPow10(s: string)
    requires AllDigits(s)
    ensures ValueOf(s) < Pow10(|s|)
  {
    if s != [] {
      ValueBelowPow10(s[..|s| - 1]);
    }
  }

  lemma {:induction false} Pow10Monotone(j: nat, k: nat)
    requires j <= k
    ensures Pow10(j) <= Pow10(k)
  {
    if j < k {
      Pow10Monotone(j, k - 1);
    }
  }

  /** Digits written after a prefix shift the prefix's value by a power of ten. */
  lemma {:induction false} ValueOfConcat(a: string, b: string)
    requires AllDigits(a) && AllDigits(b)
    ensures AllDigits(a + b)
    ensures ValueOf(a + b) == ValueOf(a) * Pow10(|b|) + ValueOf(b)
  {
    if b == [] {
      assert a + b == a;
    } else {
      var b' := b[..|b| - 1];
      ValueOfConcat(a, b');
      assert (a + b)[..|a + b| - 1] == a + b';
      var va, vb', p' := ValueOf(a), ValueOf(b'), Pow10(|b'|);
      var d := DigitValue(b[|b| - 1]);
      ScaleProduct(va, p');
      assert ValueOf(a + b) == 10 * (va * p' + vb') + d;
      assert ValueOf(b) == 10 * vb' + d;
    }
  }

  lemma ScaleProduct(x: nat, y: nat)
    ensures 10 * (x * y) == x * (10 * y)
  {
  }

  lemma AtLeastOneMultiple(k: int, p: nat)
    requires k >= 1
    ensures k * p >= p
  {
  }

  lemma ModOfMultiplePlus(x: nat, p: nat, y: nat)
    requires 0 <= y < p
    ensures (x * p + y) % p == y
  {
    var q := (x * p + y) / p;
    var r := (x * p + y) % p;
    assert q * p + r == x * p + y;
    if q < x {
      assert (x - q) * p == r - y;
      AtLeastOneMultiple(x - q, p);
    } else if q > x {
      assert (q - x) * p == y - r;
      AtLeastOneMultiple(q - x, p);
    }
  }

  /** The last k digits of a decimal text denote its value modulo 10^k. */
  lemma SuffixValue(s: string, k: nat)
    requires AllDigits(s) && k > 0
    ensures AllDigits(Suffix(s, k))
    ensures ValueOf(Suffix(s, k)) == ValueOf(s) % Pow10(k)
  {
    var r := Suffix(s, k);
    var a := s[..|s| - |r|];
    ValueOfConcat(a, r);
    assert a + r == s;
    ValueBelowPow10(r);
    if |s| <= k {
      assert r == s;
      Pow10Monotone(|s|, k);
    } else {
      assert |r| == k;
    }
    ModOfMultiplePlus(ValueOf(a), Pow10(k), ValueOf(r));
  }

  /** Two digit strings of the same length that denote the same number are equal. */
  lemma {:induction false} ValueOfInjective(a: string, b: string)
    requires AllDigits(a) && AllDigits(b) && |a| == |b|
    requires ValueOf(a) == ValueOf(b)
    ensures a == b
  {
    if a != [] {
      var n := |a| - 1;
      assert DigitValue(a[n]) == ValueOf(a) % 10 && DigitValue(b[n]) == ValueOf(b) % 10;
      assert ValueOf(a[..n]) == ValueOf(a) / 10 && ValueOf(b[..n]) == ValueOf(b) / 10;
      ValueOfInjective(a[..n], b[..n]);
      assert a[n] == b[n];
      assert a == a[..n] + [a[n]] && b == b[..n] + [b[n]];
    }
  }

  /** Decimal texts are equal only for equal numbers. */
  lemma DecimalInjective(m: nat, n: nat)
    requires Decimal(m) == Decimal(n)
    ensures m == n
  {
    DecimalRoundTrip(m);
    DecimalRoundTrip(n);
  }

  /** A number of at least 10^k has more than k decimal digits. */
  lemma DecimalLongerThan(n: nat, k: nat)
    requires n >= Pow10(k)
    ensures |Decimal(n)| > k
  {
  }
}
