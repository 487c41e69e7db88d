/** Byte strings, one character per byte, and the decimal numerals that RESP lengths use. */
module Bytes {
  datatype Option<+T> = None | Some(value: T)

  const INT64_MAX := 0x7fff_ffff_ffff_ffff
  const TWO_64: nat := 0x1_0000_0000_0000_0000

  /** Two's complement wrap-around of Go's int64. */
  function Wrap64(n: int): (r: int)
    ensures -INT64_MAX - 1 <= r <= INT64_MAX
    ensures -INT64_MAX - 1 <= n <= INT64_MAX ==> r == n
  {
    (n + INT64_MAX + 1) % TWO_64 - INT64_MAX - 1
  }

  /** Index of the first line feed, or |s| when there is none. */
  function FirstLF(s: string): (i: nat)
    ensures i <= |s|
    ensures forall j :: 0 <= j < i ==> s[j] != '\n'
    ensures i < |s| ==> s[i] == '\n'
  {
    if s == "" || s[0] == '\n' then 0 else 1 + FirstLF(s[1..])
  }

  lemma FirstLFUnique(s: string, i: nat)
    requires i < |s| && s[i] == '\n'
    requires forall j :: 0 <= j < i ==> s[j] != '\n'
    ensures FirstLF(s) == i
  {
  }

  lemma Assoc(a: string, b: string, c: string)
    ensures a + b + c == a + (b + c)
  {
  }

  /** `after` is `before` followed by some part, possibly all, of `more`. */
  predicate PartOf(before: string, more: string, after: string) { before <= after <= before + more }

  /** `bytes` were sent behind `before`: all of them, or some part if a write failed. */
  predicate Delivered(before: string, bytes: string, after: string, broken: bool) {
    PartOf(before, bytes, after) && (!broken ==> after == before + bytes)
  }

  lemma DeliveredBehind(start: string, a: string, b: string, now: string, broken: bool)
    requires Delivered(start + a, b, now, broken)
    ensures Delivered(start, a + b, now, broken)
  {
    Assoc(start, a, b);
  }

  /** After a failed write it does not matter what else would have been sent. */
  lemma DeliveredLess(start: string, a: string, b: string, now: string)
    requires Delivered(start, a, now, true) && a <= b
    ensures Delivered(start, b, now, true)
  {
    assert start + a <= start + b;
  }

  lemma PartFurther(start: string, moved: string, chunk: string, left: string, now: string)
    requires PartOf(start + moved, chunk, now)
    ensures PartOf(start, moved + (chunk + left), now)
  {
    var all := start + (moved + (chunk + left));
    assert start + moved + chunk == all[..|start + moved + chunk|];
  }

  lemma PartAtOnce(start: string, chunk: string, left: string, now: string)
    requires PartOf(start, chunk, now)
    ensures PartOf(start, chunk + left, now)
  {
    PartFurther(start, "", chunk, left, now) by { assert start + "" == start; }
    assert "" + (chunk + left) == chunk + left;
  }

  lemma PartBehind(start: string, moved: string, rest: string, now: string)
    requires PartOf(start + moved, rest, now)
    ensures PartOf(start, moved + rest, now)
  {
    PartFurther(start, moved, rest, "", now);
    assert rest + "" == rest;
  }

  function Concat(parts: seq<string>): string {
    if parts == [] then "" else parts[0] + Concat(parts[1..])
  }

  lemma {:induction false} ConcatAppend(a: seq<string>, b: seq<string>)
    ensures Concat(a + b) == Concat(a) + Concat(b)
  {
    if a == [] {
      assert a + b == b;
    } else {
      ConcatAppend(a[1..], b);
      assert (a + b)[0] == a[0] && (a + b)[1..] == a[1..] + b;
      Assoc(a[0], Concat(a[1..]), Concat(b));
    }
  }

  predicate IsDigit(c: char) { '0' <= c <= '9' }

  function Digit(n: nat): (c: char)
    requires n < 10
    ensures IsDigit(c) && c as int - '0' as int == n
  {
    ('0' as int + n) as char
  }

  /** Canonical decimal numeral, as fmt's %d prints a length. */
  function Decimal(n: nat): (s: string)
    ensures |s| > 0
    ensures forall c :: c in s ==> IsDigit(c)
  {
    if n < 10 then [Digit(n)] else Decimal(n / 10) + [Digit(n % 10)]
  }

  predicate AllDigits(s: string) { forall c :: c in s ==> IsDigit(c) }

  function DigitsValue(s: string): nat
    requires AllDigits(s)
  {
    if s == "" then 0
    else
      var last := s[|s| - 1];
      assert IsDigit(last);
      10 * DigitsValue(s[..|s| - 1]) + (last as int - '0' as int)
  }

  /** strconv.ParseInt(s, 10, 64): an optional sign, at least one digit, digits only, int64 range. */
  function ParseInt(s: string): Option<int> {
    var signed := s != "" && (s[0] == '+' || s[0] == '-');
    var digits := if signed then s[1..] else s;
    if digits == "" || !AllDigits(digits) then None
    else
      var magnitude: int := DigitsValue(digits);
      var n := if signed && s[0] == '-' then -magnitude else magnitude;
      if -INT64_MAX - 1 <= n <= INT64_MAX then Some(n) else None
  }

  lemma {:induction false} DecimalValue(n: nat)
    ensures DigitsValue(Decimal(n)) == n
  {
    if n >= 10 {
      DecimalValue(n / 10);
      assert Decimal(n)[..|Decimal(n)| - 1] == Decimal(n / 10);
    }
  }

  lemma ParseIntDecimal(n: nat)
    requires n <= INT64_MAX
    ensures ParseInt(Decimal(n)) == Some(n)
  {
    DecimalValue(n);
    assert Decimal(n)[0] in Decimal(n);
  }

  function Zeros(k: nat): string { seq(k, _ => '0') }

  /** A sign, any zeros, and the printed magnitude. */
  predicate SpelledAs(s: string, n: int, sign: string, zeros: nat) {
    && s == sign + (Zeros(zeros) + Decimal(if n < 0 then -n else n))
    && (sign == "-" || (sign in {"", "+"} && n >= 0)) && (sign == "-" ==> n <= 0)
  }

  ghost predicate Spells(s: string, n: int) { exists sign, zeros: nat :: SpelledAs(s, n, sign, zeros) }

  lemma {:induction false} ZerosValue(k: nat, d: string)
    requires AllDigits(d) && d != ""
    ensures AllDigits(Zeros(k) + d) && DigitsValue(Zeros(k) + d) == DigitsValue(d)
    decreases |d|
  {
    var s := Zeros(k) + d;
    assert forall c :: c in s ==> c in Zeros(k) || c in d;
    assert s[..|s| - 1] == Zeros(k) + d[..|d| - 1];
    if |d| == 1 {
      assert s[..|s| - 1] == Zeros(k);
      OnlyZeros(k);
    } else {
      ZerosValue(k, d[..|d| - 1]);
    }
  }

  lemma {:induction false} OnlyZeros(k: nat)
    ensures AllDigits(Zeros(k)) && DigitsValue(Zeros(k)) == 0
  {
    if k > 0 {
      OnlyZeros(k - 1);
      assert Zeros(k)[..k - 1] == Zeros(k - 1);
    }
  }

  /** Any digits are zeros and a printed number. */
  lemma {:induction false} DigitsSpell(d: string) returns (k: nat)
    requires AllDigits(d) && d != ""
    ensures d == Zeros(k) + Decimal(DigitsValue(d))
  {
    var init, last := d[..|d| - 1], d[|d| - 1];
    assert IsDigit(last) && d == init + [last];
    var v := DigitsValue(init);
    if init == "" {
      k := 0;
    } else {
      k := DigitsSpell(init);
      if v == 0 {
        assert Decimal(0) == Zeros(1);
        k := k + 1;
        assert init == Zeros(k);
      } else {
        assert Decimal(10 * v + (last as int - '0' as int)) == Decimal(v) + [last];
      }
    }
  }

  /** strconv.ParseInt accepts exactly the signed, possibly zero-padded spellings of the int64 numbers. */
  lemma ParseIntIff(s: string, n: int)
    ensures ParseInt(s) == Some(n) <==> Spells(s, n) && -INT64_MAX - 1 <= n <= INT64_MAX
  {
    hide DigitsValue, Decimal;
    if ParseInt(s) == Some(n) {
      var sign := if s[0] == '+' then "+" else if s[0] == '-' then "-" else "";
      var digits := s[|sign|..];
      assert digits == if sign == "" then s else s[1..];
      var k := DigitsSpell(digits);
      assert s == sign + digits;
      assert SpelledAs(s, n, sign, k);
    }
    forall sign, zeros: nat | SpelledAs(s, n, sign, zeros) && -INT64_MAX - 1 <= n <= INT64_MAX
      ensures ParseInt(s) == Some(n)
    {
      SpelledParses(s, n, sign, zeros);
    }
  }

  lemma SpelledParses(s: string, n: int, sign: string, zeros: nat)
    requires SpelledAs(s, n, sign, zeros) && -INT64_MAX - 1 <= n <= INT64_MAX
    ensures ParseInt(s) == Some(n)
  {
    hide DigitsValue, Decimal;
    var m := if n < 0 then -n else n;
    var digits := Zeros(zeros) + Decimal(m);
    DecimalValue(m);
    ZerosValue(zeros, Decimal(m));
    assert digits[0] in digits;
    assert s[|sign|..] == digits;
    assert sign == "" ==> s == digits;
  }

  lemma DecimalLength(n: nat)
    requires n <= INT64_MAX
    ensures |Decimal(n)| <= 19
  {
    assert Pow10(6) == 1_000_000;
    assert Pow10(12) == 1_000_000_000_000;
    assert Pow10(18) == 1_000_000_000_000_000_000;
    DecimalShorter(n, 19);
  }

  function Pow10(k: nat): nat { if k == 0 then 1 else 10 * Pow10(k - 1) }

  lemma {:induction false} DecimalShorter(n: nat, k: nat)
    requires 0 < k && n < Pow10(k)
    ensures |Decimal(n)| <= k
  {
    if n >= 10 {
      DecimalShorter(n / 10, k - 1);
    }
  }
}
