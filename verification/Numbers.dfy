/**
 Canonical JSON numbers (internal/apicontract/json.go).

 A number of section 6 of RFC 8259 denotes an exact decimal value. canonicalNumber rewrites it to
 a plain decimal without redundant zeros; that form exists once per value, so equal values and
 equal canonical text are the same thing.
 */
module Numbers {
  import opened Prelude

  const MAX_NUMBER_BYTES := 128
  const MAX_NUMBER_EXPONENT := 308

  // ---- Grammar ----

  /** strings.IndexAny(s, "eE"). */
  function ExponentAt(s: string): (i: int)
    ensures -1 <= i < |s|
    ensures i >= 0 ==> (s[i] == 'e' || s[i] == 'E') && forall j :: 0 <= j < i ==> s[j] != 'e' && s[j] != 'E'
    ensures i < 0 ==> forall j :: 0 <= j < |s| ==> s[j] != 'e' && s[j] != 'E'
  {
    if s == "" then -1
    else if s[0] == 'e' || s[0] == 'E' then 0
    else var rest := ExponentAt(s[1..]); if rest < 0 then -1 else rest + 1
  }

  predicate IsInteger(s: string) { s != "" && AllDigits(s) && (s[0] == '0' ==> |s| == 1) }

  predicate IsMantissa(s: string) {
    var dot := IndexOf(s, '.');
    if dot < 0 then IsInteger(s) else IsInteger(s[..dot]) && s[dot + 1..] != "" && AllDigits(s[dot + 1..])
  }

  predicate IsExponent(s: string) {
    var t := if s != "" && (s[0] == '+' || s[0] == '-') then s[1..] else s;
    t != "" && AllDigits(t)
  }

  predicate IsUnsigned(s: string) {
    var at := ExponentAt(s);
    if at < 0 then IsMantissa(s) else IsMantissa(s[..at]) && IsExponent(s[at + 1..])
  }

  function Unsigned(s: string): string { if s != "" && s[0] == '-' then s[1..] else s }

  /** The number grammar. */
  predicate IsNumber(s: string) { IsUnsigned(Unsigned(s)) }

  // ---- Meaning ----

  /** x times ten to the e. */
  function Scale(x: real, e: int): real
    decreases if e < 0 then -e else e
  {
    if e == 0 then x else if e > 0 then 10.0 * Scale(x, e - 1) else Scale(x, e + 1) / 10.0
  }

  function Digits(s: string): real
    requires AllDigits(s)
  {
    DigitsValue(s) as real
  }

  /** strconv.Atoi on an exponent with an optional sign. */
  function ExponentValue(s: string): int
    requires IsExponent(s)
  {
    if s[0] == '-' then -(DigitsValue(s[1..]) as int) else if s[0] == '+' then DigitsValue(s[1..]) else DigitsValue(s)
  }

  function MantissaValue(s: string): real
    requires IsMantissa(s)
  {
    var dot := IndexOf(s, '.');
    if dot < 0 then Digits(s) else Digits(s[..dot]) + Scale(Digits(s[dot + 1..]), -(|s| - dot - 1))
  }

  function Magnitude(s: string): real
    requires IsUnsigned(s)
  {
    var at := ExponentAt(s);
    if at < 0 then MantissaValue(s) else Scale(MantissaValue(s[..at]), ExponentValue(s[at + 1..]))
  }

  /** The exact value a number denotes. */
  function Value(s: string): real
    requires IsNumber(s)
  {
    if s[0] == '-' then -Magnitude(s[1..]) else Magnitude(s)
  }

  /** A plain decimal without exponent, sign of zero, leading or trailing zeros. */
  predicate IsPlain(s: string) {
    && ExponentAt(s) < 0 && IsMantissa(s)
    && (IndexOf(s, '.') >= 0 ==> s[|s| - 1] != '0')
  }

  predicate IsCanonical(s: string) {
    s == "0" || (IsPlain(Unsigned(s)) && Unsigned(s) != "0")
  }

  // ---- Powers of ten and digit strings ----

  lemma {:induction false} ScaleStep(x: real, e: int)
    ensures Scale(x, e + 1) == 10.0 * Scale(x, e)
  {
  }

  /** Exponents add, whatever their signs. */
  lemma {:induction false} ScaleAdd(x: real, a: int, b: int)
    ensures Scale(Scale(x, a), b) == Scale(x, a + b)
    decreases if b < 0 then -b else b
  {
    if b > 0 {
      ScaleAdd(x, a, b - 1);
      ScaleStep(x, a + b - 1);
    } else if b < 0 {
      ScaleAdd(x, a, b + 1);
      ScaleStep(x, a + b);
    }
  }

  lemma {:induction false} ScaleSum(x: real, y: real, e: int)
    ensures Scale(x + y, e) == Scale(x, e) + Scale(y, e)
    decreases if e < 0 then -e else e
  {
    if e > 0 {
      ScaleSum(x, y, e - 1);
    } else if e < 0 {
      ScaleSum(x, y, e + 1);
    }
  }

  lemma {:induction false} ScaleZero(e: int)
    ensures Scale(0.0, e) == 0.0
  {
    ScaleSum(0.0, 0.0, e);
  }

  lemma {:induction false} DigitsAppend(a: string, b: string)
    requires AllDigits(a) && AllDigits(b)
    ensures AllDigits(a + b) && Digits(a + b) == Scale(Digits(a), |b|) + Digits(b)
  {
    if b == "" {
      assert a + b == a;
    } else {
      DigitsAppend(a, b[..|b| - 1]);
      assert (a + b)[..|a + b| - 1] == a + b[..|b| - 1];
    }
  }

  function Zeros(n: nat): (s: string)
    ensures |s| == n && AllDigits(s) && forall i :: 0 <= i < n ==> s[i] == '0'
  {
    seq(n, _ => '0')
  }

  lemma {:induction false} ZerosValue(n: nat)
    ensures Digits(Zeros(n)) == 0.0
  {
    if n > 0 {
      assert Zeros(n)[..n - 1] == Zeros(n - 1);
      ZerosValue(n - 1);
    }
  }

  lemma {:induction false} TrailingZeros(a: string, n: nat)
    requires AllDigits(a)
    ensures Digits(a + Zeros(n)) == Scale(Digits(a), n)
  {
    DigitsAppend(a, Zeros(n));
    ZerosValue(n);
  }

  lemma {:induction false} LeadingZeros(n: nat, a: string)
    requires AllDigits(a)
    ensures Digits(Zeros(n) + a) == Digits(a)
  {
    DigitsAppend(Zeros(n), a);
    ZerosValue(n);
    ScaleZero(|a|);
  }

  // ---- From text to digits and an exponent ----

  /** v is digits times ten to the e. */
  ghost predicate Is(v: real, digits: string, e: int) { AllDigits(digits) && v == Scale(Digits(digits), e) }

  /** Moving the point: the digits without it, |b| places down. */
  lemma {:induction false} PointMoved(a: string, b: string)
    requires AllDigits(a) && AllDigits(b)
    ensures Is(Digits(a) + Scale(Digits(b), -|b|), a + b, -|b|)
  {
    DigitsAppend(a, b);
    ScaleSum(Scale(Digits(a), |b|), Digits(b), -|b|);
    ScaleAdd(Digits(a), |b|, -|b|);
  }

  lemma {:induction false} MantissaIs(s: string)
    requires IsMantissa(s)
    ensures var dot := IndexOf(s, '.');
            if dot < 0 then Is(MantissaValue(s), s, 0)
                else Is(MantissaValue(s), s[..dot] + s[dot + 1..], -(|s| - dot - 1))
  {
    var dot := IndexOf(s, '.');
    if dot >= 0 { PointMoved(s[..dot], s[dot + 1..]); }
  }

  lemma {:induction false} Scaled(v: real, digits: string, k: int, e: int)
    requires Is(v, digits, k)
    ensures Is(Scale(v, e), digits, k + e)
  {
    ScaleAdd(Digits(digits), k, e);
  }

  lemma {:induction false} SuffixDigits(n: nat, r: string)
    requires AllDigits(Zeros(n) + r)
    ensures AllDigits(r)
  {
    assert forall i :: 0 <= i < |r| ==> r[i] == (Zeros(n) + r)[n + i];
  }

  lemma {:induction false} PrefixDigits(r: string, t: string)
    requires AllDigits(r + t)
    ensures AllDigits(r)
  {
    assert forall i :: 0 <= i < |r| ==> r[i] == (r + t)[i];
  }

  lemma {:induction false} TrimmedLeft(v: real, n: nat, r: string, e: int)
    requires Is(v, Zeros(n) + r, e)
    ensures Is(v, r, e)
  {
    SuffixDigits(n, r);
    LeadingZeros(n, r);
  }

  lemma {:induction false} TrimmedRight(v: real, r: string, n: nat, e: int)
    requires Is(v, r + Zeros(n), e)
    ensures Is(v, r, e + n)
  {
    PrefixDigits(r, Zeros(n));
    TrailingZeros(r, n);
    ScaleAdd(Digits(r), n, e);
  }

  // ---- Printing digits and an exponent as a plain decimal ----

  /** Digits that neither start nor end with zero. */
  predicate Significant(t: string) { t != "" && AllDigits(t) && t[0] != '0' && t[|t| - 1] != '0' }

  /** A plain decimal with an integer part and a fraction. */
  lemma {:induction false} Pointed(a: string, b: string)
    requires IsInteger(a) && b != "" && AllDigits(b) && b[|b| - 1] != '0'
    ensures IsPlain(a + "." + b) && MantissaValue(a + "." + b) == Digits(a) + Scale(Digits(b), -|b|)
  {
    FirstAt(a, '.', b);
    var s := a + "." + b;
    assert forall i :: 0 <= i < |s| ==> s[i] != 'e' && s[i] != 'E';
    assert s[|s| - 1] == b[|b| - 1];
  }

  lemma {:induction false} NoPoint(s: string)
    requires AllDigits(s)
    ensures IndexOf(s, '.') == -1 && ExponentAt(s) == -1
  {
  }

  /** A plain decimal of value v. */
  ghost predicate PlainOf(s: string, v: real) { s != "0" && IsPlain(s) && MantissaValue(s) == v }

  lemma {:induction false} RenderWhole(t: string, e: nat, v: real)
    requires Significant(t) && Is(v, t, e)
    ensures PlainOf(t + Zeros(e), v)
  {
    NoPoint(t + Zeros(e));
    TrailingZeros(t, e);
    assert (t + Zeros(e))[0] == t[0];
  }

  lemma {:induction false} Cut(t: string, n: nat)
    requires Significant(t) && 0 < n < |t|
    ensures IsInteger(t[..n]) && AllDigits(t[n..]) && t[n..][|t| - n - 1] != '0' && t[..n] + t[n..] == t
  {
  }

  lemma {:induction false} RenderInside(t: string, e: int, v: real)
    requires Significant(t) && e < 0 < |t| + e && Is(v, t, e)
    ensures PlainOf(t[..|t| + e] + "." + t[|t| + e..], v)
  {
    var a, b := t[..|t| + e], t[|t| + e..];
    Cut(t, |t| + e);
    Pointed(a, b);
    PointMoved(a, b);
  }

  lemma {:induction false} RenderBelow(t: string, n: nat, v: real)
    requires Significant(t) && Is(v, t, 0 - (|t| + n))
    ensures PlainOf("0." + Zeros(n) + t, v)
  {
    BelowText(n, t);
    BelowValue(n, t);
    Pointed("0", Zeros(n) + t);
  }

  lemma {:induction false} BelowText(n: nat, t: string)
    ensures "0." + Zeros(n) + t == "0" + "." + (Zeros(n) + t)
  {
  }

  lemma {:induction false} BelowValue(n: nat, t: string)
    requires Significant(t)
    ensures var b := Zeros(n) + t;
            b != "" && AllDigits(b) && b[|b| - 1] != '0' && Digits(b) == Digits(t) && Digits("0") == 0.0
  {
    DigitsAppend(Zeros(n), t);
    LeadingZeros(n, t);
  }

  // ---- A value has one canonical form ----

  function IntPart(s: string): string { if IndexOf(s, '.') < 0 then s else s[..IndexOf(s, '.')] }

  function Fraction(s: string): string { if IndexOf(s, '.') < 0 then "" else s[IndexOf(s, '.') + 1..] }

  lemma {:induction false} PartsGive(s: string)
    requires IsMantissa(s)
    ensures AllDigits(IntPart(s)) && AllDigits(Fraction(s)) && IsInteger(IntPart(s))
    ensures Is(MantissaValue(s), IntPart(s) + Fraction(s), -|Fraction(s)|)
    ensures s == if Fraction(s) == "" then IntPart(s) else IntPart(s) + "." + Fraction(s)
  {
    MantissaIs(s);
    var dot := IndexOf(s, '.');
    if dot < 0 {
      assert s + "" == s;
    } else {
      assert s == s[..dot] + "." + s[dot + 1..];
    }
  }

  lemma {:induction false} LastDigit(a: string, c: char)
    requires AllDigits(a) && IsDigit(c)
    ensures AllDigits(a + [c]) && DigitsValue(a + [c]) == 10 * DigitsValue(a) + DigitValue(c)
  {
    assert (a + [c])[..|a|] == a;
  }

  lemma {:induction false} IntegerPositive(s: string)
    requires IsInteger(s) && s != "0"
    ensures DigitsValue(s) >= 1
  {
    if |s| > 1 { IntegerPositive(s[..|s| - 1]); }
  }

  lemma {:induction false} IntegerUnique(a: string, b: string)
    requires IsInteger(a) && IsInteger(b) && DigitsValue(a) == DigitsValue(b)
    ensures a == b
  {
    assert a == a[..|a| - 1] + [a[|a| - 1]] && b == b[..|b| - 1] + [b[|b| - 1]];
    if |a| > 1 { IntegerPositive(a[..|a| - 1]); }
    if |b| > 1 { IntegerPositive(b[..|b| - 1]); }
    if |a| > 1 && |b| > 1 { IntegerUnique(a[..|a| - 1], b[..|b| - 1]); }
  }

  lemma {:induction false} LastSame(p: nat, c: char, q: nat, d: char)
    requires IsDigit(c) && IsDigit(d) && 10 * p + DigitValue(c) == 10 * q + DigitValue(d)
    ensures p == q && c == d
  {
  }

  lemma {:induction false} DropLast(a: string, b: string)
    requires AllDigits(a) && AllDigits(b) && b != ""
    ensures AllDigits(a + b) && AllDigits(a + b[..|b| - 1])
    ensures DigitsValue(a + b) == 10 * DigitsValue(a + b[..|b| - 1]) + DigitValue(b[|b| - 1])
  {
    DigitsAppend(a, b[..|b| - 1]);
    LastDigit(a + b[..|b| - 1], b[|b| - 1]);
    assert a + b == (a + b[..|b| - 1]) + [b[|b| - 1]];
  }

  lemma {:induction false} SameTail(a: string, b: string, c: string, d: string)
    requires AllDigits(a) && AllDigits(b) && AllDigits(c) && AllDigits(d) && |b| == |d|
    requires AllDigits(a + b) && AllDigits(c + d) && DigitsValue(a + b) == DigitsValue(c + d)
    ensures DigitsValue(a) == DigitsValue(c) && b == d
    decreases |b|
  {
    if b == "" {
      assert a + b == a && c + d == c;
    } else {
      var b', d' := b[..|b| - 1], d[..|d| - 1];
      DropLast(a, b);
      DropLast(c, d);
      LastSame(DigitsValue(a + b'), b[|b| - 1], DigitsValue(c + d'), d[|d| - 1]);
      SameTail(a, b', c, d');
      assert b == b' + [b[|b| - 1]] && d == d' + [d[|d| - 1]];
    }
  }

  lemma {:induction false} EndsInZero(a: string, n: nat)
    requires AllDigits(a) && n > 0
    ensures AllDigits(a + Zeros(n)) && DigitsValue(a + Zeros(n)) % 10 == 0
  {
    DigitsAppend(a, Zeros(n - 1));
    LastDigit(a + Zeros(n - 1), '0');
    assert a + Zeros(n) == (a + Zeros(n - 1)) + "0";
  }

  lemma {:induction false} NoExtra(x: string, y: string, k: nat)
    requires AllDigits(x) && AllDigits(y) && AllDigits(y + Zeros(k)) && DigitsValue(x) == DigitsValue(y + Zeros(k))
    requires k > 0 ==> DigitsValue(x) % 10 != 0
    ensures k == 0 && DigitsValue(x) == DigitsValue(y)
  {
    if k > 0 { EndsInZero(y, k); }
    assert k == 0;
    assert y + Zeros(0) == y;
  }

  lemma {:induction false} Aligned(v: real, a: string, b: string, j: nat, k: nat)
    requires Is(v, a, 0 - j) && Is(v, b, 0 - k) && j >= k
    ensures AllDigits(b + Zeros(j - k)) && DigitsValue(a) == DigitsValue(b + Zeros(j - k))
  {
    ScaleAdd(Digits(a), 0 - j, j);
    ScaleAdd(Digits(b), 0 - k, j);
    DigitsAppend(b, Zeros(j - k));
    TrailingZeros(b, j - k);
  }

  /** The digits of a plain decimal with a fraction do not end in zero. */
  lemma {:induction false} LastNonZero(s: string)
    requires IsPlain(s) && Fraction(s) != ""
    ensures AllDigits(IntPart(s) + Fraction(s)) && DigitsValue(IntPart(s) + Fraction(s)) % 10 != 0
  {
    PartsGive(s);
    var f := Fraction(s);
    assert s[|s| - 1] == f[|f| - 1];
    assert IntPart(s) + f == (IntPart(s) + f[..|f| - 1]) + [f[|f| - 1]];
    DigitsAppend(IntPart(s), f[..|f| - 1]);
    LastDigit(IntPart(s) + f[..|f| - 1], f[|f| - 1]);
  }

  /** Equal values: fractions of equal length, digits of equal value. */
  lemma {:induction false} SameLength(v: real, x: string, j: nat, y: string, k: nat)
    requires Is(v, x, 0 - j) && Is(v, y, 0 - k) && j >= k && (j > 0 ==> DigitsValue(x) % 10 != 0)
    ensures j == k && DigitsValue(x) == DigitsValue(y)
  {
    Aligned(v, x, y, j, k);
    NoExtra(x, y, j - k);
  }

  /** s prints the integer part i and the fraction f of v. */
  ghost predicate Split(v: real, s: string, i: string, f: string) {
    && IsInteger(i) && AllDigits(f) && s == (if f == "" then i else i + "." + f)
    && Is(v, i + f, 0 - |f|) && (|f| > 0 ==> DigitsValue(i + f) % 10 != 0)
  }

  lemma {:induction false} PlainSplit(s: string)
    requires IsPlain(s)
    ensures Split(MantissaValue(s), s, IntPart(s), Fraction(s))
  {
    PartsGive(s);
    if Fraction(s) != "" { LastNonZero(s); }
  }

  lemma {:induction false} SplitUnique(v: real, a: string, i: string, f: string, b: string, j: string, g: string)
    requires Split(v, a, i, f) && Split(v, b, j, g) && |f| >= |g|
    ensures a == b
  {
    SameLength(v, i + f, |f|, j + g, |g|);
    SameTail(i, f, j, g);
    IntegerUnique(i, j);
  }

  lemma {:induction false} PlainUnique(a: string, b: string)
    requires IsPlain(a) && IsPlain(b) && MantissaValue(a) == MantissaValue(b)
    ensures a == b
  {
    PlainSplit(a);
    PlainSplit(b);
    if |Fraction(a)| >= |Fraction(b)| {
      SplitUnique(MantissaValue(a), a, IntPart(a), Fraction(a), b, IntPart(b), Fraction(b));
    } else {
      SplitUnique(MantissaValue(a), b, IntPart(b), Fraction(b), a, IntPart(a), Fraction(a));
    }
  }

  lemma {:induction false} ScalePositive(x: real, e: int)
    requires x > 0.0
    ensures Scale(x, e) > 0.0
    decreases if e < 0 then -e else e
  {
    if e > 0 { ScalePositive(x, e - 1); } else if e < 0 { ScalePositive(x, e + 1); }
  }

  lemma {:induction false} PlainPositive(s: string)
    requires IsPlain(s) && s != "0"
    ensures MantissaValue(s) > 0.0
  {
    PartsGive(s);
    var x := IntPart(s) + Fraction(s);
    if Fraction(s) == "" {
      assert x == s;
      IntegerPositive(s);
    } else {
      assert x[|x| - 1] == s[|s| - 1];
    }
    ScalePositive(Digits(x), -|Fraction(s)|);
  }

  lemma {:induction false} CanonicalNumberForm(s: string)
    requires IsCanonical(s)
    ensures IsNumber(s)
    ensures s == "0" ==> Value(s) == 0.0
    ensures s != "0" ==> MantissaValue(Unsigned(s)) > 0.0
                         && Value(s) == if s[0] == '-' then -MantissaValue(Unsigned(s)) else MantissaValue(Unsigned(s))
  {
    if s == "0" {
      NoPoint(s);
      assert Digits("0") == 0.0;
    } else {
      PlainPositive(Unsigned(s));
    }
  }

  /** Canonical texts with equal values are the same text. */
  lemma {:induction false} CanonicalUnique(a: string, b: string)
    requires IsCanonical(a) && IsCanonical(b) && IsNumber(a) && IsNumber(b) && Value(a) == Value(b)
    ensures a == b
  {
    CanonicalNumberForm(a);
    CanonicalNumberForm(b);
    if a != "0" && b != "0" {
      PlainUnique(Unsigned(a), Unsigned(b));
      assert a[0] == '-' ==> a == "-" + Unsigned(a);
      assert b[0] == '-' ==> b == "-" + Unsigned(b);
    }
  }

  // ---- canonicalNumber and boundedNumber ----

  /** boundedNumber: a short text with a small exponent. */
  predicate Bounded(s: string) {
    && |s| <= MAX_NUMBER_BYTES
    && var at := ExponentAt(s);
       at >= 0 ==> IsExponent(s[at + 1..]) && -MAX_NUMBER_EXPONENT <= ExponentValue(s[at + 1..]) <= MAX_NUMBER_EXPONENT
  }

  /** How much an exponent can lengthen the plain form. */
  function Stretch(s: string): nat {
    var at := ExponentAt(s);
    if at >= 0 && IsExponent(s[at + 1..]) then
      var e := ExponentValue(s[at + 1..]); if e < -1 then -e else if e > 1 then e else 1
    else 1
  }

  ghost predicate CanonicalOf(number: string, out: string) {
    IsNumber(number) && IsNumber(out) && IsCanonical(out) && Value(out) == Value(number)
  }

  // The unsigned text as digits and an exponent.

  function Mantissa(text: string): string { if ExponentAt(text) < 0 then text else text[..ExponentAt(text)] }

  function WrittenExponent(text: string): int
    requires IsUnsigned(text)
  {
    if ExponentAt(text) < 0 then 0 else ExponentValue(text[ExponentAt(text) + 1..])
  }

  function DigitsOf(text: string): string { IntPart(Mantissa(text)) + Fraction(Mantissa(text)) }

  function ExponentOf(text: string): int
    requires IsUnsigned(text)
  {
    WrittenExponent(text) - |Fraction(Mantissa(text))|
  }

  lemma {:induction false} MagnitudeSplit(text: string)
    requires IsUnsigned(text)
    ensures IsMantissa(Mantissa(text)) && Magnitude(text) == Scale(MantissaValue(Mantissa(text)), WrittenExponent(text))
  {
  }

  lemma {:induction false} ReadIs(text: string)
    requires IsUnsigned(text)
    ensures Is(Magnitude(text), DigitsOf(text), ExponentOf(text))
  {
    MagnitudeSplit(text);
    MantissaScaled(Mantissa(text), WrittenExponent(text));
  }

  lemma {:induction false} MantissaScaled(m: string, e: int)
    requires IsMantissa(m)
    ensures Is(Scale(MantissaValue(m), e), IntPart(m) + Fraction(m), e - |Fraction(m)|)
  {
    PartsGive(m);
    Scaled(MantissaValue(m), IntPart(m) + Fraction(m), -|Fraction(m)|, e);
  }

  lemma {:induction false} ReadSize(text: string)
    requires IsUnsigned(text)
    ensures |DigitsOf(text)| <= |text| && |DigitsOf(text)| + ExponentOf(text) <= |text| + Stretch(text)
    ensures 2 - ExponentOf(text) <= |text| + Stretch(text)
  {
    MagnitudeSplit(text);
    PartsGive(Mantissa(text));
  }

  method ReadDigits(text: string) returns (digits: string, exponent: int)
    requires IsUnsigned(text)
    ensures digits == DigitsOf(text) && exponent == ExponentOf(text)
  {
    digits, exponent := text, 0;
    var at := ExponentAt(text);
    if at >= 0 {
      exponent := ExponentValue(text[at + 1..]);
      digits := text[..at];
    }
    var dot := IndexOf(digits, '.');
    if dot >= 0 {
      exponent := exponent - (|digits| - dot - 1);
      digits := digits[..dot] + digits[dot + 1..];
    }
  }

  // The digits without redundant zeros, and the point where the exponent puts it.

  /** strings.TrimLeft(s, "0"). */
  method TrimLeft(s: string) returns (r: string)
    ensures |r| <= |s| && s == Zeros(|s| - |r|) + r && (r != "" ==> r[0] != '0')
  {
    var n := 0;
    while n < |s| && s[n] == '0'
      invariant 0 <= n <= |s| && forall i :: 0 <= i < n ==> s[i] == '0'
    {
      n := n + 1;
    }
    assert s[..n] == Zeros(n) && s == s[..n] + s[n..];
    return s[n..];
  }

  /** strings.TrimRight(s, "0"). */
  method TrimRight(s: string) returns (r: string)
    ensures |r| <= |s| && s == r + Zeros(|s| - |r|) && (r != "" ==> r[|r| - 1] != '0')
  {
    var n := |s|;
    while n > 0 && s[n - 1] == '0'
      invariant 0 <= n <= |s| && forall i :: n <= i < |s| ==> s[i] == '0'
    {
      n := n - 1;
    }
    assert s[n..] == Zeros(|s| - n) && s == s[..n] + s[n..];
    return s[..n];
  }

  lemma {:induction false} KeptHead(r: string, n: nat)
    requires r + Zeros(n) != "" && (r + Zeros(n))[0] != '0'
    ensures r != "" && r[0] == (r + Zeros(n))[0]
  {
    assert r == "" ==> r + Zeros(n) == Zeros(n);
  }

  /** Trimming on both sides: significant digits of the same value, or none for zero. */
  method Trim(digits: string, exponent: int, ghost v: real) returns (t: string, e: int)
    requires Is(v, digits, exponent)
    ensures t == "" ==> v == 0.0
    ensures t != "" ==> Significant(t) && Is(v, t, e)
    ensures |t| <= |digits| && |t| + e <= |digits| + exponent && e >= exponent
  {
    e := exponent;
    t := TrimLeft(digits);
    TrimmedLeft(v, |digits| - |t|, t, e);
    if t == "" {
      ScaleZero(e);
      return;
    }
    var trimmed := TrimRight(t);
    TrimmedRight(v, trimmed, |t| - |trimmed|, e);
    KeptHead(trimmed, |t| - |trimmed|);
    e := e + |t| - |trimmed|;
    t := trimmed;
  }

  /** The three cases of the source, by where the point falls. */
  method Render(t: string, e: int, ghost v: real) returns (out: string)
    requires Significant(t) && Is(v, t, e)
    ensures PlainOf(out, v) && (|out| <= |t| + e || |out| <= |t| + 1 || |out| <= 2 - e)
  {
    var position := |t| + e;
    if e >= 0 {
      RenderWhole(t, e, v);
      out := t + Zeros(e);
    } else if position > 0 {
      RenderInside(t, e, v);
      out := t[..position] + "." + t[position..];
    } else {
      RenderBelow(t, -position, v);
      out := "0." + Zeros(-position) + t;
    }
  }

  lemma {:induction false} PlainStart(s: string)
    requires IsPlain(s)
    ensures s != "" && s[0] != '-'
  {
    PartsGive(s);
    assert s[0] == IntPart(s)[0];
  }

  lemma {:induction false} SignedCanonical(negative: bool, plain: string)
    requires plain != "0" && IsPlain(plain)
    ensures var out := if negative then "-" + plain else plain;
            IsCanonical(out) && Unsigned(out) == plain && out != "0" && (out[0] == '-' <==> negative)
  {
    PlainStart(plain);
  }

  lemma {:induction false} SignedValue(number: string, out: string, v: real)
    requires IsNumber(number) && Magnitude(Unsigned(number)) == v
    requires IsCanonical(out) && out != "0" && PlainOf(Unsigned(out), v) && (out[0] == '-' <==> number[0] == '-')
    ensures CanonicalOf(number, out)
  {
    CanonicalNumberForm(out);
  }

  lemma {:induction false} ZeroValue(number: string)
    requires IsNumber(number) && Magnitude(Unsigned(number)) == 0.0
    ensures CanonicalOf(number, "0")
  {
    CanonicalNumberForm("0");
  }

  lemma {:induction false} UnsignedStretch(number: string)
    ensures Stretch(Unsigned(number)) == Stretch(number)
  {
    var t := Unsigned(number);
    var at := ExponentAt(number);
    if |t| < |number| && at >= 0 { assert number[at + 1..] == t[at - 1 + 1..]; }
  }

  method ReadValue(text: string) returns (digits: string, exponent: int, ghost v: real)
    requires IsUnsigned(text)
    ensures v == Magnitude(text) && Is(v, digits, exponent)
    ensures |digits| <= |text| && |digits| + exponent <= |text| + Stretch(text)
    ensures 2 - exponent <= |text| + Stretch(text)
  {
    ReadIs(text);
    ReadSize(text);
    v := Magnitude(text);
    digits, exponent := ReadDigits(text);
  }

  /** Digits and exponent as plain text. */
  method PrintValue(digits: string, exponent: int, ghost v: real) returns (plain: string)
    requires Is(v, digits, exponent)
    ensures plain == "0" ==> v == 0.0
    ensures plain != "0" ==> PlainOf(plain, v)
    ensures |plain| <= 1 || |plain| <= |digits| + exponent || |plain| <= |digits| + 1 || |plain| <= 2 - exponent
  {
    var t, e := Trim(digits, exponent, v);
    if t == "" { return "0"; }
    plain := Render(t, e, v);
  }

  /**
   canonicalNumber: the canonical text of the same value. It can be longer than its input, but by
   no more than the exponent allows.
   */
  method CanonicalNumber(number: string) returns (out: string)
    requires IsNumber(number)
    ensures CanonicalOf(number, out) && |out| <= |number| + Stretch(number)
  {
    var negative := number[0] == '-';
    var text := Unsigned(number);
    UnsignedStretch(number);
    var digits, exponent, v := ReadValue(text);
    out := PrintValue(digits, exponent, v);
    if out == "0" {
      ZeroValue(number);
    } else {
      SignedCanonical(negative, out);
      out := if negative then "-" + out else out;
      SignedValue(number, out, v);
    }
  }

  /** Bounded numbers have canonical text of bounded length. */
  lemma {:induction false} BoundedOutput(number: string, out: string)
    requires IsNumber(number) && Bounded(number) && |out| <= |number| + Stretch(number)
    ensures |out| <= MAX_NUMBER_BYTES + MAX_NUMBER_EXPONENT
  {
  }

  /** Two numbers have the same value exactly when their canonical texts are the same. */
  lemma {:induction false} SameValueSameText(a: string, ca: string, b: string, cb: string)
    requires CanonicalOf(a, ca) && CanonicalOf(b, cb)
    ensures Value(a) == Value(b) <==> ca == cb
  {
    if Value(a) == Value(b) { CanonicalUnique(ca, cb); }
  }

  /** Rewriting canonical text changes nothing. */
  lemma {:induction false} CanonicalIdempotent(a: string, ca: string, again: string)
    requires CanonicalOf(a, ca) && CanonicalOf(ca, again)
    ensures again == ca
  {
    CanonicalUnique(ca, again);
  }

  // ---- Whole documents ----

  /** A parsed document; text and literals are plain. */
  datatype Json = Number(number: string) | Plain(text: string) | Object(fields: map<string, Json>)
      | Array(items: seq<Json>)

  predicate Valid(v: Json) {
    match v
    case Number(s) => IsNumber(s)
    case Plain(_) => true
    case Object(fields) => forall k :: k in fields ==> Valid(fields[k])
    case Array(items) => forall i :: 0 <= i < |items| ==> Valid(items[i])
  }

  /** w is v with every number in canonical text. */
  ghost predicate Normalized(v: Json, w: Json) {
    match v
    case Number(s) => w.Number? && CanonicalOf(s, w.number)
    case Plain(_) => w == v
    case Object(fields) => w.Object? && w.fields.Keys == fields.Keys && forall k :: k in fields ==>
        Normalized(fields[k], w.fields[k])
    case Array(items) => w.Array? && |w.items| == |items| && forall i :: 0 <= i < |items| ==>
        Normalized(items[i], w.items[i])
  }

  /** The same document up to how its numbers are written. */
  ghost predicate SameDocument(v: Json, w: Json) {
    match v
    case Number(s) => w.Number? && IsNumber(s) && IsNumber(w.number) && Value(s) == Value(w.number)
    case Plain(_) => w == v
    case Object(fields) => w.Object? && w.fields.Keys == fields.Keys && forall k :: k in fields ==>
        SameDocument(fields[k], w.fields[k])
    case Array(items) => w.Array? && |w.items| == |items| && forall i :: 0 <= i < |items| ==>
        SameDocument(items[i], w.items[i])
  }

  /** normalizeNumbers: containers are rewritten entry by entry, objects in any key order. */
  method NormalizeNumbers(v: Json) returns (w: Json)
    requires Valid(v)
    ensures Normalized(v, w)
    decreases v
  {
    match v {
      case Number(s) =>
        var c := CanonicalNumber(s);
        w := Number(c);
      case Plain(_) =>
        w := v;
      case Object(fields) =>
        var out, todo := fields, fields.Keys;
        while todo != {}
          invariant todo <= fields.Keys && out.Keys == fields.Keys
          invariant forall k :: k in fields && k !in todo ==> Normalized(fields[k], out[k])
          invariant forall k :: k in todo ==> out[k] == fields[k]
        {
          var k :| k in todo;
          var child := NormalizeNumbers(fields[k]);
          out, todo := out[k := child], todo - {k};
        }
        w := Object(out);
      case Array(items) =>
        var out := items;
        var i := 0;
        while i < |items|
          invariant 0 <= i <= |items| && |out| == |items|
          invariant forall k :: 0 <= k < i ==> Normalized(items[k], out[k])
        {
          var child := NormalizeNumbers(items[i]);
          out, i := out[i := child], i + 1;
        }
        w := Array(out);
    }
  }

  /** Normalised documents are equal exactly when the originals are the same document. */
  lemma {:induction false} SameDocumentSameForm(v: Json, w: Json, v': Json, w': Json)
    requires Normalized(v, w) && Normalized(v', w')
    ensures SameDocument(v, v') <==> w == w'
    decreases v
  {
    if v.Number? && v'.Number? {
      SameValueSameText(v.number, w.number, v'.number, w'.number);
    } else if v.Object? && v'.Object? && v.fields.Keys == v'.fields.Keys {
      forall k | k in v.fields ensures SameDocument(v.fields[k], v'.fields[k]) <==> w.fields[k] == w'.fields[k] {
        SameDocumentSameForm(v.fields[k], w.fields[k], v'.fields[k], w'.fields[k]);
      }
    } else if v.Array? && v'.Array? && |v.items| == |v'.items| {
      forall i | 0 <= i < |v.items| ensures SameDocument(v.items[i], v'.items[i]) <==> w.items[i] == w'.items[i] {
        SameDocumentSameForm(v.items[i], w.items[i], v'.items[i], w'.items[i]);
      }
    }
  }

  /** What CanonicalRequest makes of a document: the rewritten value is dropped, so a bare number stays as written. */
  ghost predicate Request(v: Json, w: Json) { if v.Number? then w == v else Normalized(v, w) }

  /** CanonicalRequest after parsing and schema validation. */
  method CanonicalDocument(v: Json) returns (w: Json)
    requires Valid(v)
    ensures Request(v, w)
  {
    if v.Number? { return v; }
    w := NormalizeNumbers(v);
  }

  lemma {:induction false} OwnCanonical(s: string)
    requires IsNumber(s)
    ensures CanonicalOf(s, s) <==> IsCanonical(s)
  {
  }

  /** The form of a request is canonical if and only if it is not a bare number in another than canonical text. */
  lemma {:induction false} RequestCanonicalIff(v: Json, w: Json)
    requires Valid(v) && Request(v, w)
    ensures Normalized(v, w) <==> (v.Number? ==> IsCanonical(v.number))
  {
    if v.Number? { OwnCanonical(v.number); }
  }

  /** Bare numbers of equal value in different texts. */
  ghost predicate Respelled(v: Json, v': Json) {
    v.Number? && v'.Number? && IsNumber(v.number) && IsNumber(v'.number) && Value(v.number) == Value(v'.number)
        && v.number != v'.number
  }

  /** Two requests have one form exactly when they are one document, but for bare numbers spelled differently. */
  lemma {:induction false} RequestFormIff(v: Json, w: Json, v': Json, w': Json)
    requires Valid(v) && Valid(v') && Request(v, w) && Request(v', w')
    ensures w == w' <==> SameDocument(v, v') && !Respelled(v, v')
  {
    if !v.Number? && !v'.Number? { SameDocumentSameForm(v, w, v', w'); }
  }

  /** Such requests exist: 1.0 and 1 are one document and keep two forms. */
  lemma {:induction false} TopLevelNumberKept(w: Json, w': Json)
    requires Request(Number("1.0"), w) && Request(Number("1"), w')
    ensures SameDocument(Number("1.0"), Number("1")) && Respelled(Number("1.0"), Number("1")) && w != w'
  {
    FirstAt("1", '.', "0");
    assert "1.0" == "1" + "." + "0";
    NoPoint("1");
    assert ExponentAt("1.0") == -1;
    assert DigitsValue("1") == 1 && DigitsValue("0") == 0;
    ScaleZero(-1);
  }
}
