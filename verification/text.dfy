/** The string primitives the source takes from JavaScript: `trim`,
    `toLowerCase`/`toUpperCase`, the `\s`, `\d` and `\w` regex classes,
    `Number(text)` and `String(integer)`. All of them are modelled on ASCII;
    JavaScript's Unicode-aware versions agree with these on ASCII text. */
module Text {
  import opened Wrappers

  /** JavaScript `\s` and the characters `trim` removes, restricted to ASCII:
      space, tab, line feed, carriage return, vertical tab and form feed. */
  predicate IsSpace(c: char) {
    c == ' ' || c == '\t' || c == '\n' || c == '\r' || c == '\U{000B}' || c == '\U{000C}'
  }

  /** JavaScript `\d`. */
  predicate IsDigit(c: char) {
    '0' <= c <= '9'
  }

  /** JavaScript `\w`: the characters on either side of a `\b` word boundary. */
  predicate IsWordChar(c: char) {
    IsDigit(c) || 'a' <= c <= 'z' || 'A' <= c <= 'Z' || c == '_'
  }

  predicate AllDigits(s: string) {
    forall i :: 0 <= i < |s| ==> IsDigit(s[i])
  }

  function LowerChar(c: char): char {
    if 'A' <= c <= 'Z' then (c as int + 32) as char else c
  }

  function UpperChar(c: char): char {
    if 'a' <= c <= 'z' then (c as int - 32) as char else c
  }

  /** `s.toLowerCase()` */
  function Lower(s: string): string {
    seq(|s|, i requires 0 <= i < |s| => LowerChar(s[i]))
  }

  /** `s.toUpperCase()` */
  function Upper(s: string): string {
    seq(|s|, i requires 0 <= i < |s| => UpperChar(s[i]))
  }

  lemma LowerIdempotent(s: string)
    ensures Lower(Lower(s)) == Lower(s)
  {
  }

  lemma UpperIdempotent(s: string)
    ensures Upper(Upper(s)) == Upper(s)
  {
  }

  /** Upper-casing forgets whatever case the text had before. */
  lemma UpperOfLower(s: string)
    ensures Upper(Lower(s)) == Upper(s)
  {
  }

  /** How many UTF-16 code units encode `c`: two for a character outside the
      Basic Multilingual Plane, one otherwise. */
  function CodeUnits(c: char): nat {
    if c as int >= 0x1_0000 then 2 else 1
  }

  /** `s.length` in JavaScript, which is what zod's `.min`, `.max` and
      `.length` compare: the number of UTF-16 code units. */
  function JsLength(s: string): nat {
    if |s| == 0 then 0 else CodeUnits(s[0]) + JsLength(s[1..])
  }

  /** Every character takes one or two code units. */
  lemma {:induction false} JsLengthBounds(s: string)
    ensures |s| <= JsLength(s) <= 2 * |s|
  {
    if |s| > 0 {
      JsLengthBounds(s[1..]);
    }
  }

  /** Text inside the Basic Multilingual Plane (all ASCII text among it) has
      as many code units as characters. */
  lemma {:induction false} JsLengthBmp(s: string)
    requires forall i :: 0 <= i < |s| ==> s[i] as int < 0x1_0000
    ensures JsLength(s) == |s|
  {
    if |s| > 0 {
      JsLengthBmp(s[1..]);
    }
  }

  /** A character outside the Basic Multilingual Plane makes the text longer
      in code units than in characters. */
  lemma {:induction false} JsLengthAstral(s: string, i: nat)
    requires i < |s| && s[i] as int >= 0x1_0000
    ensures JsLength(s) > |s|
  {
    JsLengthBounds(s[1..]);
    if i > 0 {
      JsLengthAstral(s[1..], i - 1);
    }
  }

  /** Case mapping keeps the code-unit length (it only moves ASCII letters). */
  lemma {:induction false} JsLengthUpper(s: string)
    ensures JsLength(Upper(s)) == JsLength(s)
  {
    if |s| > 0 {
      JsLengthUpper(s[1..]);
      assert Upper(s)[1..] == Upper(s[1..]);
    }
  }

  /** `"a\u{1F600}".length` is 3. */
  lemma EmojiLength()
    ensures JsLength("a\U{1F600}") == 3
  {
    assert "a\U{1F600}"[1..] == "\U{1F600}";
    assert "\U{1F600}"[1..] == "";
  }

  /** Leading whitespace removed (the first half of `trim`). */
  function TrimStart(s: string): (r: string)
    ensures |r| <= |s| && r == s[|s| - |r|..]
    ensures r == [] || !IsSpace(r[0])
    ensures forall i :: 0 <= i < |s| - |r| ==> IsSpace(s[i])
    decreases |s|
  {
    if |s| > 0 && IsSpace(s[0]) then TrimStart(s[1..]) else s
  }

  /** Trailing whitespace removed (the second half of `trim`). */
  function TrimEnd(s: string): (r: string)
    ensures |r| <= |s| && r == s[..|r|]
    ensures r == [] || !IsSpace(r[|r| - 1])
    ensures forall i :: |r| <= i < |s| ==> IsSpace(s[i])
    decreases |s|
  {
    if |s| > 0 && IsSpace(s[|s| - 1]) then TrimEnd(s[..|s| - 1]) else s
  }

  /** `s.trim()` */
  function Trim(s: string): string {
    TrimEnd(TrimStart(s))
  }

  lemma {:induction false} TrimStartLower(s: string)
    ensures TrimStart(Lower(s)) == Lower(TrimStart(s))
    decreases |s|
  {
    if |s| > 0 && IsSpace(s[0]) {
      assert Lower(s)[1..] == Lower(s[1..]);
      TrimStartLower(s[1..]);
    }
  }

  lemma {:induction false} TrimEndLower(s: string)
    ensures TrimEnd(Lower(s)) == Lower(TrimEnd(s))
    decreases |s|
  {
    if |s| > 0 && IsSpace(s[|s| - 1]) {
      assert Lower(s)[..|s| - 1] == Lower(s[..|s| - 1]);
      TrimEndLower(s[..|s| - 1]);
    }
  }

  /** Trimming and lower-casing commute, so `raw.trim().toLowerCase()` and
      `raw.toLowerCase().trim()` are the same text. */
  lemma TrimLower(s: string)
    ensures Trim(Lower(s)) == Lower(Trim(s))
  {
    TrimStartLower(s);
    TrimEndLower(TrimStart(s));
  }

  /** `s.replace(/\s+/g, " ")`: every maximal run of whitespace becomes one space. */
  function CollapseSpaces(s: string): string
    decreases |s|
  {
    if |s| == 0 then ""
    else if IsSpace(s[0]) then " " + CollapseSpaces(TrimStart(s))
    else [s[0]] + CollapseSpaces(s[1..])
  }

  /** The normal form under which the source compares team names:
      trimmed, lower-cased, inner whitespace runs collapsed to one space. */
  function NormalizeName(s: string): string {
    CollapseSpaces(Lower(Trim(s)))
  }

  /** Lower-casing a name first does not change its normal form. */
  lemma NormalizeNameLower(s: string)
    ensures NormalizeName(Lower(s)) == NormalizeName(s)
  {
    TrimLower(s);
    LowerIdempotent(Trim(s));
  }

  /** `parts.join(sep)` */
  function Join(parts: seq<string>, sep: string): string
    decreases |parts|
  {
    if |parts| == 0 then ""
    else if |parts| == 1 then parts[0]
    else parts[0] + sep + Join(parts[1..], sep)
  }

  /** The end of the maximal run of digits that starts at `i`
      (how far a greedy `\d*` reaches). */
  function DigitRunEnd(s: string, i: nat): (j: nat)
    requires i <= |s|
    ensures i <= j <= |s|
    ensures forall k :: i <= k < j ==> IsDigit(s[k])
    ensures j == |s| || !IsDigit(s[j])
    decreases |s| - i
  {
    if i < |s| && IsDigit(s[i]) then DigitRunEnd(s, i + 1) else i
  }

  /** The end of the maximal run of whitespace that starts at `i`
      (how far a greedy `\s*` reaches). */
  function SpaceRunEnd(s: string, i: nat): (j: nat)
    requires i <= |s|
    ensures i <= j <= |s|
    ensures forall k :: i <= k < j ==> IsSpace(s[k])
    ensures j == |s| || !IsSpace(s[j])
    decreases |s| - i
  {
    if i < |s| && IsSpace(s[i]) then SpaceRunEnd(s, i + 1) else i
  }

  function DigitValue(c: char): nat
    requires IsDigit(c)
  {
    c as int - '0' as int
  }

  function DigitChar(d: nat): char
    requires d < 10
  {
    ('0' as int + d) as char
  }

  function Pow10(n: nat): (p: nat)
    ensures p >= 1
  {
    if n == 0 then 1 else 10 * Pow10(n - 1)
  }

  /** The value of a string of decimal digits. */
  function NatValue(s: string): nat
    requires AllDigits(s)
    decreases |s|
  {
    if |s| == 0 then 0 else NatValue(s[..|s| - 1]) * 10 + DigitValue(s[|s| - 1])
  }

  /** The value of the decimal numeral `intDigits.fracDigits`, exactly. */
  function DecimalValue(intDigits: string, fracDigits: string): real
    requires AllDigits(intDigits) && AllDigits(fracDigits)
  {
    NatValue(intDigits) as real + NatValue(fracDigits) as real / Pow10(|fracDigits|) as real
  }

  /** `String(n)` for a non-negative integer. */
  function NatToString(n: nat): string
    decreases n
  {
    if n < 10 then [DigitChar(n)] else NatToString(n / 10) + [DigitChar(n % 10)]
  }

  /** `String(n)` for an integer. */
  function IntToString(n: int): string {
    if n < 0 then "-" + NatToString(-n) else NatToString(n)
  }

  /** Reading back the digits `NatToString` produced gives the number, and the
      numeral has no superfluous leading zero. */
  lemma {:induction false} NatToStringRoundTrip(n: nat)
    ensures AllDigits(NatToString(n))
    ensures NatValue(NatToString(n)) == n
    ensures |NatToString(n)| >= 1 && (NatToString(n)[0] == '0' ==> n == 0)
    decreases n
  {
    if n >= 10 {
      NatToStringRoundTrip(n / 10);
      var s := NatToString(n);
      assert s[..|s| - 1] == NatToString(n / 10);
    }
  }

  /** The numeric value of a string, as JavaScript's `Number(text)` computes it
      (the StringNumericLiteral grammar of section 7.1.4.1 of ECMA-262):
      surrounding whitespace is ignored and the empty string is 0; otherwise
      the text is a decimal numeral with an optional sign and an optional
      exponent, `Infinity` with an optional sign, or an unsigned `0x`, `0o` or
      `0b` integer. `None` stands for `NaN` and for the two infinities: neither
      is a finite number, and every caller here treats them alike (a zod
      integer check rejects both, `JSON.stringify` writes both as `null`). */
  function JsNumber(s: string): Option<real> {
    NumericLiteral(Trim(s))
  }

  /** The value of trimmed text. */
  function NumericLiteral(t: string): Option<real> {
    if t == "" then Some(0.0)
    else if |t| >= 2 && t[0] == '0' && RadixOf(t[1]).Some? then RadixValue(t[2..], RadixOf(t[1]).value)
    else if t[0] == '-' then
      match UnsignedDecimal(t[1..])
      case Some(v) => Some(-v)
      case None => None
    else if t[0] == '+' then UnsignedDecimal(t[1..])
    else UnsignedDecimal(t)
  }

  /** An unsigned decimal numeral: a mantissa, then optionally `e` or `E` and
      a signed exponent. `Infinity` has no finite value and falls out as `None`. */
  function UnsignedDecimal(t: string): Option<real> {
    var e := ExponentStart(t, 0);
    match Mantissa(t[..e])
    case None => None
    case Some(m) =>
      if e == |t| then Some(m)
      else
        match ExponentValue(t[e + 1..])
        case None => None
        case Some(x) => Some(Scaled(m, x))
  }

  /** The index of the first `e` or `E` at or after `i`, or the length. */
  function ExponentStart(t: string, i: nat): (e: nat)
    requires i <= |t|
    ensures i <= e <= |t|
    ensures e < |t| ==> t[e] == 'e' || t[e] == 'E'
    ensures forall j :: i <= j < e ==> t[j] != 'e' && t[j] != 'E'
    decreases |t| - i
  {
    if i == |t| || t[i] == 'e' || t[i] == 'E' then i else ExponentStart(t, i + 1)
  }

  /** A mantissa `d+`, `d+.`, `d+.d+` or `.d+`. */
  function Mantissa(t: string): Option<real> {
    var k := DigitRunEnd(t, 0);
    if k == |t| && k > 0 then Some(NatValue(t) as real)
    else if k < |t| && t[k] == '.' && AllDigits(t[k + 1..]) && (k > 0 || k + 1 < |t|) then
      Some(DecimalValue(t[..k], t[k + 1..]))
    else None
  }

  /** An exponent: an optional sign and at least one digit. */
  function ExponentValue(t: string): Option<int> {
    if |t| > 0 && (t[0] == '+' || t[0] == '-') then
      (if |t| > 1 && AllDigits(t[1..]) then
         var n: int := NatValue(t[1..]);
         Some(if t[0] == '-' then -n else n)
       else None)
    else if |t| > 0 && AllDigits(t) then Some(NatValue(t))
    else None
  }

  /** `m` times ten to the power `x`, exactly. */
  function Scaled(m: real, x: int): real {
    if x >= 0 then m * Pow10(x) as real else m / Pow10(-x) as real
  }

  /** The radix a `0x`, `0o` or `0b` prefix selects, in either case. */
  function RadixOf(c: char): Option<nat> {
    if c == 'x' || c == 'X' then Some(16)
    else if c == 'o' || c == 'O' then Some(8)
    else if c == 'b' || c == 'B' then Some(2)
    else None
  }

  /** The value of one digit in the given radix: `0`-`9`, then `a`-`f` or
      `A`-`F`; `None` when the character is not a digit of that radix. */
  function RadixDigit(c: char, radix: nat): Option<nat> {
    var d: int :=
      if IsDigit(c) then c as int - '0' as int
      else if 'a' <= c <= 'f' then c as int - 'a' as int + 10
      else if 'A' <= c <= 'F' then c as int - 'A' as int + 10
      else radix;
    if 0 <= d < radix then Some(d) else None
  }

  /** The value of at least one digit in the given radix; no sign, point or
      exponent is allowed after a radix prefix. */
  function RadixValue(ds: string, radix: nat): Option<real> {
    if |ds| == 0 then None
    else
      match RadixNat(ds, radix)
      case Some(n) => Some(n as real)
      case None => None
  }

  function RadixNat(ds: string, radix: nat): Option<nat>
    decreases |ds|
  {
    if |ds| == 0 then Some(0)
    else
      match (RadixNat(ds[..|ds| - 1], radix), RadixDigit(ds[|ds| - 1], radix))
      case (Some(high), Some(low)) => Some(high * radix + low)
      case _ => None
  }

  /** Text that neither starts nor ends with whitespace is its own trim. */
  lemma TrimUnpadded(s: string)
    requires |s| > 0 && !IsSpace(s[0]) && !IsSpace(s[|s| - 1])
    ensures Trim(s) == s
  {
  }

  lemma {:induction false} TrimStartSpaces(pre: string, t: string)
    requires forall i :: 0 <= i < |pre| ==> IsSpace(pre[i])
    requires t == [] || !IsSpace(t[0])
    ensures TrimStart(pre + t) == t
    decreases |pre|
  {
    if |pre| > 0 {
      assert (pre + t)[1..] == pre[1..] + t;
      TrimStartSpaces(pre[1..], t);
    }
  }

  lemma {:induction false} TrimEndSpaces(t: string, post: string)
    requires forall i :: 0 <= i < |post| ==> IsSpace(post[i])
    requires t == [] || !IsSpace(t[|t| - 1])
    ensures TrimEnd(t + post) == t
    decreases |post|
  {
    if |post| > 0 {
      assert (t + post)[..|t + post| - 1] == t + post[..|post| - 1];
      TrimEndSpaces(t, post[..|post| - 1]);
    }
  }

  /** Trimming removes exactly the whitespace padding around unpadded text. */
  lemma TrimPadding(pre: string, t: string, post: string)
    requires forall i :: 0 <= i < |pre| ==> IsSpace(pre[i])
    requires forall i :: 0 <= i < |post| ==> IsSpace(post[i])
    requires |t| > 0 && !IsSpace(t[0]) && !IsSpace(t[|t| - 1])
    ensures Trim(pre + t + post) == t
  {
    assert pre + t + post == pre + (t + post);
    TrimStartSpaces(pre, t + post);
    TrimEndSpaces(t, post);
  }

  /** Unpadded text without upper-case letters is unchanged by `trim` and
      `toLowerCase`. */
  lemma PlainText(v: string)
    requires |v| > 0 && !IsSpace(v[0]) && !IsSpace(v[|v| - 1])
    requires forall i :: 0 <= i < |v| ==> !('A' <= v[i] <= 'Z')
    ensures Lower(Trim(v)) == v
  {
    TrimUnpadded(v);
    assert Lower(v) == v;
  }

  lemma NaturalNumeral(m: nat)
    ensures UnsignedDecimal(NatToString(m)) == Some(m as real)
    ensures Mantissa(NatToString(m)) == Some(m as real)
    ensures AllDigits(NatToString(m))
    ensures !IsSpace(NatToString(m)[0]) && !IsSpace(NatToString(m)[|NatToString(m)| - 1])
    ensures NatToString(m)[0] != '-' && NatToString(m)[0] != '+'
  {
    NatToStringRoundTrip(m);
    var d := NatToString(m);
    assert IsDigit(d[0]) && IsDigit(d[|d| - 1]);
    assert DigitRunEnd(d, 0) == |d|;
    assert ExponentStart(d, 0) == |d|;
    assert d[..|d|] == d;
  }

  /** `Number(String(n))` is `n` for every integer. */
  lemma IntToStringIsNumber(n: int)
    ensures JsNumber(IntToString(n)) == Some(n as real)
  {
    if n < 0 {
      var m: nat := -n;
      var s := "-" + NatToString(m);
      assert IntToString(n) == s;
      NegativeNumber(m);
      assert JsNumber(s) == Some(-(m as real));
    } else {
      NaturalNumber(n);
    }
  }

  lemma NaturalNumber(m: nat)
    ensures JsNumber(NatToString(m)) == Some(m as real)
  {
    NaturalNumeral(m);
    var d := NatToString(m);
    assert |d| >= 2 ==> IsDigit(d[1]);
    DecimalText(d);
  }

  lemma NegativeNumber(m: nat)
    requires m > 0
    ensures JsNumber("-" + NatToString(m)) == Some(-(m as real))
  {
    NegativeNumberAt(m, "-" + NatToString(m));
  }

  lemma NegativeNumberAt(m: nat, s: string)
    requires m > 0 && s == "-" + NatToString(m)
    ensures JsNumber(s) == Some(-(m as real))
  {
    NegativeNumeral(m, s);
    NegativeText(s);
  }

  lemma NegativeNumeral(m: nat, s: string)
    requires m > 0 && s == "-" + NatToString(m)
    ensures |s| >= 2 && s[0] == '-' && !IsSpace(s[|s| - 1]) && UnsignedDecimal(s[1..]) == Some(m as real)
  {
    NaturalNumeral(m);
    var d := NatToString(m);
    assert s[1..] == d;
    assert s[|s| - 1] == d[|d| - 1];
  }

  /** Exponent notation scales exactly: `Number("<m>e<k>")` is m times 10^k. */
  lemma ExponentNumeral(m: nat, k: nat)
    ensures JsNumber(NatToString(m) + "e" + NatToString(k)) == Some((m * Pow10(k)) as real)
  {
    NatToStringRoundTrip(m);
    NatToStringRoundTrip(k);
    ExponentText(NatToString(m), NatToString(k));
    ExponentDecimal(NatToString(m), NatToString(k));
  }

  lemma ExponentText(d: string, dk: string)
    requires |d| > 0 && AllDigits(d) && |dk| > 0 && AllDigits(dk)
    ensures JsNumber(d + "e" + dk) == UnsignedDecimal(d + "e" + dk)
  {
    var t := d + "e" + dk;
    assert IsDigit(t[0]) && IsDigit(t[|t| - 1]);
    assert t[1] == 'e' || IsDigit(t[1]);
    DecimalText(t);
  }

  lemma ExponentDecimal(d: string, dk: string)
    requires |d| > 0 && AllDigits(d) && |dk| > 0 && AllDigits(dk)
    ensures UnsignedDecimal(d + "e" + dk) == Some((NatValue(d) * Pow10(NatValue(dk))) as real)
  {
    var t := d + "e" + dk;
    ExponentAfterDigits(d, "e" + dk);
    assert d + ("e" + dk) == t;
    assert t[..|d|] == d;
    assert t[|d| + 1..] == dk;
    DigitsMantissa(d);
    DigitsExponent(dk);
    ExponentForm(t, |d|, NatValue(d) as real, NatValue(dk));
    ScaledNat(NatValue(d), NatValue(dk));
  }

  /** A mantissa and an exponent around the first `e` scale each other. */
  lemma ExponentForm(t: string, e: nat, m: real, x: int)
    requires e < |t| && ExponentStart(t, 0) == e
    requires Mantissa(t[..e]) == Some(m) && ExponentValue(t[e + 1..]) == Some(x)
    ensures UnsignedDecimal(t) == Some(Scaled(m, x))
  {
  }

  lemma DigitsMantissa(d: string)
    requires |d| > 0 && AllDigits(d)
    ensures Mantissa(d) == Some(NatValue(d) as real)
  {
    assert DigitRunEnd(d, 0) == |d|;
  }

  lemma DigitsExponent(dk: string)
    requires |dk| > 0 && AllDigits(dk)
    ensures ExponentValue(dk) == Some(NatValue(dk) as int)
  {
    assert IsDigit(dk[0]);
  }

  lemma ScaledNat(m: nat, x: nat)
    ensures Scaled(m as real, x) == (m * Pow10(x)) as real
  {
  }

  lemma ExponentAfterDigits(d: string, rest: string)
    requires AllDigits(d) && |rest| > 0 && (rest[0] == 'e' || rest[0] == 'E')
    ensures ExponentStart(d + rest, 0) == |d|
  {
    var t := d + rest;
    assert t[|d|] == rest[0];
    assert forall j :: 0 <= j < |d| ==> IsDigit(t[j]);
  }

  /** Unpadded text that starts with a digit and has no radix prefix is read
      as an unsigned decimal numeral. */
  lemma DecimalText(t: string)
    requires |t| > 0 && IsDigit(t[0]) && !IsSpace(t[|t| - 1])
    requires |t| >= 2 ==> RadixOf(t[1]).None?
    ensures JsNumber(t) == UnsignedDecimal(t)
  {
    TrimUnpadded(t);
    assert t != "" && t[0] != '-' && t[0] != '+';
  }

  /** Unpadded text behind a minus sign is the negated unsigned numeral. */
  lemma NegativeText(t: string)
    requires |t| >= 2 && t[0] == '-' && !IsSpace(t[|t| - 1])
    ensures UnsignedDecimal(t[1..]).None? ==> JsNumber(t).None?
    ensures UnsignedDecimal(t[1..]).Some? ==> JsNumber(t) == Some(-UnsignedDecimal(t[1..]).value)
  {
    TrimUnpadded(t);
  }

  /** Unpadded text with a radix prefix is read as an integer in that radix. */
  lemma RadixText(t: string)
    requires |t| >= 2 && t[0] == '0' && RadixOf(t[1]).Some? && !IsSpace(t[|t| - 1])
    ensures JsNumber(t) == RadixValue(t[2..], RadixOf(t[1]).value)
  {
    TrimUnpadded(t);
  }

  /** Instances of the other forms: a negative exponent, the radix prefixes in
      either case, and what reads as no finite number. */
  lemma HundredInExponentForm()
    ensures JsNumber("1e2") == Some(100.0)
  {
    DecimalText("1e2");
    HundredDecimal();
  }

  lemma HundredDecimal()
    ensures UnsignedDecimal("1e2") == Some(100.0)
  {
    assert ExponentStart("1e2", 0) == 1;
    assert "1e2"[..1] == "1" && "1e2"[2..] == "2";
    assert Mantissa("1") == Some(1.0);
    assert ExponentValue("2") == Some(2);
  }

  lemma QuarterInExponentForm()
    ensures JsNumber(" 2.5E-1 ") == Some(0.25)
  {
    var t := "2.5E-1";
    TrimPadding(" ", t, " ");
    assert " " + t + " " == " 2.5E-1 ";
    assert JsNumber(" 2.5E-1 ") == UnsignedDecimal(t);
    QuarterDecimal();
  }

  lemma QuarterDecimal()
    ensures UnsignedDecimal("2.5E-1") == Some(0.25)
  {
    var t := "2.5E-1";
    assert ExponentStart(t, 0) == 3;
    assert t[..3] == "2.5" && t[4..] == "-1";
    assert Mantissa("2.5") == Some(2.5) by {
      assert DigitRunEnd("2.5", 0) == 1;
      assert "2.5"[..1] == "2" && "2.5"[2..] == "5";
    }
    assert ExponentValue("-1") == Some(-1) by {
      assert "-1"[1..] == "1";
    }
  }

  /** A radix-prefixed text whose digits read as n is the number n. */
  lemma RadixNumeral(t: string, n: nat)
    requires |t| > 2 && t[0] == '0' && RadixOf(t[1]).Some? && !IsSpace(t[|t| - 1])
    requires RadixNat(t[2..], RadixOf(t[1]).value) == Some(n)
    ensures JsNumber(t) == Some(n as real)
  {
    RadixText(t);
  }

  lemma HexNumber()
    ensures JsNumber("0x1F") == Some(31.0)
  {
    assert "0x1F"[2..] == "1F";
    HexThirtyOne();
    RadixNumeral("0x1F", 31);
  }

  lemma HexThirtyOne()
    ensures RadixNat("1F", 16) == Some(31)
  {
    assert "1F"[..1] == "1" && "1"[..0] == "";
  }

  lemma HexSixteen()
    ensures JsNumber("0x10") == Some(16.0)
  {
    assert "0x10"[2..] == "10";
    assert RadixNat("10", 16) == Some(16) by {
      assert "10"[..1] == "1" && "1"[..0] == "";
    }
    RadixNumeral("0x10", 16);
  }

  lemma BinaryNumber()
    ensures JsNumber("0B101") == Some(5.0)
  {
    assert "0B101"[2..] == "101";
    BinaryFive();
    RadixNumeral("0B101", 5);
  }

  lemma BinaryFive()
    ensures RadixNat("101", 2) == Some(5)
  {
    assert "101"[..2] == "10" && "10"[..1] == "1" && "1"[..0] == "";
  }

  /** A sign may not precede a radix prefix, and a prefix needs a digit. */
  lemma SignedHexIsNaN()
    ensures JsNumber("-0x10").None?
  {
    NegativeText("-0x10");
    assert "-0x10"[1..] == "0x10";
    HexIsNotDecimal();
  }

  lemma HexIsNotDecimal()
    ensures UnsignedDecimal("0x10").None?
  {
    assert ExponentStart("0x10", 0) == 4;
    assert "0x10"[..4] == "0x10";
    assert DigitRunEnd("0x10", 0) == 1;
  }

  lemma BarePrefixIsNaN()
    ensures JsNumber("0x").None?
  {
    RadixText("0x");
  }

  lemma InfinityIsNotFinite()
    ensures JsNumber("Infinity").None?
  {
    WordIsNaN("Infinity");
  }

  /** Text that starts with neither a digit nor a point has no decimal value. */
  lemma NonNumericStart(t: string)
    requires |t| > 0 && !IsDigit(t[0]) && t[0] != '.'
    ensures UnsignedDecimal(t).None?
  {
    var e := ExponentStart(t, 0);
    if e > 0 {
      assert t[..e][0] == t[0];
      assert DigitRunEnd(t[..e], 0) == 0;
    }
  }

  /** Unpadded text that starts with anything but a digit, a point or a sign
      (a word such as `Infinity`, or `abc`) is not a finite number. */
  lemma WordIsNaN(t: string)
    requires |t| > 0 && !IsSpace(t[0]) && !IsSpace(t[|t| - 1])
    requires !IsDigit(t[0]) && t[0] != '.' && t[0] != '+' && t[0] != '-'
    ensures JsNumber(t).None?
  {
    TrimUnpadded(t);
    NonNumericStart(t);
  }

  lemma EmptyExponentIsNaN()
    ensures JsNumber("1e").None?
  {
    DecimalText("1e");
    EmptyExponent();
  }

  lemma EmptyExponent()
    ensures UnsignedDecimal("1e").None?
  {
    assert ExponentStart("1e", 0) == 1;
    assert "1e"[2..] == "";
  }

}
