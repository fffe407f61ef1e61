/** Lexical layer of the SVG path-data tokenizer: the character classes its
    regular expressions use, the numeral pattern `-?([0-9]*\.)?[0-9]+`, and the
    exact value of a numeral. */
module PathSyntax {

  /** `\s` of a JavaScript regular expression (ECMAScript WhiteSpace and
      LineTerminator code points). */
  predicate IsSpace(c: char) {
    || c == ' ' || c == '\t' || c == '\n' || c == '\r'
    || c == '\U{B}' || c == '\U{C}' || c == '\U{A0}' || c == '\U{1680}'
    || ('\U{2000}' <= c <= '\U{200A}')
    || c == '\U{2028}' || c == '\U{2029}' || c == '\U{202F}' || c == '\U{205F}'
    || c == '\U{3000}' || c == '\U{FEFF}'
  }

  /** `[a-zA-Z]` */
  predicate IsLetter(c: char) {
    ('a' <= c <= 'z') || ('A' <= c <= 'Z')
  }

  /** `[0-9]` */
  predicate IsDigit(c: char) {
    '0' <= c <= '9'
  }

  predicate AllDigits(s: string) {
    forall i :: 0 <= i < |s| ==> IsDigit(s[i])
  }

  predicate AllSpace(s: string) {
    forall i :: 0 <= i < |s| ==> IsSpace(s[i])
  }

  /** `s.replace(/^\s+/, '')`: drop the longest all-whitespace prefix. */
  function TrimStart(s: string): (t: string)
    ensures |t| <= |s|
    ensures t == [] || !IsSpace(t[0])
    ensures t == [] <==> AllSpace(s)
  {
    if s != [] && IsSpace(s[0]) then TrimStart(s[1..]) else s
  }

  /** `TrimStart` splits its input into a whitespace run and the rest. */
  lemma {:induction false} TrimStartSplit(s: string)
    ensures s == s[..|s| - |TrimStart(s)|] + TrimStart(s)
    ensures AllSpace(s[..|s| - |TrimStart(s)|])
  {
    if s != [] && IsSpace(s[0]) {
      var r, t := s[1..], TrimStart(s);
      assert t == TrimStart(r);
      TrimStartSplit(r);
      var n := |r| - |t|;
      var w := r[..n];
      assert s[..n + 1] == [s[0]] + w by {
        assert forall j :: 0 < j <= n ==> s[j] == w[j - 1];
      }
      assert s == ([s[0]] + w) + t by {
        assert s == [s[0]] + r;
        assert r == w + t;
      }
      assert AllSpace([s[0]] + w) by {
        assert forall j :: 0 < j <= n ==> ([s[0]] + w)[j] == w[j - 1];
      }
    }
  }

  /** Whitespace in front of text is trimmed along with the text's own. */
  lemma {:induction false} TrimSpacePrefix(ws: string, t: string)
    requires AllSpace(ws)
    ensures TrimStart(ws + t) == TrimStart(t)
  {
    if ws != [] {
      assert (ws + t)[1..] == ws[1..] + t;
      TrimSpacePrefix(ws[1..], t);
    } else {
      assert ws + t == t;
    }
  }

  /** Length of the longest all-digit prefix of `s`. */
  function LeadingDigits(s: string): (n: nat)
    ensures n <= |s|
    ensures AllDigits(s[..n])
    ensures n == |s| || !IsDigit(s[n])
  {
    if s != [] && IsDigit(s[0]) then 1 + LeadingDigits(s[1..]) else 0
  }

  /** The unsigned part of the numeral pattern: `([0-9]*\.)?[0-9]+`. */
  ghost predicate IsUnsignedNumeral(t: string) {
    || (|t| > 0 && AllDigits(t))
    || (exists i :: 0 <= i < |t| - 1 && t[i] == '.' && AllDigits(t[..i]) && AllDigits(t[i + 1..]))
  }

  /** The whole numeral pattern `-?([0-9]*\.)?[0-9]+` (no exponent, no `+`). */
  ghost predicate IsNumeral(s: string) {
    if |s| > 0 && s[0] == '-' then IsUnsignedNumeral(s[1..]) else IsUnsignedNumeral(s)
  }

  /** Every string of `args` is a numeral. */
  ghost predicate AllNumerals(args: seq<string>) {
    forall i :: 0 <= i < |args| ==> IsNumeral(args[i])
  }

  lemma PrependNumeral(x: string, xs: seq<string>)
    requires IsNumeral(x) && AllNumerals(xs)
    ensures AllNumerals([x] + xs)
  {
    assert forall i :: 0 < i <= |xs| ==> ([x] + xs)[i] == xs[i - 1];
  }

  /** Length of the text matched by `/^-?([0-9]*\.)?[0-9]+/.exec(s)`, or 0
      when the match is `null`. */
  function NumberPrefix(s: string): (n: nat)
    ensures n <= |s|
    ensures n > 0 ==> IsNumeral(s[..n])
  {
    var p := if |s| > 0 && s[0] == '-' then 1 else 0;
    var a := LeadingDigits(s[p..]);
    var q := p + a;
    var b := if q < |s| && s[q] == '.' then LeadingDigits(s[q + 1..]) else 0;
    var n := if b > 0 then q + 1 + b else if a > 0 then q else 0;
    NumberPrefixSound(s, p, a, b, n);
    n
  }

  /** The backtracking matcher returns the longest prefix of `s` that matches
      the numeral pattern; no match (0) means no prefix matches. */
  lemma NumberPrefixLongest(s: string)
    ensures forall k :: NumberPrefix(s) < k <= |s| ==> !IsNumeral(s[..k])
  {
    var p := if |s| > 0 && s[0] == '-' then 1 else 0;
    var a := LeadingDigits(s[p..]);
    var q := p + a;
    var b := if q < |s| && s[q] == '.' then LeadingDigits(s[q + 1..]) else 0;
    NumberPrefixMaximal(s, p, a, b, NumberPrefix(s));
  }

  lemma NumberPrefixSound(s: string, p: nat, a: nat, b: nat, n: nat)
    requires p == (if |s| > 0 && s[0] == '-' then 1 else 0)
    requires a == LeadingDigits(s[p..])
    requires b == (if p + a < |s| && s[p + a] == '.' then LeadingDigits(s[p + a + 1..]) else 0)
    requires n == (if b > 0 then p + a + 1 + b else if a > 0 then p + a else 0)
    ensures n <= |s|
    ensures n > 0 ==> IsNumeral(s[..n])
  {
    if b > 0 {
      var t := s[..n][p..];
      assert t == s[p..n];
      assert t[..a] == s[p..][..a];
      assert t[a + 1..] == s[p + a + 1..][..b];
      assert 0 <= a < |t| - 1 && t[a] == '.' && AllDigits(t[..a]) && AllDigits(t[a + 1..]);
    } else if a > 0 {
      assert s[..n][p..] == s[p..][..a];
    }
  }

  lemma NumberPrefixMaximal(s: string, p: nat, a: nat, b: nat, n: nat)
    requires p == (if |s| > 0 && s[0] == '-' then 1 else 0)
    requires a == LeadingDigits(s[p..])
    requires b == (if p + a < |s| && s[p + a] == '.' then LeadingDigits(s[p + a + 1..]) else 0)
    requires n == (if b > 0 then p + a + 1 + b else if a > 0 then p + a else 0)
    ensures forall k :: n < k <= |s| ==> !IsNumeral(s[..k])
  {
    forall k | 0 <= k <= |s| && IsNumeral(s[..k])
      ensures k <= n
    {
      NumeralPrefixBound(s, p, a, b, n, k);
    }
  }

  /** Any numeral prefix of `s` is no longer than the computed match. */
  lemma NumeralPrefixBound(s: string, p: nat, a: nat, b: nat, n: nat, k: nat)
    requires p == (if |s| > 0 && s[0] == '-' then 1 else 0)
    requires a == LeadingDigits(s[p..])
    requires b == (if p + a < |s| && s[p + a] == '.' then LeadingDigits(s[p + a + 1..]) else 0)
    requires n == (if b > 0 then p + a + 1 + b else if a > 0 then p + a else 0)
    requires k <= |s| && IsNumeral(s[..k])
    ensures k <= n
  {
    var u := s[p..];
    assert |s[..k]| > 0;
    assert p <= k;
    if p == 1 {
      assert s[..k][1..] == u[..k - p];
    } else {
      assert s[..k] == u[..k - p];
    }
    if p + a < |s| {
      assert u[a + 1..] == s[p + a + 1..];
    }
    UnsignedPrefixBound(u, a, b, k - p);
  }

  /** The same bound for the unsigned part `([0-9]*\.)?[0-9]+`. */
  lemma UnsignedPrefixBound(u: string, a: nat, b: nat, k: nat)
    requires a == LeadingDigits(u)
    requires b == (if a < |u| && u[a] == '.' then LeadingDigits(u[a + 1..]) else 0)
    requires k <= |u| && IsUnsignedNumeral(u[..k])
    ensures 0 < k <= (if b > 0 then a + 1 + b else a)
  {
    var t := u[..k];
    if |t| > 0 && AllDigits(t) {
      DigitRunBound(u, k);
    } else {
      var i :| 0 <= i < |t| - 1 && t[i] == '.' && AllDigits(t[..i]) && AllDigits(t[i + 1..]);
      DottedPrefixBound(u, a, b, k, i);
    }
  }

  lemma DottedPrefixBound(u: string, a: nat, b: nat, k: nat, i: nat)
    requires a == LeadingDigits(u)
    requires b == (if a < |u| && u[a] == '.' then LeadingDigits(u[a + 1..]) else 0)
    requires i + 1 < k <= |u| && u[i] == '.'
    requires AllDigits(u[..k][..i]) && AllDigits(u[..k][i + 1..])
    ensures 0 < k <= (if b > 0 then a + 1 + b else a)
  {
    IntegerPartLength(u, k, i);
    FractionPartBound(u, k, i);
  }

  lemma IntegerPartLength(u: string, k: nat, i: nat)
    requires i < k <= |u| && u[i] == '.' && AllDigits(u[..k][..i])
    ensures LeadingDigits(u) == i
  {
    assert u[..k][..i] == u[..i];
    DigitRunLength(u, i);
  }

  lemma FractionPartBound(u: string, k: nat, i: nat)
    requires i + 1 < k <= |u| && AllDigits(u[..k][i + 1..])
    ensures k - i - 1 <= LeadingDigits(u[i + 1..])
  {
    assert u[..k][i + 1..] == u[i + 1..][..k - i - 1];
    DigitRunBound(u[i + 1..], k - i - 1);
  }

  lemma {:induction false} DigitRunBound(t: string, k: nat)
    requires k <= |t| && AllDigits(t[..k])
    ensures k <= LeadingDigits(t)
  {
    if k > 0 {
      assert IsDigit(t[..k][0]);
      assert t[1..][..k - 1] == t[..k][1..];
      DigitRunBound(t[1..], k - 1);
    }
  }

  lemma {:induction false} DigitRunLength(t: string, i: nat)
    requires i < |t| && AllDigits(t[..i]) && !IsDigit(t[i])
    ensures LeadingDigits(t) == i
  {
    if i > 0 {
      assert IsDigit(t[..i][0]);
      assert t[1..][..i - 1] == t[..i][1..];
      DigitRunLength(t[1..], i - 1);
    }
  }

  /** The decimal value of an all-digit string. */
  function DigitsValue(s: string): nat
    requires AllDigits(s)
  {
    if s == [] then 0 else DigitsValue(s[..|s| - 1]) * 10 + (s[|s| - 1] as int - '0' as int)
  }

  function Pow10(n: nat): (r: nat)
    ensures r > 0
  {
    if n == 0 then 1 else 10 * Pow10(n - 1)
  }

  lemma UnsignedShape(t: string)
    requires IsUnsignedNumeral(t)
    ensures LeadingDigits(t) < |t| ==>
      LeadingDigits(t) < |t| - 1 && t[LeadingDigits(t)] == '.' && AllDigits(t[LeadingDigits(t) + 1..])
  {
    var a := LeadingDigits(t);
    if a < |t| {
      assert !IsDigit(t[a]);
      if !AllDigits(t) {
        var i :| 0 <= i < |t| - 1 && t[i] == '.' && AllDigits(t[..i]) && AllDigits(t[i + 1..]);
        DigitRunLength(t, i);
        assert a == i;
      }
    }
  }

  /** The exact value of an unsigned numeral: integer part plus fraction. */
  function UnsignedValue(t: string): (r: real)
    requires IsUnsignedNumeral(t)
    ensures r >= 0.0
  {
    var a := LeadingDigits(t);
    UnsignedShape(t);
    if a == |t| then DigitsValue(t) as real
    else
      var q := DigitsValue(t[a + 1..]) as real / Pow10(|t| - a - 1) as real;
      RatioNonNegative(DigitsValue(t[a + 1..]), Pow10(|t| - a - 1), q);
      DigitsValue(t[..a]) as real + q
  }

  lemma RatioNonNegative(n: nat, p: nat, q: real)
    requires p > 0 && q == n as real / p as real
    ensures q >= 0.0
  {
    assert q * p as real == n as real;
  }

  /** The number a numeral denotes, as an exact real (the script's
      `parseFloat` rounds this to the nearest double). */
  function NumeralValue(s: string): (r: real)
    requires IsNumeral(s)
    ensures r < 0.0 ==> s[0] == '-'
    ensures s[0] == '-' ==> r <= 0.0
  {
    if |s| > 0 && s[0] == '-' then -UnsignedValue(s[1..]) else UnsignedValue(s)
  }

  /** A run of digits denotes its decimal value. */
  lemma IntegerNumeral(ip: string)
    requires |ip| > 0 && AllDigits(ip)
    ensures IsNumeral(ip)
    ensures NumeralValue(ip) == DigitsValue(ip) as real
  {
  }

  /** `ip.fp` denotes the integer part plus the fraction digits scaled down
      by ten per digit. */
  lemma DecimalNumeral(ip: string, fp: string)
    requires AllDigits(ip) && |fp| > 0 && AllDigits(fp)
    ensures IsNumeral(ip + "." + fp)
    ensures NumeralValue(ip + "." + fp)
            == DigitsValue(ip) as real + DigitsValue(fp) as real / Pow10(|fp|) as real
  {
    var t := ip + "." + fp;
    assert t[..|ip|] == ip && t[|ip| + 1..] == fp;
    assert IsUnsignedNumeral(t);
    DigitRunLength(t, |ip|);
  }

  /** A leading `-` negates the value. */
  lemma NegativeNumeral(t: string)
    requires IsNumeral(t) && t[0] != '-'
    ensures IsNumeral("-" + t)
    ensures NumeralValue("-" + t) == -NumeralValue(t)
  {
    assert ("-" + t)[1..] == t;
  }

  /** Every character of a numeral after the first is a digit or a point. */
  lemma NumeralTail(s: string)
    requires IsNumeral(s)
    ensures |s| > 0
    ensures forall j :: 0 < j < |s| ==> IsDigit(s[j]) || s[j] == '.'
  {
    var t := if |s| > 0 && s[0] == '-' then s[1..] else s;
    if !(|t| > 0 && AllDigits(t)) {
      var i :| 0 <= i < |t| - 1 && t[i] == '.' && AllDigits(t[..i]) && AllDigits(t[i + 1..]);
      forall j | 0 <= j < |t|
        ensures IsDigit(t[j]) || t[j] == '.'
      {
        if j < i {
          assert t[..i][j] == t[j];
        } else if j > i {
          assert t[i + 1..][j - i - 1] == t[j];
        }
      }
    }
  }

  /** A numeral starts with a sign, a digit or a point. */
  lemma NumeralHead(s: string)
    requires IsNumeral(s)
    ensures |s| > 0 && (s[0] == '-' || IsDigit(s[0]) || s[0] == '.')
  {
    NumeralTail(s);
  }

  /** The digits of `s` in order, with the sign and the point dropped. */
  function DigitsOf(s: string): (r: string)
    ensures AllDigits(r)
  {
    if s == [] then [] else (if IsDigit(s[0]) then [s[0]] else []) + DigitsOf(s[1..])
  }

  /** How many characters follow the first point of `s`; 0 without one. */
  function Places(s: string): nat {
    if s == [] then 0 else if s[0] == '.' then |s| - 1 else Places(s[1..])
  }

  /** A numeral is worth all its digits read as one integer, scaled down by
      ten per digit after the point, and negated when it has a sign. */
  lemma NumeralValueDigits(s: string)
    requires IsNumeral(s)
    ensures NumeralValue(s)
            == (if s[0] == '-' then -1.0 else 1.0) * (DigitsValue(DigitsOf(s)) as real / Pow10(Places(s)) as real)
  {
    NumeralHead(s);
    if s[0] == '-' {
      var t := s[1..];
      assert DigitsOf(s) == DigitsOf(t) && Places(s) == Places(t);
      UnsignedValueDigits(t);
    } else {
      UnsignedValueDigits(s);
    }
  }

  lemma UnsignedValueDigits(t: string)
    requires IsUnsignedNumeral(t)
    ensures UnsignedValue(t) == DigitsValue(DigitsOf(t)) as real / Pow10(Places(t)) as real
  {
    var a := LeadingDigits(t);
    UnsignedShape(t);
    if a == |t| {
      assert UnsignedValue(t) == DigitsValue(t) as real;
      DigitsOfDigits(t);
      PlacesOfDigits(t);
      assert Pow10(Places(t)) as real == 1.0;
    } else {
      assert UnsignedValue(t) == DigitsValue(t[..a]) as real + DigitsValue(t[a + 1..]) as real / Pow10(|t| - a - 1) as real;
      DecimalDigits(t, a);
    }
  }

  /** The digit-string reading of `t` whose point sits at index `a`. */
  lemma DecimalDigits(t: string, a: nat)
    requires a < |t| - 1 && t[a] == '.' && AllDigits(t[..a]) && AllDigits(t[a + 1..])
    ensures DigitsValue(DigitsOf(t)) as real / Pow10(Places(t)) as real
            == DigitsValue(t[..a]) as real + DigitsValue(t[a + 1..]) as real / Pow10(|t| - a - 1) as real
  {
    DecimalInteger(t, a);
    DecimalArith(DigitsValue(DigitsOf(t)), DigitsValue(t[..a]), DigitsValue(t[a + 1..]), Pow10(Places(t)));
  }

  /** The digits of `t` read as one integer: the whole part shifted past the fraction. */
  lemma DecimalInteger(t: string, a: nat)
    requires a < |t| - 1 && t[a] == '.' && AllDigits(t[..a]) && AllDigits(t[a + 1..])
    ensures Places(t) == |t| - a - 1
    ensures DigitsValue(DigitsOf(t)) == DigitsValue(t[..a]) * Pow10(Places(t)) + DigitsValue(t[a + 1..])
  {
    var ip, fp := t[..a], t[a + 1..];
    DecimalText(t, a);
    DigitsValueAppend(ip, fp);
  }

  /** Dropping the point keeps the digits; the places are those after it. */
  lemma DecimalText(t: string, a: nat)
    requires a < |t| - 1 && t[a] == '.' && AllDigits(t[..a]) && AllDigits(t[a + 1..])
    ensures DigitsOf(t) == t[..a] + t[a + 1..]
    ensures Places(t) == |t| - a - 1
  {
    var ip, pf, fp := t[..a], t[a..], t[a + 1..];
    assert t == ip + pf;
    DigitsOfAppend(ip, pf);
    DigitsOfPoint(pf);
    assert pf[1..] == fp;
    DigitsOfDigits(ip);
    DigitsOfDigits(fp);
    PlacesAt(t, a);
  }

  lemma DigitsOfPoint(pf: string)
    requires |pf| > 0 && pf[0] == '.'
    ensures DigitsOf(pf) == DigitsOf(pf[1..])
  {
  }

  lemma {:induction false} PlacesAt(t: string, a: nat)
    requires a < |t| && t[a] == '.' && AllDigits(t[..a])
    ensures Places(t) == |t| - a - 1
  {
    if a > 0 {
      assert t[1..][..a - 1] == t[..a][1..];
      assert t[0] == t[..a][0];
      PlacesAt(t[1..], a - 1);
    }
  }

  lemma DecimalArith(n: int, x: int, f: int, p: int)
    requires p > 0 && n == x * p + f
    ensures n as real / p as real == x as real + f as real / p as real
  {
    var xr, fr, pr := x as real, f as real, p as real;
    assert n as real == xr * pr + fr;
    assert (xr * pr + fr) / pr == xr + fr / pr;
  }

  lemma {:induction false} DigitsOfDigits(s: string)
    requires AllDigits(s)
    ensures DigitsOf(s) == s
  {
    if s != [] {
      DigitsOfDigits(s[1..]);
    }
  }

  lemma {:induction false} PlacesOfDigits(s: string)
    requires AllDigits(s)
    ensures Places(s) == 0
  {
    if s != [] {
      PlacesOfDigits(s[1..]);
    }
  }

  lemma {:induction false} DigitsOfAppend(a: string, b: string)
    ensures DigitsOf(a + b) == DigitsOf(a) + DigitsOf(b)
  {
    if a != [] {
      assert (a + b)[1..] == a[1..] + b;
      DigitsOfAppend(a[1..], b);
    } else {
      assert a + b == b;
    }
  }

  /** Appending digits multiplies the value by ten per digit and adds theirs. */
  lemma {:induction false} DigitsValueAppend(a: string, b: string)
    requires AllDigits(a) && AllDigits(b)
    ensures DigitsValue(a + b) == DigitsValue(a) * Pow10(|b|) + DigitsValue(b)
  {
    if b != [] {
      var b', c := b[..|b| - 1], b[|b| - 1];
      assert a + b == (a + b') + [c];
      assert b == b' + [c];
      DigitsValueLast(a + b', c);
      DigitsValueLast(b', c);
      DigitsValueAppend(a, b');
      assert Pow10(|b|) == 10 * Pow10(|b'|);
      ShiftDigit(DigitsValue(a + b), DigitsValue(a + b'), DigitsValue(a), Pow10(|b'|), DigitsValue(b'),
                 DigitsValue(b), c as int - '0' as int, Pow10(|b|));
    } else {
      assert a + b == a;
    }
  }

  /** `DigitsValue` unfolded at a last digit. */
  lemma DigitsValueLast(s: string, c: char)
    requires AllDigits(s) && IsDigit(c)
    ensures AllDigits(s + [c])
    ensures DigitsValue(s + [c]) == DigitsValue(s) * 10 + (c as int - '0' as int)
  {
    assert (s + [c])[..|s|] == s;
  }

  lemma ShiftDigit(s: int, t: int, x: int, p: int, v: int, w: int, d: int, q: int)
    requires s == t * 10 + d && t == x * p + v
    requires w == v * 10 + d && q == 10 * p
    ensures s == x * q + w
  {
  }

  /** A numeral followed by text that cannot continue it is matched exactly. */
  lemma {:induction false} NumberPrefixOfNumeral(x: string, rest: string)
    requires IsNumeral(x)
    requires rest == [] || (!IsDigit(rest[0]) && rest[0] != '.')
    ensures NumberPrefix(x + rest) == |x|
  {
    var s := x + rest;
    var n := NumberPrefix(s);
    NumberPrefixLongest(s);
    assert s[..|x|] == x;
    assert n >= |x|;
    if n > |x| {
      NumeralTail(s[..n]);
      assert s[..n][|x|] == rest[0];
      NumeralTail(x);
      assert false;
    }
  }
}
