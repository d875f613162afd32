/** The few Python built-ins the modelled code leans on, as the interpreter
    defines them for the inputs that occur here: whitespace and str.strip,
    str.split, str.upper, str.replace, str.startswith, slicing with clamped
    bounds, int() and float() on text, round() and the `%03d` format. */
module Builtins {
  import opened Wrappers

  // ---------------------------------------------------------------------------
  // Characters
  // ---------------------------------------------------------------------------

  /** The characters Python's str.isspace() accepts; str.split(), str.strip()
      and the `\s` class of `re` use the same set. */
  predicate IsSpace(c: char) {
    ('\t' <= c <= '\r') || ('\U{1C}' <= c <= '\U{1F}') || c == ' '
    || c == '\U{85}' || c == '\U{A0}' || c == '\U{1680}'
    || ('\U{2000}' <= c <= '\U{200A}') || c == '\U{2028}' || c == '\U{2029}'
    || c == '\U{202F}' || c == '\U{205F}' || c == '\U{3000}'
  }

  predicate IsDigit(c: char) { '0' <= c <= '9' }

  function DigitValue(c: char): (d: nat)
    requires IsDigit(c)
    ensures d < 10
  {
    (c as int) - ('0' as int)
  }

  function DigitChar(d: nat): (c: char)
    requires d < 10
    ensures IsDigit(c) && DigitValue(c) == d
  {
    ('0' as int + d) as char
  }

  predicate AllDigits(s: string) {
    forall i :: 0 <= i < |s| ==> IsDigit(s[i])
  }

  predicate NoSpace(s: string) {
    forall i :: 0 <= i < |s| ==> !IsSpace(s[i])
  }

  function UpperChar(c: char): char {
    if 'a' <= c <= 'z' then (c as int - 32) as char else c
  }

  /** str.upper() on the ASCII letters. */
  function Upper(s: string): (r: string)
    ensures |r| == |s|
    ensures forall i :: 0 <= i < |s| ==> r[i] == UpperChar(s[i])
  {
    if s == [] then [] else [UpperChar(s[0])] + Upper(s[1..])
  }

  // ---------------------------------------------------------------------------
  // Strings
  // ---------------------------------------------------------------------------

  predicate StartsWith(s: string, prefix: string) {
    |prefix| <= |s| && s[..|prefix|] == prefix
  }

  /** `s[i:j]` for non-negative bounds: both are clamped to the length. */
  function Slice(s: string, i: nat, j: nat): (r: string)
    ensures |r| <= |s|
  {
    var e := if j < |s| then j else |s|;
    var b := if i < e then i else e;
    s[b..e]
  }

  function LStrip(s: string): (r: string)
    ensures |r| <= |s|
    ensures |r| > 0 ==> !IsSpace(r[0])
    ensures forall i :: 0 <= i < |s| - |r| ==> IsSpace(s[i])
  {
    if |s| > 0 && IsSpace(s[0]) then LStrip(s[1..]) else s
  }

  function RStrip(s: string): (r: string)
    ensures |r| <= |s|
    ensures |r| > 0 ==> !IsSpace(r[|r| - 1])
    ensures forall i :: |r| <= i < |s| ==> IsSpace(s[i])
  {
    if |s| > 0 && IsSpace(s[|s| - 1]) then RStrip(s[..|s| - 1]) else s
  }

  /** lstrip removes a prefix: what is left is a suffix of the input. */
  lemma {:induction false} LStripSuffix(s: string)
    ensures LStrip(s) == s[|s| - |LStrip(s)|..]
    decreases |s|
  {
    if |s| > 0 && IsSpace(s[0]) {
      LStripSuffix(s[1..]);
    }
  }

  /** rstrip removes a suffix: what is left is a prefix of the input. */
  lemma {:induction false} RStripPrefix(s: string)
    ensures RStrip(s) == s[..|RStrip(s)|]
    decreases |s|
  {
    if |s| > 0 && IsSpace(s[|s| - 1]) {
      RStripPrefix(s[..|s| - 1]);
    }
  }

  function Strip(s: string): string {
    RStrip(LStrip(s))
  }

  /** What strip leaves has no whitespace at either end. */
  lemma StripEnds(s: string)
    ensures var r := Strip(s);
      r != [] ==> !IsSpace(r[0]) && !IsSpace(r[|r| - 1])
  {
    var u := LStrip(s);
    var r := RStrip(u);
    RStripPrefix(u);
    if r != [] {
      assert r[0] == u[0];
    }
  }

  /** Length of the leading run of non-space characters. */
  function WordLen(s: string): (k: nat)
    ensures k <= |s|
    ensures NoSpace(s[..k])
    ensures k < |s| ==> IsSpace(s[k])
  {
    if s == [] || IsSpace(s[0]) then 0
    else
      var k := 1 + WordLen(s[1..]);
      assert s[..k] == [s[0]] + s[1..][..k - 1];
      k
  }

  /** str.split() with no separator: the maximal runs of non-space characters. */
  function SplitWs(s: string): (words: seq<string>)
    ensures forall w :: w in words ==> |w| > 0 && NoSpace(w)
    decreases |s|
  {
    var t := LStrip(s);
    if t == [] then []
    else
      var k := WordLen(t);
      [t[..k]] + SplitWs(t[k..])
  }

  function Join(words: seq<string>): (r: string) {
    if words == [] then [] else words[0] + Join(words[1..])
  }

  lemma {:induction false} JoinNoSpace(words: seq<string>)
    requires forall w :: w in words ==> NoSpace(w)
    ensures NoSpace(Join(words))
  {
    if words != [] {
      assert words[0] in words;
      assert forall w :: w in words[1..] ==> w in words;
      JoinNoSpace(words[1..]);
      var j := Join(words[1..]);
      var r := Join(words);
      assert r == words[0] + j;
      forall i | 0 <= i < |r|
        ensures !IsSpace(r[i])
      {
        if i < |words[0]| {
          assert r[i] == words[0][i];
        } else {
          assert r[i] == j[i - |words[0]|];
        }
      }
    }
  }

  /** A string without spaces splits into itself alone. */
  lemma SplitNoSpace(s: string)
    requires NoSpace(s)
    ensures SplitWs(s) == if s == [] then [] else [s]
  {
    if s != [] {
      assert !IsSpace(s[0]);
      assert LStrip(s) == s;
      WordLenNoSpace(s);
      assert s[..|s|] == s;
      assert s[|s|..] == [];
      assert LStrip([]) == [];
      assert SplitWs([]) == [];
    }
  }

  lemma {:induction false} WordLenNoSpace(s: string)
    requires NoSpace(s)
    ensures WordLen(s) == |s|
  {
    if s != [] {
      WordLenNoSpace(s[1..]);
    }
  }

  /** "".join(s.split()): every whitespace character removed. */
  function RemoveSpaces(s: string): (r: string)
    ensures NoSpace(r)
  {
    var words := SplitWs(s);
    JoinNoSpace(words);
    Join(words)
  }

  lemma RemoveSpacesOfNoSpace(s: string)
    requires NoSpace(s)
    ensures RemoveSpaces(s) == s
  {
    SplitNoSpace(s);
    if s != [] {
      assert Join([s]) == s + Join([]);
    }
  }

  /** Every character of `s` that is not whitespace, in order: the reference
      meaning of "".join(s.split()). */
  function DropSpaces(s: string): string {
    if s == [] then [] else (if IsSpace(s[0]) then [] else [s[0]]) + DropSpaces(s[1..])
  }

  lemma {:induction false} DropSpacesConcat(a: string, b: string)
    ensures DropSpaces(a + b) == DropSpaces(a) + DropSpaces(b)
  {
    if a != [] {
      assert (a + b)[0] == a[0] && (a + b)[1..] == a[1..] + b;
      DropSpacesConcat(a[1..], b);
    } else {
      assert a + b == b;
    }
  }

  lemma {:induction false} DropSpacesOfNoSpace(s: string)
    requires NoSpace(s)
    ensures DropSpaces(s) == s
  {
    if s != [] {
      DropSpacesOfNoSpace(s[1..]);
    }
  }

  lemma {:induction false} DropSpacesLStrip(s: string)
    ensures DropSpaces(LStrip(s)) == DropSpaces(s)
  {
    if |s| > 0 && IsSpace(s[0]) {
      DropSpacesLStrip(s[1..]);
    }
  }

  /** Splitting on whitespace and joining the words back drops exactly the
      whitespace characters. */
  lemma {:induction false} RemoveSpacesIsDrop(s: string)
    ensures RemoveSpaces(s) == DropSpaces(s)
    decreases |s|
  {
    var t := LStrip(s);
    DropSpacesLStrip(s);
    if t != [] {
      var k := WordLen(t);
      assert k >= 1;
      assert t == t[..k] + t[k..];
      DropSpacesConcat(t[..k], t[k..]);
      DropSpacesOfNoSpace(t[..k]);
      RemoveSpacesIsDrop(t[k..]);
      assert SplitWs(s) == [t[..k]] + SplitWs(t[k..]);
      assert Join(SplitWs(s)) == t[..k] + Join(SplitWs(t[k..]));
    }
  }

  lemma {:induction false} UpperConcat(a: string, b: string)
    ensures Upper(a + b) == Upper(a) + Upper(b)
  {
    assert forall i :: 0 <= i < |a + b| ==> Upper(a + b)[i] == (Upper(a) + Upper(b))[i];
  }

  /** Upper-casing commutes with dropping whitespace: no ASCII letter is
      whitespace, before or after. */
  lemma {:induction false} UpperDropSpaces(s: string)
    ensures Upper(DropSpaces(s)) == DropSpaces(Upper(s))
  {
    if s != [] {
      UpperDropSpaces(s[1..]);
      var h := if IsSpace(s[0]) then [] else [s[0]];
      UpperConcat(h, DropSpaces(s[1..]));
      assert Upper(s) == [UpperChar(s[0])] + Upper(s[1..]);
      assert Upper(s)[1..] == Upper(s[1..]);
    }
  }

  /** str.replace(pattern, replacement) for a non-empty pattern: left to right,
      non-overlapping. */
  function ReplaceAll(s: string, pattern: string, replacement: string): string
    requires |pattern| > 0
    decreases |s|
  {
    if s == [] then []
    else if StartsWith(s, pattern) then replacement + ReplaceAll(s[|pattern|..], pattern, replacement)
    else [s[0]] + ReplaceAll(s[1..], pattern, replacement)
  }

  /** No character of `s` is `c`. */
  predicate Lacks(s: string, c: char) {
    forall i :: 0 <= i < |s| ==> s[i] != c
  }

  lemma LacksConcat(a: string, b: string, c: char)
    requires Lacks(a, c) && Lacks(b, c)
    ensures Lacks(a + b, c)
  {
    forall i | 0 <= i < |a + b|
      ensures (a + b)[i] != c
    {
      if i >= |a| {
        assert (a + b)[i] == b[i - |a|];
      }
    }
  }

  lemma DigitsLack(d: string, c: char)
    requires AllDigits(d) && !IsDigit(c)
    ensures Lacks(d, c)
  {
  }

  /** A text with none of the pattern's first character is left alone. */
  lemma {:induction false} ReplaceAbsent(s: string, pattern: string, replacement: string)
    requires |pattern| > 0 && Lacks(s, pattern[0])
    ensures ReplaceAll(s, pattern, replacement) == s
    decreases |s|
  {
    if s != [] {
      assert s[0] != pattern[0];
      ReplaceAbsent(s[1..], pattern, replacement);
      assert s == [s[0]] + s[1..];
    }
  }

  /** A prefix without the pattern's first character passes through unchanged. */
  lemma {:induction false} ReplaceAfterAbsent(a: string, b: string, pattern: string, replacement: string)
    requires |pattern| > 0 && Lacks(a, pattern[0])
    ensures ReplaceAll(a + b, pattern, replacement) == a + ReplaceAll(b, pattern, replacement)
    decreases |a|
  {
    if a != [] {
      var s := a + b;
      assert s[0] == a[0] != pattern[0];
      assert s[1..] == a[1..] + b;
      ReplaceAfterAbsent(a[1..], b, pattern, replacement);
      assert a == [a[0]] + a[1..];
    } else {
      assert a + b == b;
    }
  }

  /** An occurrence of the pattern at the front is replaced. */
  lemma ReplaceAtFront(b: string, pattern: string, replacement: string)
    requires |pattern| > 0
    ensures ReplaceAll(pattern + b, pattern, replacement) == replacement + ReplaceAll(b, pattern, replacement)
  {
    assert (pattern + b)[..|pattern|] == pattern;
    assert (pattern + b)[|pattern|..] == b;
  }

  predicate AllSpace(s: string) {
    forall i :: 0 <= i < |s| ==> IsSpace(s[i])
  }

  /** Leading whitespace before a non-space character is what lstrip removes. */
  lemma {:induction false} LStripSpaces(sp: string, t: string)
    requires AllSpace(sp) && (t == [] || !IsSpace(t[0]))
    ensures LStrip(sp + t) == t
    decreases |sp|
  {
    if sp != [] {
      assert (sp + t)[0] == sp[0];
      assert (sp + t)[1..] == sp[1..] + t;
      LStripSpaces(sp[1..], t);
    } else {
      assert sp + t == t;
    }
  }

  /** The first word of a text is its leading run of non-space characters. */
  lemma {:induction false} WordLenOfWord(w: string, rest: string)
    requires NoSpace(w) && (rest == [] || IsSpace(rest[0]))
    ensures WordLen(w + rest) == |w|
    decreases |w|
  {
    if w != [] {
      assert (w + rest)[0] == w[0];
      assert (w + rest)[1..] == w[1..] + rest;
      WordLenOfWord(w[1..], rest);
    } else {
      assert w + rest == rest;
    }
  }

  /** Splitting whitespace, a word, and a remainder starting with whitespace
      yields the word first. */
  lemma SplitWsWord(sp: string, w: string, rest: string)
    requires AllSpace(sp) && |w| > 0 && NoSpace(w) && (rest == [] || IsSpace(rest[0]))
    ensures SplitWs(sp + w + rest) == [w] + SplitWs(rest)
  {
    assert sp + w + rest == sp + (w + rest);
    assert (w + rest)[0] == w[0];
    LStripSpaces(sp, w + rest);
    WordLenOfWord(w, rest);
    assert (w + rest)[..|w|] == w;
    assert (w + rest)[|w|..] == rest;
  }

  /** Whitespace alone splits into nothing. */
  lemma SplitWsSpaces(sp: string)
    requires AllSpace(sp)
    ensures SplitWs(sp) == []
  {
    LStripSpaces(sp, []);
    assert sp + [] == sp;
  }

  /** Two runs of digits separated by whitespace split into those two runs. */
  lemma SplitWsTwoNumbers(sp0: string, d0: string, sp1: string, d1: string)
    requires AllSpace(sp0) && |sp1| > 0 && AllSpace(sp1)
    requires |d0| > 0 && AllDigits(d0) && |d1| > 0 && AllDigits(d1)
    ensures SplitWs(sp0 + d0 + sp1 + d1) == [d0, d1]
  {
    var tail := sp1 + d1;
    assert tail[0] == sp1[0];
    assert sp0 + d0 + sp1 + d1 == sp0 + d0 + tail;
    SplitWsWord(sp0, d0, tail);
    SplitWsLast(sp1, d1);
  }

  lemma SplitWsLast(sp: string, d: string)
    requires AllSpace(sp) && |d| > 0 && AllDigits(d)
    ensures SplitWs(sp + d) == [d]
  {
    assert sp + d == sp + d + [];
    SplitWsWord(sp, d, []);
    SplitWsSpaces([]);
  }

  // ---------------------------------------------------------------------------
  // Decimal numerals
  // ---------------------------------------------------------------------------

  function Pow10(k: nat): (p: nat)
    ensures p >= 1
  {
    if k == 0 then 1 else 10 * Pow10(k - 1)
  }

  /** The value of a string of decimal digits, most significant first. */
  function DigitsValue(s: string): nat
    requires AllDigits(s)
  {
    if s == [] then 0 else 10 * DigitsValue(s[..|s| - 1]) + DigitValue(s[|s| - 1])
  }

  /** str(n) for a non-negative integer. */
  function Decimal(n: nat): (s: string)
    ensures |s| >= 1 && AllDigits(s)
  {
    if n < 10 then [DigitChar(n)] else Decimal(n / 10) + [DigitChar(n % 10)]
  }

  lemma {:induction false} DecimalValue(n: nat)
    ensures DigitsValue(Decimal(n)) == n
  {
    if n >= 10 {
      DecimalValue(n / 10);
      var s := Decimal(n);
      assert s[..|s| - 1] == Decimal(n / 10);
    }
  }

  /** str(n) starts with '0' only for n == 0. */
  lemma {:induction false} DecimalNoLeadingZero(n: nat)
    ensures Decimal(n)[0] == '0' ==> n == 0
  {
    if n >= 10 {
      DecimalNoLeadingZero(n / 10);
      assert Decimal(n)[0] == Decimal(n / 10)[0];
    }
  }

  lemma {:induction false} DecimalLength(n: nat, k: nat)
    requires 1 <= k && n < Pow10(k)
    ensures |Decimal(n)| <= k
  {
    if n >= 10 {
      assert k >= 2;
      DecimalLength(n / 10, k - 1);
    }
  }

  /** Left-pads with '0' up to `width` characters. */
  function ZeroPad(s: string, width: nat): (r: string)
    ensures |r| == if |s| < width then width else |s|
    ensures AllDigits(s) ==> AllDigits(r)
    decreases width - |s|
  {
    if |s| >= width then s else ZeroPad(['0'] + s, width)
  }

  lemma {:induction false} ZeroPadValue(s: string, width: nat)
    requires AllDigits(s)
    ensures DigitsValue(ZeroPad(s, width)) == DigitsValue(s)
    decreases width - |s|
  {
    if |s| < width {
      LeadingZeroValue(s);
      ZeroPadValue(['0'] + s, width);
    }
  }

  lemma {:induction false} LeadingZeroValue(s: string)
    requires AllDigits(s)
    ensures DigitsValue(['0'] + s) == DigitsValue(s)
  {
    if s != [] {
      var t := ['0'] + s;
      assert t[..|t| - 1] == ['0'] + s[..|s| - 1];
      LeadingZeroValue(s[..|s| - 1]);
    }
  }

  /** Three-digit zero-padded decimal formatting: at least three characters, zeros
      between the sign and the digits. */
  function FormatD03(n: int): string {
    if n < 0 then "-" + ZeroPad(Decimal(-n), 2) else ZeroPad(Decimal(n), 3)
  }

  /** From 0 to 999 the conversion writes exactly three digits worth `n`. */
  lemma FormatD03Digits(n: int)
    requires 0 <= n <= 999
    ensures |FormatD03(n)| == 3 && AllDigits(FormatD03(n))
    ensures DigitsValue(FormatD03(n)) == n
  {
    DecimalLength(n, 3);
    DecimalValue(n);
    ZeroPadValue(Decimal(n), 3);
  }

  // ---------------------------------------------------------------------------
  // int() and float() on text
  // ---------------------------------------------------------------------------

  predicate DigitsOrUnderscores(s: string) {
    forall i :: 0 <= i < |s| ==> IsDigit(s[i]) || s[i] == '_'
  }

  /** The digits of an integer literal as int() accepts them: ASCII digits,
      with single underscores allowed between two digits. */
  predicate IntDigits(s: string) {
    && |s| > 0 && IsDigit(s[0]) && IsDigit(s[|s| - 1])
    && DigitsOrUnderscores(s) && NoDoubleUnderscore(s)
  }

  /** No two neighbouring characters are both non-digits. */
  predicate NoDoubleUnderscore(s: string) {
    |s| < 2 || ((IsDigit(s[0]) || IsDigit(s[1])) && NoDoubleUnderscore(s[1..]))
  }

  lemma {:induction false} NoDoubleUnderscoreOfDigits(s: string)
    requires AllDigits(s)
    ensures NoDoubleUnderscore(s)
  {
    if |s| >= 2 {
      NoDoubleUnderscoreOfDigits(s[1..]);
    }
  }

  /** The value of digits with the underscores skipped. */
  function LiteralValue(s: string): nat
    requires DigitsOrUnderscores(s)
  {
    if s == [] then 0
    else if s[|s| - 1] == '_' then LiteralValue(s[..|s| - 1])
    else 10 * LiteralValue(s[..|s| - 1]) + DigitValue(s[|s| - 1])
  }

  lemma {:induction false} LiteralValueOfDigits(s: string)
    requires AllDigits(s)
    ensures LiteralValue(s) == DigitsValue(s)
  {
    if s != [] {
      LiteralValueOfDigits(s[..|s| - 1]);
    }
  }

  /** int(s) for a str argument: surrounding whitespace, an optional sign,
      then the digits. None where Python raises ValueError. */
  function ParseInt(s: string): Option<int> {
    ParseIntStripped(Strip(s))
  }

  /** int() once the surrounding whitespace is gone. */
  function ParseIntStripped(t: string): Option<int> {
    var negative := |t| > 0 && t[0] == '-';
    var body := if |t| > 0 && (t[0] == '+' || t[0] == '-') then t[1..] else t;
    if IntDigits(body) then
      var v: int := LiteralValue(body);
      Some(if negative then -v else v)
    else None
  }

  /** A plain run of digits reads back as its value. */
  lemma ParseIntOfDigits(s: string)
    requires |s| > 0 && AllDigits(s)
    ensures ParseInt(s) == Some(DigitsValue(s) as int)
  {
    StripUnchanged(s);
    IntDigitsOfDigits(s);
    UnsignedBody(s);
    LiteralValueOfDigits(s);
  }

  /** The value `v` under the sign character `sign`. */
  function ApplySign(sign: char, v: nat): int {
    if sign == '-' then -(v as int) else v as int
  }

  /** A sign followed by a run of digits reads back as the signed value. */
  lemma ParseIntOfSigned(sign: char, s: string)
    requires sign == '+' || sign == '-'
    requires |s| > 0 && AllDigits(s)
    ensures ParseInt([sign] + s) == Some(ApplySign(sign, DigitsValue(s)))
  {
    SignedDigitsStrip(sign, s);
    SignedDigitsBody(sign, s);
  }

  lemma SignedDigitsStrip(sign: char, s: string)
    requires sign == '+' || sign == '-'
    requires |s| > 0 && AllDigits(s)
    ensures Strip([sign] + s) == [sign] + s
  {
    var t := [sign] + s;
    assert t[|t| - 1] == s[|s| - 1];
    StripUnchanged(t);
  }

  lemma SignedDigitsBody(sign: char, s: string)
    requires sign == '+' || sign == '-'
    requires |s| > 0 && AllDigits(s)
    ensures ParseIntStripped([sign] + s) == Some(ApplySign(sign, DigitsValue(s)))
  {
    var t := [sign] + s;
    assert t[1..] == s;
    IntDigitsOfDigits(s);
    SignedBody(t);
    LiteralValueOfDigits(s);
  }

  lemma UnsignedBody(t: string)
    requires IntDigits(t)
    ensures ParseIntStripped(t) == Some(LiteralValue(t) as int)
  {
  }

  lemma SignedBody(t: string)
    requires |t| > 0 && (t[0] == '+' || t[0] == '-') && IntDigits(t[1..])
    ensures var v: int := LiteralValue(t[1..]);
      ParseIntStripped(t) == Some(if t[0] == '-' then -v else v)
  {
  }

  /** Text with no whitespace at either end is what strip returns. */
  lemma StripUnchanged(t: string)
    requires |t| > 0 && !IsSpace(t[0]) && !IsSpace(t[|t| - 1])
    ensures Strip(t) == t
  {
    assert LStrip(t) == t;
  }

  lemma IntDigitsOfDigits(s: string)
    requires |s| > 0 && AllDigits(s)
    ensures IntDigits(s)
  {
    NoDoubleUnderscoreOfDigits(s);
  }

  function Pow10Real(e: int): (p: real)
    ensures p > 0.0
  {
    if e >= 0 then Pow10(e) as real else 1.0 / (Pow10(-e) as real)
  }

  /** A run of ASCII digits, possibly empty, and its value. */
  function DigitsPart(s: string): (k: nat)
    ensures k <= |s| && AllDigits(s[..k])
    ensures k < |s| ==> !IsDigit(s[k])
  {
    if s == [] || !IsDigit(s[0]) then 0
    else
      var k := 1 + DigitsPart(s[1..]);
      assert s[..k] == [s[0]] + s[1..][..k - 1];
      k
  }

  /** float(s) for a str argument written in decimal notation: surrounding
      whitespace, an optional sign, digits with an optional fraction (at least
      one digit in all) and an optional exponent. None where Python raises
      ValueError; `inf`, `nan` and underscores are not in this model. */
  function ParseFloat(s: string): Option<real> {
    var t := Strip(s);
    var negative := |t| > 0 && t[0] == '-';
    var u := if |t| > 0 && (t[0] == '+' || t[0] == '-') then t[1..] else t;
    match UnsignedFloat(u)
    case None => None
    case Some(v) => Some(if negative then -v else v)
  }

  /** The unsigned part of a float literal: digits, an optional fraction and
      an optional exponent. */
  function UnsignedFloat(u: string): Option<real> {
    var ki := DigitsPart(u);
    var rest := u[ki..];
    var hasDot := |rest| > 0 && rest[0] == '.';
    var afterDot := if hasDot then rest[1..] else rest;
    var kf := if hasDot then DigitsPart(afterDot) else 0;
    if ki + kf == 0 then None
    else
      match ExponentFactor(afterDot[kf..])
      case None => None
      case Some(f) =>
        Some((DigitsValue(u[..ki]) as real + Fraction(afterDot[..kf])) * f)
  }

  /** The value of the digits after the decimal point. */
  function Fraction(digits: string): (v: real)
    requires AllDigits(digits)
    ensures 0.0 <= v
  {
    if digits == [] then 0.0
    else (DigitValue(digits[0]) as real + Fraction(digits[1..])) / 10.0
  }

  /** What follows the mantissa: nothing, or `e`/`E`, an optional sign and digits. */
  function ExponentFactor(tail: string): Option<real> {
    if tail == [] then Some(1.0)
    else if tail[0] == 'e' || tail[0] == 'E' then
      var eNeg := |tail| > 1 && tail[1] == '-';
      var eDigits := if |tail| > 1 && (tail[1] == '+' || tail[1] == '-') then tail[2..] else tail[1..];
      if |eDigits| > 0 && AllDigits(eDigits) then
        var e: int := DigitsValue(eDigits);
        Some(Pow10Real(if eNeg then -e else e))
      else None
    else None
  }

  /** A plain run of digits reads back as its value. */
  lemma ParseFloatOfDigits(s: string)
    requires |s| > 0 && AllDigits(s)
    ensures ParseFloat(s) == Some(DigitsValue(s) as real)
  {
    StripOfDigits(s);
    UnsignedFloatOfDigits(s);
  }

  lemma StripOfDigits(s: string)
    requires |s| > 0 && AllDigits(s)
    ensures Strip(s) == s
  {
    assert !IsSpace(s[0]) && !IsSpace(s[|s| - 1]);
    assert LStrip(s) == s;
  }

  lemma UnsignedFloatOfDigits(s: string)
    requires |s| > 0 && AllDigits(s)
    ensures UnsignedFloat(s) == Some(DigitsValue(s) as real)
  {
    DigitsPartOfDigits(s);
    var empty: string := [];
    var rest := s[DigitsPart(s)..];
    assert rest == empty;
    assert rest[0..] == empty && rest[..0] == empty;
    assert DigitsPart(empty) == 0;
    assert ExponentFactor(empty) == Some(1.0);
    assert Fraction(empty) == 0.0;
    assert s[..DigitsPart(s)] == s;
  }

  lemma {:induction false} DigitsPartOfDigits(s: string)
    requires AllDigits(s)
    ensures DigitsPart(s) == |s|
  {
    if s != [] {
      DigitsPartOfDigits(s[1..]);
    }
  }

  // ---------------------------------------------------------------------------
  // round()
  // ---------------------------------------------------------------------------

  /** round(x) with no digits argument: the nearest integer, halves going to
      the even neighbour. */
  function RoundHalfEven(x: real): (r: int)
    ensures -0.5 <= x - r as real <= 0.5
    ensures (x - r as real == 0.5 || x - r as real == -0.5) ==> r % 2 == 0
  {
    var f := x.Floor;
    var frac := x - f as real;
    if frac < 0.5 then f
    else if frac > 0.5 then f + 1
    else if f % 2 == 0 then f
    else f + 1
  }

  /** round() leaves an integer where it is. */
  lemma RoundOfInteger(n: int)
    ensures RoundHalfEven(n as real) == n
  {
  }
}
