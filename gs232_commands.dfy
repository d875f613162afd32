/** GS-232B command text: the absolute-move command `Waaa eee` and the
    parser for the controller's reply to the position query `C2`. */
module Gs232Commands {
  import opened Wrappers
  import opened Builtins

  const StopCmd := "S"
  const StatusCmd := "C2"

  /** `W` followed by the rounded azimuth and elevation, each written with
      `%03d`. */
  function FormatMove(az: real, el: real): (cmd: string)
    ensures |cmd| >= 1 && cmd[0] == 'W'
  {
    "W" + FormatD03(RoundHalfEven(az)) + " " + FormatD03(RoundHalfEven(el))
  }

  /** For angles that round into 0..999 the command is eight characters:
      `W`, three digits worth the rounded azimuth, a space, three digits worth
      the rounded elevation. */
  lemma FormatMoveLayout(az: real, el: real)
    requires 0 <= RoundHalfEven(az) <= 999 && 0 <= RoundHalfEven(el) <= 999
    ensures var cmd := FormatMove(az, el);
      && |cmd| == 8 && cmd[0] == 'W' && cmd[4] == ' '
      && AllDigits(cmd[1..4]) && DigitsValue(cmd[1..4]) == RoundHalfEven(az)
      && AllDigits(cmd[5..8]) && DigitsValue(cmd[5..8]) == RoundHalfEven(el)
  {
    var a, e := RoundHalfEven(az), RoundHalfEven(el);
    FormatD03Digits(a);
    FormatD03Digits(e);
    var cmd := FormatMove(az, el);
    assert cmd[1..4] == FormatD03(a);
    assert cmd[5..8] == FormatD03(e);
  }

  /** The documented example. */
  lemma FormatMoveExample()
    ensures FormatMove(180.2, 45.7) == "W180 046"
  {
    assert RoundHalfEven(180.2) == 180;
    assert RoundHalfEven(45.7) == 46;
  }

  /** The line takes the signed branch. */
  predicate Signed(line: string) {
    StartsWith(line, "+") || StartsWith(line, "-")
  }

  /** The two values of the `+aaaa+eeee` form, taken from the fields
      `[0, w)` and `[w, 2w)` of the stripped line. */
  function SignedPair(line: string, w: nat): (r: Option<(real, real)>)
    requires Signed(line)
    ensures r.Some? <==> ParseInt(Slice(line, 0, w)).Some? && ParseInt(Slice(line, w, 2 * w)).Some?
    ensures r.Some? ==>
      r.value == (ParseInt(Slice(line, 0, w)).value as real, ParseInt(Slice(line, w, 2 * w)).value as real)
  {
    match (ParseInt(Slice(line, 0, w)), ParseInt(Slice(line, w, 2 * w)))
    case (Some(az), Some(el)) => Some((az as real, el as real))
    case _ => None
  }

  /** The word-separated form: `AZ` and `EL` removed, `=` and `,` turned
      into spaces, then split on whitespace. */
  function Tokens(line: string): seq<string> {
    var a := ReplaceAll(line, "AZ", "");
    var b := ReplaceAll(a, "EL", "");
    var c := ReplaceAll(b, "=", " ");
    var d := ReplaceAll(c, ",", " ");
    SplitWs(d)
  }

  /** float() of every token; None as soon as one of them is not a number. */
  function ParseFloats(parts: seq<string>): (r: Option<seq<real>>)
    ensures r.Some? <==> forall i :: 0 <= i < |parts| ==> ParseFloat(parts[i]).Some?
    ensures r.Some? ==>
      |r.value| == |parts| && forall i :: 0 <= i < |parts| ==> r.value[i] == ParseFloat(parts[i]).value
  {
    if parts == [] then Some([])
    else
      match (ParseFloat(parts[0]), ParseFloats(parts[1..]))
      case (Some(v), Some(vs)) => Some([v] + vs)
      case _ => None
  }

  /** The reply parser, with the width `w` of each signed field as a
      parameter: 4 is what the deployed parser slices, 5 what the documented
      `+0180+0090` form needs. */
  function ParseC2With(reply: string, w: nat): (r: Option<(real, real)>)
    ensures reply == [] ==> r == None
  {
    if reply == [] then None
    else
      var line := Strip(reply);
      if Signed(line) then SignedPair(line, w) else WordsPair(line)
  }

  /** The word-separated branch: exactly two tokens, both numbers. */
  function WordsPair(line: string): (r: Option<(real, real)>)
    requires !Signed(line)
    ensures r.Some? ==> |Tokens(line)| == 2
    ensures var t := Tokens(line);
      r.Some? <==> |t| == 2 && ParseFloat(t[0]).Some? && ParseFloat(t[1]).Some?
    ensures var t := Tokens(line);
      |t| == 2 && ParseFloat(t[0]).Some? && ParseFloat(t[1]).Some? ==>
        r == Some((ParseFloat(t[0]).value, ParseFloat(t[1]).value))
  {
    FloatPair(Tokens(line))
  }

  /** Exactly two parts, both numbers, as a pair. */
  function FloatPair(parts: seq<string>): (r: Option<(real, real)>)
    ensures r.Some? <==> |parts| == 2 && ParseFloat(parts[0]).Some? && ParseFloat(parts[1]).Some?
    ensures r.Some? ==> r.value == (ParseFloat(parts[0]).value, ParseFloat(parts[1]).value)
  {
    match ParseFloats(parts)
    case Some(nums) => if |nums| == 2 then Some((nums[0], nums[1])) else None
    case None =>
      assert |parts| == 2 ==> parts == [parts[0], parts[1]];
      None
  }

  /** parse_c2_reply as deployed: the signed form is read from characters
      0 to 3 and 4 to 7. Conversion errors give None, never an exception. */
  function ParseC2Reply(reply: string): (r: Option<(real, real)>)
    ensures reply == [] ==> r == None
  {
    ParseC2With(reply, 4)
  }

  /** The signed form read from characters 0 to 4 and 5 to 9, sign and four
      digits each, as the documented example `+0180+0090` requires. */
  function ParseC2ReplyCorrected(reply: string): (r: Option<(real, real)>)
    ensures reply == [] ==> r == None
  {
    ParseC2With(reply, 5)
  }

  // ---------------------------------------------------------------------------
  // The signed form
  // ---------------------------------------------------------------------------

  predicate IsSign(c: char) { c == '+' || c == '-' }

  /** The signed reply `±dd..d±dd..d` is its own stripped line and takes the
      signed branch. */
  lemma SignedLine(s0: char, d0: string, s1: char, d1: string)
    requires IsSign(s0) && IsSign(s1) && |d0| > 0 && AllDigits(d0) && |d1| > 0 && AllDigits(d1)
    ensures var reply := [s0] + d0 + [s1] + d1;
      Strip(reply) == reply && Signed(reply)
  {
    var reply := [s0] + d0 + [s1] + d1;
    assert reply[|reply| - 1] == d1[|d1| - 1];
    assert reply[..1] == [s0];
    StripUnchanged(reply);
  }

  /** As deployed, no reply with four-digit fields parses: characters
      4 to 7 hold the last azimuth digit, the elevation's sign and two
      elevation digits, which int() refuses. */
  lemma ParseC2ReplyRejectsFourDigitFields(s0: char, d0: string, s1: char, d1: string)
    requires IsSign(s0) && IsSign(s1) && |d0| == 4 && AllDigits(d0) && |d1| == 4 && AllDigits(d1)
    ensures ParseC2Reply([s0] + d0 + [s1] + d1) == None
  {
    var line := [s0] + d0 + [s1] + d1;
    SignedLine(s0, d0, s1, d1);
    var f := Slice(line, 4, 8);
    assert f == [d0[3], s1, d1[0], d1[1]];
    StripUnchanged(f);
    assert !IntDigits(f) by {
      assert !IsDigit(f[1]) && f[1] != '_';
    }
  }

  /** The documented reply is refused as deployed and read as (180, 90) once
      the fields are five characters wide. */
  lemma ParseC2ReplyDocExample(reply: string)
    requires reply == "+0180+0090"
    ensures ParseC2Reply(reply) == None
    ensures ParseC2ReplyCorrected(reply) == Some((180.0, 90.0))
  {
    assert reply == ['+'] + "0180" + ['+'] + "0090";
    ParseC2ReplyRejectsFourDigitFields('+', "0180", '+', "0090");
    ParseC2ReplyCorrectedSigned('+', "0180", '+', "0090");
    DocExampleValues();
  }

  lemma DocExampleValues()
    ensures ApplySign('+', DigitsValue("0180")) == 180 && ApplySign('+', DigitsValue("0090")) == 90
  {
    assert "0180"[..3] == "018" && "018"[..2] == "01" && "01"[..1] == "0" && "0"[..0] == "";
    assert DigitsValue("0180") == 180;
    assert "0090"[..3] == "009" && "009"[..2] == "00" && "00"[..1] == "0";
    assert DigitsValue("0090") == 90;
  }

  /** With five-character fields every `±dddd±dddd` reply reads back as its
      two signed values. */
  lemma ParseC2ReplyCorrectedSigned(s0: char, d0: string, s1: char, d1: string)
    requires IsSign(s0) && IsSign(s1) && |d0| == 4 && AllDigits(d0) && |d1| == 4 && AllDigits(d1)
    ensures ParseC2ReplyCorrected([s0] + d0 + [s1] + d1)
         == Some((ApplySign(s0, DigitsValue(d0)) as real, ApplySign(s1, DigitsValue(d1)) as real))
  {
    SignedFieldsOfWidth(s0, d0, s1, d1);
  }

  /** What the deployed parser does read: three-digit signed fields. */
  lemma ParseC2ReplyThreeDigitFields(s0: char, d0: string, s1: char, d1: string)
    requires IsSign(s0) && IsSign(s1) && |d0| == 3 && AllDigits(d0) && |d1| == 3 && AllDigits(d1)
    ensures ParseC2Reply([s0] + d0 + [s1] + d1)
         == Some((ApplySign(s0, DigitsValue(d0)) as real, ApplySign(s1, DigitsValue(d1)) as real))
  {
    SignedFieldsOfWidth(s0, d0, s1, d1);
  }

  /** Fields of equal width `w` = sign plus digits are read back exactly when
      the parser slices at `w`. */
  lemma SignedFieldsOfWidth(s0: char, d0: string, s1: char, d1: string)
    requires IsSign(s0) && IsSign(s1) && |d0| > 0 && AllDigits(d0) && |d1| == |d0| && AllDigits(d1)
    ensures ParseC2With([s0] + d0 + [s1] + d1, |d0| + 1)
         == Some((ApplySign(s0, DigitsValue(d0)) as real, ApplySign(s1, DigitsValue(d1)) as real))
  {
    var line := [s0] + d0 + [s1] + d1;
    var w := |d0| + 1;
    SignedLine(s0, d0, s1, d1);
    SignedSlices(s0, d0, s1, d1);
    ParseIntOfSigned(s0, d0);
    ParseIntOfSigned(s1, d1);
    SignedBranch(line, w, ApplySign(s0, DigitsValue(d0)), ApplySign(s1, DigitsValue(d1)));
  }

  lemma SignedSlices(s0: char, d0: string, s1: char, d1: string)
    requires |d1| == |d0|
    ensures var line := [s0] + d0 + [s1] + d1;
      Slice(line, 0, |d0| + 1) == [s0] + d0 && Slice(line, |d0| + 1, 2 * (|d0| + 1)) == [s1] + d1
  {
    var line := [s0] + d0 + [s1] + d1;
    assert line[0..|d0| + 1] == [s0] + d0;
    assert line[|d0| + 1..2 * (|d0| + 1)] == [s1] + d1;
  }

  /** A stripped signed line whose two fields are integers yields them. */
  lemma SignedBranch(line: string, w: nat, az: int, el: int)
    requires line != [] && Strip(line) == line && Signed(line)
    requires ParseInt(Slice(line, 0, w)) == Some(az) && ParseInt(Slice(line, w, 2 * w)) == Some(el)
    ensures ParseC2With(line, w) == Some((az as real, el as real))
  {
  }

  // ---------------------------------------------------------------------------
  // The word-separated forms
  // ---------------------------------------------------------------------------

  /** `AZ=<digits> EL=<digits>` reads back as the two numbers, whatever the
      signed-field width. */
  lemma ParseC2AzEl(da: string, de: string, w: nat)
    requires |da| > 0 && AllDigits(da) && |de| > 0 && AllDigits(de)
    ensures ParseC2With("AZ=" + da + " EL=" + de, w) == Some((DigitsValue(da) as real, DigitsValue(de) as real))
  {
    var line := "AZ=" + da + " EL=" + de;
    AzElLine(da, de);
    TokensOfAzEl(da, de);
    TwoNumbers(da, de);
    WordsBranch(line, w, DigitsValue(da) as real, DigitsValue(de) as real);
  }

  /** `<digits> <digits>` reads back as the two numbers. */
  lemma ParseC2Plain(da: string, de: string, w: nat)
    requires |da| > 0 && AllDigits(da) && |de| > 0 && AllDigits(de)
    ensures ParseC2With(da + " " + de, w) == Some((DigitsValue(da) as real, DigitsValue(de) as real))
  {
    var line := da + " " + de;
    PlainLine(da, de);
    TokensOfPlain(da, de);
    TwoNumbers(da, de);
    WordsBranch(line, w, DigitsValue(da) as real, DigitsValue(de) as real);
  }

  lemma AzElLine(da: string, de: string)
    requires |de| > 0 && AllDigits(de)
    ensures var line := "AZ=" + da + " EL=" + de;
      line != [] && Strip(line) == line && !Signed(line)
  {
    var line := "AZ=" + da + " EL=" + de;
    assert line[|line| - 1] == de[|de| - 1];
    assert line[0] == 'A';
    StripUnchanged(line);
    assert line[..1] == "A";
  }

  lemma PlainLine(da: string, de: string)
    requires |da| > 0 && AllDigits(da) && |de| > 0 && AllDigits(de)
    ensures var line := da + " " + de;
      line != [] && Strip(line) == line && !Signed(line)
  {
    var line := da + " " + de;
    assert line[|line| - 1] == de[|de| - 1];
    assert line[0] == da[0];
    StripUnchanged(line);
    assert line[..1] == [da[0]];
  }

  /** A stripped unsigned line whose tokens are two numbers yields them. */
  lemma WordsBranch(line: string, w: nat, az: real, el: real)
    requires line != [] && Strip(line) == line && !Signed(line)
    requires ParseFloats(Tokens(line)) == Some([az, el])
    ensures ParseC2With(line, w) == Some((az, el))
  {
  }

  lemma TwoNumbers(da: string, de: string)
    requires |da| > 0 && AllDigits(da) && |de| > 0 && AllDigits(de)
    ensures ParseFloats([da, de]) == Some([DigitsValue(da) as real, DigitsValue(de) as real])
  {
    ParseFloatOfDigits(da);
    ParseFloatOfDigits(de);
    var ve, va := DigitsValue(de) as real, DigitsValue(da) as real;
    assert [de][1..] == [];
    assert ParseFloats([]) == Some([]);
    assert ParseFloats([de]) == Some([ve] + []);
    assert [ve] + [] == [ve];
    assert [da, de][1..] == [de];
    assert ParseFloats([da, de]) == Some([va] + [ve]);
    assert [va] + [ve] == [va, ve];
  }

  lemma TokensOfAzEl(da: string, de: string)
    requires |da| > 0 && AllDigits(da) && |de| > 0 && AllDigits(de)
    ensures Tokens("AZ=" + da + " EL=" + de) == [da, de]
  {
    RemoveAz(da, de);
    RemoveEl(da, de);
    EqualsToSpaces(da, de);
    NoCommas(da, de);
    SplitWsTwoNumbers(" ", da, "  ", de);
  }

  lemma RemoveAz(da: string, de: string)
    requires AllDigits(da) && AllDigits(de)
    ensures ReplaceAll("AZ=" + da + " EL=" + de, "AZ", "") == "=" + da + " EL=" + de
  {
    var x := "=" + da + " EL=" + de;
    assert "AZ=" + da + " EL=" + de == "AZ" + x;
    ReplaceAtFront(x, "AZ", "");
    DigitsLack(da, 'A');
    DigitsLack(de, 'A');
    LacksConcat("=", da, 'A');
    LacksConcat("=" + da, " EL=", 'A');
    LacksConcat("=" + da + " EL=", de, 'A');
    ReplaceAbsent(x, "AZ", "");
  }

  lemma RemoveEl(da: string, de: string)
    requires AllDigits(da) && AllDigits(de)
    ensures ReplaceAll("=" + da + " EL=" + de, "EL", "") == "=" + da + " =" + de
  {
    var p := "=" + da + " ";
    var q := "=" + de;
    assert "=" + da + " EL=" + de == p + ("EL" + q);
    DigitsLack(da, 'E');
    DigitsLack(de, 'E');
    LacksConcat("=", da, 'E');
    LacksConcat("=" + da, " ", 'E');
    LacksConcat("=", de, 'E');
    RemoveBetween(p, "EL", "", q);
    assert p + q == "=" + da + " =" + de;
  }

  /** One occurrence of the pattern, with none of its first character
      elsewhere, is replaced. */
  lemma RemoveBetween(p: string, pattern: string, replacement: string, q: string)
    requires |pattern| > 0 && Lacks(p, pattern[0]) && Lacks(q, pattern[0])
    ensures ReplaceAll(p + (pattern + q), pattern, replacement) == p + replacement + q
  {
    ReplaceAfterAbsent(p, pattern + q, pattern, replacement);
    ReplaceAtFront(q, pattern, replacement);
    ReplaceAbsent(q, pattern, replacement);
  }

  lemma EqualsToSpaces(da: string, de: string)
    requires AllDigits(da) && AllDigits(de)
    ensures ReplaceAll("=" + da + " =" + de, "=", " ") == " " + da + "  " + de
  {
    DigitsLack(da, '=');
    DigitsLack(de, '=');
    LacksConcat(da, " ", '=');
    var y := ReplaceAll((da + " ") + ("=" + de), "=", " ");
    RemoveBetween(da + " ", "=", " ", de);
    assert "=" + da + " =" + de == "=" + ((da + " ") + ("=" + de));
    ReplaceAtFront((da + " ") + ("=" + de), "=", " ");
    assert " " + (da + " " + " " + de) == " " + da + "  " + de;
  }

  lemma NoCommas(da: string, de: string)
    requires AllDigits(da) && AllDigits(de)
    ensures ReplaceAll(" " + da + "  " + de, ",", " ") == " " + da + "  " + de
  {
    DigitsLack(da, ',');
    DigitsLack(de, ',');
    LacksConcat(" ", da, ',');
    LacksConcat(" " + da, "  ", ',');
    LacksConcat(" " + da + "  ", de, ',');
    ReplaceAbsent(" " + da + "  " + de, ",", " ");
  }

  lemma TokensOfPlain(da: string, de: string)
    requires |da| > 0 && AllDigits(da) && |de| > 0 && AllDigits(de)
    ensures Tokens(da + " " + de) == [da, de]
  {
    var line := da + " " + de;
    DigitsLack(da, 'A'); DigitsLack(de, 'A');
    DigitsLack(da, 'E'); DigitsLack(de, 'E');
    DigitsLack(da, '='); DigitsLack(de, '=');
    DigitsLack(da, ','); DigitsLack(de, ',');
    LacksConcat(da, " ", 'A'); LacksConcat(da + " ", de, 'A');
    LacksConcat(da, " ", 'E'); LacksConcat(da + " ", de, 'E');
    LacksConcat(da, " ", '='); LacksConcat(da + " ", de, '=');
    LacksConcat(da, " ", ','); LacksConcat(da + " ", de, ',');
    ReplaceAbsent(line, "AZ", "");
    ReplaceAbsent(line, "EL", "");
    ReplaceAbsent(line, "=", " ");
    ReplaceAbsent(line, ",", " ");
    assert line == [] + da + " " + de;
    SplitWsTwoNumbers([], da, " ", de);
  }

  /** Away from the signed branch a reply parses only when its line holds
      exactly two tokens. */
  lemma ParseC2NeedsTwoTokens(reply: string, w: nat)
    requires reply != []
    requires !Signed(Strip(reply))
    requires |Tokens(Strip(reply))| != 2
    ensures ParseC2With(reply, w) == None
  {
  }
}
