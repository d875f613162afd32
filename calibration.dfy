/**
 * The calibration wizard's GS-232B link: the C2 reply parser shared with
 * the wizard's display, and the serial manager in simulate mode, where W
 * commands move a simulated rotator, C2 reports its position and every
 * other command is acknowledged without effect.
 */
module Calibration {
  import opened Wrappers
  import opened Builtins

  /** x held within [lo, hi]. */
  function Clamp(x: int, lo: int, hi: int): (r: int)
    requires lo <= hi
    ensures lo <= r <= hi
    ensures lo <= x <= hi ==> r == x
    ensures x < lo ==> r == lo
    ensures hi < x ==> r == hi
  {
    var m := if hi < x then hi else x;
    if lo > m then lo else m
  }

  // ---------------------------------------------------------------------------
  // The C2 reply pattern
  //   AZ\s*[:=]\s*([+\-]?\d{1,4})\D+EL\s*[:=]\s*([+\-]?\d{1,3}), IGNORECASE,
  // searched for anywhere in the reply.
  // ---------------------------------------------------------------------------

  /** The end of the run of whitespace starting at i. */
  function SpacesEnd(s: string, i: nat): (j: nat)
    requires i <= |s|
    ensures i <= j <= |s|
    ensures forall k :: i <= k < j ==> IsSpace(s[k])
    ensures j < |s| ==> !IsSpace(s[j])
    decreases |s| - i
  {
    if i < |s| && IsSpace(s[i]) then SpacesEnd(s, i + 1) else i
  }

  /** The end of the run of digits starting at i. */
  function DigitsEnd(s: string, i: nat): (j: nat)
    requires i <= |s|
    ensures i <= j <= |s|
    ensures forall k :: i <= k < j ==> IsDigit(s[k])
    ensures j < |s| ==> !IsDigit(s[j])
    decreases |s| - i
  {
    if i < |s| && IsDigit(s[i]) then DigitsEnd(s, i + 1) else i
  }

  /** The end of the run of non-digits starting at i. */
  function NonDigitsEnd(s: string, i: nat): (j: nat)
    requires i <= |s|
    ensures i <= j <= |s|
    ensures forall k :: i <= k < j ==> !IsDigit(s[k])
    ensures j < |s| ==> IsDigit(s[j])
    decreases |s| - i
  {
    if i < |s| && !IsDigit(s[i]) then NonDigitsEnd(s, i + 1) else i
  }

  /** Past the optional sign `[+\-]?` at i. */
  function SignEnd(s: string, i: nat): (j: nat)
    requires i <= |s|
    ensures i <= j <= |s|
  {
    if i < |s| && (s[i] == '+' || s[i] == '-') then i + 1 else i
  }

  predicate IsAssign(c: char) { c == ':' || c == '=' }

  /** `s[i:]` starts with the two letters given, in either case. */
  predicate LettersAt(s: string, i: nat, first: char, second: char) {
    i + 2 <= |s| && UpperChar(s[i]) == first && UpperChar(s[i + 1]) == second
  }

  /** A letter pair, `\s*[:=]\s*`, an optional sign and a run of digits
      at i: where the sign starts (g), where the digits start (d) and where
      their run ends (e). */
  function SignedField(s: string, i: nat, first: char, second: char): (r: Option<(nat, nat, nat)>)
    requires i <= |s|
    ensures r.Some? ==>
      var (g, d, e) := r.value;
      && i + 2 <= g <= d < e <= |s|
      && (d == g || (d == g + 1 && (s[g] == '+' || s[g] == '-')))
      && (forall k :: d <= k < e ==> IsDigit(s[k]))
      && (e < |s| ==> !IsDigit(s[e]))
  {
    if !LettersAt(s, i, first, second) then None
    else
      var q := SpacesEnd(s, i + 2);
      if q == |s| || !IsAssign(s[q]) then None
      else
        var g := SpacesEnd(s, q + 1);
        var d := SignEnd(s, g);
        var e := DigitsEnd(s, d);
        if e == d then None else Some((g, d, e))
  }

  /** `EL\s*[:=]\s*([+\-]?\d{1,3})` at p: the elevation group, whose
      digits are the first three of the digit run. */
  function TailAt(s: string, p: nat): (r: Option<string>)
    requires p <= |s|
    ensures r.Some? ==> SignedDigits(r.value)
  {
    match SignedField(s, p, 'E', 'L')
      case None => None
      case Some((g, d, e)) =>
        var j := if e < d + 3 then e else d + 3;
        SignedGroup(s, g, d, j);
        Some(s[g..j])
  }

  /** `\D+` is greedy, so the elevation part is tried from the latest
      position of the non-digit stretch backwards: the match at the highest
      p in lo..hi, if any. */
  function LastTail(s: string, lo: nat, hi: nat): (r: Option<string>)
    requires hi < |s|
    ensures r.Some? ==> SignedDigits(r.value)
    decreases hi
  {
    if hi < lo then None
    else if TailAt(s, hi).Some? then TailAt(s, hi)
    else if hi == 0 then None
    else LastTail(s, lo, hi - 1)
  }

  /** The pattern matched at i: the azimuth and elevation groups. A digit
      run of more than four after `AZ=` admits no match here, because
      `\d{1,4}` must be followed by a non-digit. */
  function MatchAt(s: string, i: nat): (r: Option<(string, string)>)
    requires i <= |s|
    ensures r.Some? ==> SignedDigits(r.value.0) && SignedDigits(r.value.1)
  {
    match SignedField(s, i, 'A', 'Z')
      case None => None
      case Some((g, d, e)) =>
        if e > d + 4 then None
        else
          var m := NonDigitsEnd(s, e);
          if m == e then None
          else match LastTail(s, e + 1, m - 1)
            case None => None
            case Some(el) =>
              SignedGroup(s, g, d, e);
              Some((s[g..e], el))
  }

  /** `re.search`: the match at the leftmost position from i on. */
  function Search(s: string, i: nat): (r: Option<(string, string)>)
    requires i <= |s|
    ensures r.Some? ==> SignedDigits(r.value.0) && SignedDigits(r.value.1)
    decreases |s| - i
  {
    if MatchAt(s, i).Some? then MatchAt(s, i)
    else if i == |s| then None
    else Search(s, i + 1)
  }

  /** `parse_c2_az_el`: None for an empty reply or no match, otherwise the
      groups as integers with az clamped into 0..450 and el into 0..180. */
  function ParseC2AzEl(reply: string): (r: Option<(int, int)>)
    ensures reply == [] ==> r.None?
    ensures Search(reply, 0).None? ==> r.None?
    ensures r.Some? ==> 0 <= r.value.0 <= 450 && 0 <= r.value.1 <= 180
  {
    if reply == [] then None
    else match Search(reply, 0)
      case None => None
      case Some((azText, elText)) =>
        match (ParseInt(azText), ParseInt(elText))
          case (Some(az), Some(el)) => Some((Clamp(az, 0, 450), Clamp(el, 0, 180)))
          case _ => None
  }

  /** An optional sign and at least one digit: what both groups match. */
  predicate SignedDigits(t: string) {
    if |t| > 0 && (t[0] == '+' || t[0] == '-') then |t| > 1 && AllDigits(t[1..])
    else |t| > 0 && AllDigits(t)
  }

  /** int() accepts every signed digit string, so its failure branch in
      the parser is never taken. */
  lemma ParseSignedDigits(t: string)
    requires SignedDigits(t)
    ensures ParseInt(t).Some?
  {
    if t[0] == '+' || t[0] == '-' {
      assert t == [t[0]] + t[1..];
      ParseIntOfSigned(t[0], t[1..]);
    } else {
      ParseIntOfDigits(t);
    }
  }

  /** `s[g:j]` is an optional sign, ending at d, then digits. */
  lemma SignedGroup(s: string, g: nat, d: nat, j: nat)
    requires g <= d < j <= |s|
    requires d == g || (d == g + 1 && (s[g] == '+' || s[g] == '-'))
    requires forall k :: d <= k < j ==> IsDigit(s[k])
    ensures SignedDigits(s[g..j])
  {
    var t := s[g..j];
    if d == g {
      assert forall k :: 0 <= k < |t| ==> t[k] == s[g + k];
    } else {
      assert t[0] == s[g];
      assert forall k :: 0 <= k < |t| - 1 ==> t[1..][k] == s[d + k];
    }
  }

  /** A non-empty reply gives a position exactly when the pattern occurs in
      it; the position is then the groups' integer values, clamped. */
  lemma ParseC2AzElMatch(reply: string)
    requires reply != []
    ensures ParseC2AzEl(reply).Some? <==> Search(reply, 0).Some?
    ensures Search(reply, 0).Some? ==>
      var (a, b) := Search(reply, 0).value;
      && ParseInt(a).Some? && ParseInt(b).Some?
      && ParseC2AzEl(reply) == Some((Clamp(ParseInt(a).value, 0, 450), Clamp(ParseInt(b).value, 0, 180)))
  {
    if Search(reply, 0).Some? {
      ParseSignedDigits(Search(reply, 0).value.0);
      ParseSignedDigits(Search(reply, 0).value.1);
    }
  }

  /** The simulated C2 report, `f"AZ={az:03d} EL={el:03d}"`. */
  function C2Echo(az: int, el: int): string {
    "AZ=" + FormatD03(az) + " EL=" + FormatD03(el)
  }

  /** An `AZ=<digits> EL=<digits>` reply matches at its first character. */
  lemma MatchEcho(s: string, d1: string, d2: string)
    requires 1 <= |d1| <= 4 && AllDigits(d1) && 1 <= |d2| <= 3 && AllDigits(d2)
    requires s == "AZ=" + d1 + " EL=" + d2
    ensures MatchAt(s, 0) == Some((d1, d2))
  {
    var e := 3 + |d1|;
    assert |s| == e + 4 + |d2|;
    assert s[0] == 'A' && s[1] == 'Z' && s[2] == '=';
    assert s[3..e] == d1;
    assert s[e] == ' ' && s[e + 1] == 'E' && s[e + 2] == 'L' && s[e + 3] == '=';
    assert s[e + 4..] == d2;
    HeadEcho(s, e);
    TailEcho(s, e, d2);
  }

  /** The azimuth part of the reply: `AZ=` then digits up to position e,
      then four non-digits and a digit. */
  lemma HeadEcho(s: string, e: nat)
    requires 4 <= e <= 7 && e + 5 <= |s|
    requires s[0] == 'A' && s[1] == 'Z' && s[2] == '=' && AllDigits(s[3..e])
    requires !IsDigit(s[e]) && s[e + 1] == 'E' && s[e + 2] == 'L' && s[e + 3] == '=' && IsDigit(s[e + 4])
    ensures SpacesEnd(s, 2) == 2 && SpacesEnd(s, 3) == 3 && SignEnd(s, 3) == 3
    ensures DigitsEnd(s, 3) == e && NonDigitsEnd(s, e) == e + 4
    ensures SignedField(s, 0, 'A', 'Z') == Some((3, 3, e))
  {
    assert forall k :: 3 <= k < e ==> IsDigit(s[k]) by {
      forall k | 3 <= k < e ensures IsDigit(s[k]) {
        assert s[k] == s[3..e][k - 3];
      }
    }
  }

  /** The elevation part: `EL=` then the digits to the end. */
  lemma TailEcho(s: string, e: nat, d2: string)
    requires 1 <= |d2| <= 3 && AllDigits(d2)
    requires e + 4 + |d2| == |s|
    requires s[e + 1] == 'E' && s[e + 2] == 'L' && s[e + 3] == '=' && s[e + 4..] == d2
    ensures LastTail(s, e + 1, e + 3) == Some(d2)
  {
    TailAtEcho(s, e, d2);
    assert !LettersAt(s, e + 2, 'E', 'L') && !LettersAt(s, e + 3, 'E', 'L');
    assert TailAt(s, e + 3).None? && TailAt(s, e + 2).None?;
    assert LastTail(s, e + 1, e + 1) == Some(d2);
    assert LastTail(s, e + 1, e + 2) == Some(d2);
  }

  lemma TailAtEcho(s: string, e: nat, d2: string)
    requires 1 <= |d2| <= 3 && AllDigits(d2)
    requires e + 4 + |d2| == |s|
    requires s[e + 1] == 'E' && s[e + 2] == 'L' && s[e + 3] == '=' && s[e + 4..] == d2
    ensures TailAt(s, e + 1) == Some(d2)
  {
    assert forall k :: e + 4 <= k < |s| ==> IsDigit(s[k]) by {
      forall k | e + 4 <= k < |s| ensures IsDigit(s[k]) {
        assert s[k] == d2[k - e - 4];
      }
    }
    assert SpacesEnd(s, e + 3) == e + 3;
    assert SpacesEnd(s, e + 4) == e + 4;
    assert SignEnd(s, e + 4) == e + 4;
    assert DigitsEnd(s, e + 4) == |s|;
    assert LettersAt(s, e + 1, 'E', 'L') && IsAssign(s[e + 3]);
    assert s[e + 4..|s|] == d2;
    assert SignedField(s, e + 1, 'E', 'L') == Some((e + 4, e + 4, |s|));
  }

  /** Round trip: the C2 report of an in-range position parses back to it. */
  lemma ParseC2Echo(az: int, el: int)
    requires 0 <= az <= 450 && 0 <= el <= 180
    ensures ParseC2AzEl(C2Echo(az, el)) == Some((az, el))
  {
    var s := C2Echo(az, el);
    FormatD03Digits(az);
    FormatD03Digits(el);
    MatchEcho(s, FormatD03(az), FormatD03(el));
    ParseIntOfDigits(FormatD03(az));
    ParseIntOfDigits(FormatD03(el));
  }

  // ---------------------------------------------------------------------------
  // The W command body: re.split(r"[,\s]+", body)
  // ---------------------------------------------------------------------------

  predicate IsSep(c: char) { c == ',' || IsSpace(c) }

  predicate NoSep(s: string) {
    forall i :: 0 <= i < |s| ==> !IsSep(s[i])
  }

  /** The end of the run of characters that are not separators, from i. */
  function FieldEnd(s: string, i: nat): (j: nat)
    requires i <= |s|
    ensures i <= j <= |s|
    ensures forall k :: i <= k < j ==> !IsSep(s[k])
    ensures j < |s| ==> IsSep(s[j])
    decreases |s| - i
  {
    if i < |s| && !IsSep(s[i]) then FieldEnd(s, i + 1) else i
  }

  /** The end of the run of separators from i. */
  function SepsEnd(s: string, i: nat): (j: nat)
    requires i <= |s|
    ensures i <= j <= |s|
    ensures forall k :: i <= k < j ==> IsSep(s[k])
    ensures j < |s| ==> !IsSep(s[j])
    decreases |s| - i
  {
    if i < |s| && IsSep(s[i]) then SepsEnd(s, i + 1) else i
  }

  /** The fields of `s[i:]` between maximal separator runs; a separator run
      at either end leaves an empty field there, as `re.split` does. */
  function SplitSeps(s: string, i: nat): (parts: seq<string>)
    requires i <= |s|
    ensures |parts| >= 1
    ensures forall k :: 0 <= k < |parts| ==> NoSep(parts[k])
    decreases |s| - i
  {
    var j := FieldEnd(s, i);
    if j == |s| then [s[i..]]
    else [s[i..j]] + SplitSeps(s, SepsEnd(s, j))
  }

  /** Two fields with one space between them split back into the two. */
  lemma SplitTwoFields(s: string, a: string, b: string)
    requires |a| > 0 && NoSep(a) && |b| > 0 && NoSep(b)
    requires s == a + " " + b
    ensures SplitSeps(s, 0) == [a, b]
  {
    assert forall k :: 0 <= k < |a| ==> s[k] == a[k];
    assert s[|a|] == ' ';
    assert forall k :: |a| < k < |s| ==> s[k] == b[k - |a| - 1];
    assert FieldEnd(s, 0) == |a|;
    assert SepsEnd(s, |a|) == |a| + 1;
    assert FieldEnd(s, |a| + 1) == |s|;
    assert s[..|a|] == a;
    assert s[|a| + 1..] == b;
  }

  // ---------------------------------------------------------------------------
  // The simulated rotator
  // ---------------------------------------------------------------------------

  /** The simulate-mode fields of the serial manager. */
  datatype SimState = SimState(az: int, el: int, lastCmd: string)

  predicate InRange(st: SimState) {
    0 <= st.az <= 450 && 0 <= st.el <= 180
  }

  /** An absolute move: the line starts with W. */
  predicate IsMove(line: string) {
    |line| >= 1 && line[0] == 'W'
  }

  /** A position query: the line starts with C2. */
  predicate IsPositionQuery(line: string) {
    |line| >= 2 && line[0] == 'C' && line[1] == '2'
  }

  /** The W body's first two fields as integers, if it has two that int()
      accepts. */
  function MoveTarget(line: string): Option<(int, int)>
    requires |line| >= 1
  {
    var body := Strip(line[1..]);
    var parts := SplitSeps(body, 0);
    if |parts| >= 2 then
      match (ParseInt(parts[0]), ParseInt(parts[1]))
        case (Some(az), Some(el)) => Some((az, el))
        case _ => None
    else None
  }

  /** `_sim_write_cmd`: the new simulated state and the reply. The command
      is stripped and kept; its upper-cased form selects the action. */
  function SimResponse(st: SimState, cmd: string): (r: (SimState, string))
    ensures r.0.lastCmd == Strip(cmd)
    ensures InRange(st) ==> InRange(r.0)
  {
    Respond(st, Strip(cmd), Upper(Strip(cmd)))
  }

  /** Where a W command leaves the simulated rotator: at its target,
      clamped to the rotator's travel, or where it was when the command
      carried no target. */
  function MoveTo(st: SimState, target: Option<(int, int)>): (r: SimState)
    ensures r.lastCmd == st.lastCmd
    ensures InRange(st) ==> InRange(r)
    ensures target.Some? ==> InRange(r)
    ensures target.None? ==> r == st
  {
    match target
      case Some((az, el)) => SimState(Clamp(az, 0, 450), Clamp(el, 0, 180), st.lastCmd)
      case None => st
  }

  /** The action of the stripped command `last`, whose upper-cased form is `line`. */
  function Respond(st: SimState, last: string, line: string): (r: (SimState, string))
    ensures r.0.lastCmd == last
    ensures InRange(st) ==> InRange(r.0)
  {
    if IsMove(line) then
      (MoveTo(st, MoveTarget(line)).(lastCmd := last), "")
    else if IsPositionQuery(line) then
      (st.(lastCmd := last), C2Echo(st.az, st.el))
    else
      // "S" (all stop) and any other command: acknowledged, nothing moves.
      (st.(lastCmd := last), "")
  }

  /** A W command with two integer fields moves the simulated rotator to
      them, clamped; one without leaves the position alone. Either way the
      reply is empty. */
  lemma SimMove(st: SimState, cmd: string)
    requires IsMove(Upper(Strip(cmd)))
    ensures var r := SimResponse(st, cmd);
      && r.1 == ""
      && match MoveTarget(Upper(Strip(cmd)))
           case Some((az, el)) => r.0.az == Clamp(az, 0, 450) && r.0.el == Clamp(el, 0, 180)
           case None => r.0.az == st.az && r.0.el == st.el
  {
  }

  /** Anything that is not a W command leaves the position alone; C2
      reports it and everything else gets an empty reply. */
  lemma SimOther(st: SimState, cmd: string)
    requires !IsMove(Upper(Strip(cmd)))
    ensures var r := SimResponse(st, cmd);
      && r.0.az == st.az && r.0.el == st.el
      && r.1 == (if IsPositionQuery(Upper(Strip(cmd))) then C2Echo(st.az, st.el) else "")
  {
  }

  /** The move command `send_move` writes, `f"W{az:03d} {el:03d}"`. */
  function MoveCommand(az: int, el: int): string {
    "W" + FormatD03(az) + " " + FormatD03(el)
  }

  /** The rounded, clamped target that `send_move` commands. */
  function MoveAz(azDeg: real): int { Clamp(RoundHalfEven(azDeg), 0, 450) }
  function MoveEl(elDeg: real): int { Clamp(RoundHalfEven(elDeg), 0, 180) }

  predicate NoLower(s: string) {
    forall i :: 0 <= i < |s| ==> !('a' <= s[i] <= 'z')
  }

  lemma UpperOfNoLower(s: string)
    requires NoLower(s)
    ensures Upper(s) == s
  {
    assert forall i :: 0 <= i < |s| ==> Upper(s)[i] == s[i];
  }

  lemma DigitsNoSep(d: string)
    requires AllDigits(d)
    ensures NoSep(d) && NoLower(d)
  {
  }

  /** The move command, simulated, lands exactly on its target. */
  lemma SimMoveCommand(st: SimState, cmd: string, az: int, el: int)
    requires 0 <= az <= 450 && 0 <= el <= 180
    requires cmd == MoveCommand(az, el)
    ensures SimResponse(st, cmd) == (SimState(az, el, cmd), "")
  {
    MoveCommandText(cmd, az, el);
    MoveTargetOfCommand(cmd, az, el);
    SimWellFormedMove(st, cmd, az, el);
  }

  lemma SimWellFormedMove(st: SimState, cmd: string, az: int, el: int)
    requires 0 <= az <= 450 && 0 <= el <= 180
    requires Strip(cmd) == cmd && Upper(cmd) == cmd
    requires IsMove(cmd) && MoveTarget(cmd) == Some((az, el))
    ensures SimResponse(st, cmd) == (SimState(az, el, cmd), "")
  {
    SimResponseOfClean(st, cmd);
    RespondMove(st, cmd, cmd);
  }

  /** A command that is already stripped and upper-case is acted on as it is. */
  lemma SimResponseOfClean(st: SimState, cmd: string)
    requires Strip(cmd) == cmd && Upper(cmd) == cmd
    ensures SimResponse(st, cmd) == Respond(st, cmd, cmd)
  {
  }

  /** The move command is its own strip and upper-case. */
  lemma MoveCommandText(cmd: string, az: int, el: int)
    requires 0 <= az <= 450 && 0 <= el <= 180
    requires cmd == MoveCommand(az, el)
    ensures Strip(cmd) == cmd && Upper(cmd) == cmd && RStrip(cmd) == cmd
    ensures |cmd| == 8 && IsMove(cmd)
  {
    var a := FormatD03(az);
    var b := FormatD03(el);
    FormatD03Digits(az);
    FormatD03Digits(el);
    DigitsNoSep(a);
    DigitsNoSep(b);
    assert cmd[|cmd| - 1] == b[2];
    StripUnchanged(cmd);
    assert NoLower(cmd) by {
      assert forall i :: 1 <= i < 4 ==> cmd[i] == a[i - 1];
      assert forall i :: 5 <= i < 8 ==> cmd[i] == b[i - 5];
    }
    UpperOfNoLower(cmd);
  }

  /** The move command's fields are its two targets. */
  lemma MoveTargetOfCommand(cmd: string, az: int, el: int)
    requires 0 <= az <= 450 && 0 <= el <= 180
    requires cmd == MoveCommand(az, el)
    ensures |cmd| >= 1 && MoveTarget(cmd) == Some((az, el))
  {
    var a := FormatD03(az);
    var b := FormatD03(el);
    FormatD03Digits(az);
    FormatD03Digits(el);
    DigitsNoSep(a);
    DigitsNoSep(b);
    var body := a + " " + b;
    assert cmd[1..] == body;
    assert body[|body| - 1] == b[2];
    StripUnchanged(body);
    SplitTwoFields(body, a, b);
    ParseIntOfDigits(a);
    ParseIntOfDigits(b);
  }

  lemma RespondMove(st: SimState, last: string, line: string)
    requires IsMove(line)
    ensures Respond(st, last, line) == (MoveTo(st, MoveTarget(line)).(lastCmd := last), "")
  {
  }

  lemma RespondC2(st: SimState, last: string, line: string)
    requires !IsMove(line) && IsPositionQuery(line)
    ensures Respond(st, last, line) == (st.(lastCmd := last), C2Echo(st.az, st.el))
  {
  }

  lemma RespondOther(st: SimState, last: string, line: string)
    requires !IsMove(line) && !IsPositionQuery(line)
    ensures Respond(st, last, line) == (st.(lastCmd := last), "")
  {
  }

  /** The C2 command, simulated, reports the position and changes nothing
      else but the last command. */
  lemma SimC2(st: SimState, c: string)
    requires c == "C2"
    ensures SimResponse(st, c) == (st.(lastCmd := c), C2Echo(st.az, st.el))
  {
    StripUnchanged(c);
    assert Upper(c)[0] == 'C' && Upper(c)[1] == '2';
    assert Upper(c) == c;
    RespondC2(st, c, c);
  }

  /** The S command, simulated, changes nothing but the last command. */
  lemma SimStop(st: SimState, c: string)
    requires c == "S"
    ensures SimResponse(st, c) == (st.(lastCmd := c), "")
  {
    StripUnchanged(c);
    assert Upper(c)[0] == 'S';
    assert Upper(c) == c;
    RespondOther(st, c, c);
  }

  /** `send_move` with `echo_c2` in simulate mode: the echoed position,
      parsed by `parse_c2_az_el`, is the rounded and clamped target. */
  lemma SendMoveEcho(st: SimState, azDeg: real, elDeg: real)
    ensures var moved := SimResponse(st, MoveCommand(MoveAz(azDeg), MoveEl(elDeg))).0;
      var echo := SimResponse(moved, "C2").1;
      ParseC2AzEl(echo) == Some((MoveAz(azDeg), MoveEl(elDeg)))
  {
    var az := MoveAz(azDeg);
    var el := MoveEl(elDeg);
    var cmd := MoveCommand(az, el);
    SimMoveCommand(st, cmd, az, el);
    var c := "C2";
    SimC2(SimState(az, el, cmd), c);
    ParseC2Echo(az, el);
  }

  /** The serial manager. Only the simulate-mode state is modelled; the
      serial port is represented by the line it would return. */
  class SerialManager {
    var simulate: bool
    var simAz: int
    var simEl: int
    var simLastCmd: string

    function State(): SimState
      reads this
    {
      SimState(simAz, simEl, simLastCmd)
    }

    /** The simulated position is always within the mount's range. */
    predicate Valid()
      reads this
    {
      InRange(State())
    }

    /** `portOpened` is whether opening a candidate port succeeded; without
        one the manager falls back to simulate mode. */
    constructor (simulate: bool, portOpened: bool)
      ensures this.simulate == (simulate || !portOpened)
      ensures State() == SimState(0, 0, "")
      ensures Valid()
    {
      this.simulate := simulate || !portOpened;
      simAz := 0;
      simEl := 0;
      simLastCmd := "";
    }

    /** `_sim_write_cmd`: the stripped command is kept, and its upper-cased
        form picks the action. */
    method SimWriteCmd(cmd: string) returns (reply: string)
      modifies this
      ensures State() == SimResponse(old(State()), cmd).0
      ensures reply == SimResponse(old(State()), cmd).1
      ensures simulate == old(simulate)
      ensures old(Valid()) ==> Valid()
    {
      ghost var st := State();
      var last := Strip(cmd);
      var line := Upper(last);
      if IsMove(line) {
        RespondMove(st, last, line);
        SimMoveTo(line);
        reply := "";
      } else if IsPositionQuery(line) {
        RespondC2(st, last, line);
        reply := C2Echo(simAz, simEl);
      } else {
        RespondOther(st, last, line);
        reply := "";
      }
      simLastCmd := last;
    }

    /** The W branch of `_sim_write_cmd` for the upper-cased command `line`:
        two integer fields move the simulated rotator, clamped; anything
        else leaves it where it is. */
    method SimMoveTo(line: string)
      requires IsMove(line)
      modifies this
      ensures State() == MoveTo(old(State()), MoveTarget(line))
      ensures simulate == old(simulate)
    {
      var target := MoveTarget(line);
      if target.Some? {
        simAz := Clamp(target.value.0, 0, 450);
        simEl := Clamp(target.value.1, 0, 180);
      }
    }

    /** `write_cmd`: trailing whitespace is dropped; in simulate mode the
        command goes to the simulated rotator and the port is never used,
        otherwise the reply is the port's line when one is expected. */
    method WriteCmd(cmd: string, expectReply: bool, portLine: string) returns (reply: string)
      modifies this
      ensures simulate == old(simulate)
      ensures simulate ==> (State(), reply) == SimResponse(old(State()), RStrip(cmd))
      ensures !simulate ==> State() == old(State()) && reply == (if expectReply then portLine else "")
      ensures old(Valid()) ==> Valid()
    {
      var c := RStrip(cmd);
      if simulate {
        reply := SimWriteCmd(c);
      } else if expectReply {
        reply := portLine;
      } else {
        reply := "";
      }
    }

    /** `send_move`: round, clamp and format the target, write it, and with
        `echoC2` read the position back with C2. */
    method SendMove(azDeg: real, elDeg: real, echoC2: bool, portLine: string)
      returns (cmd: string, reply: string)
      modifies this
      ensures cmd == MoveCommand(MoveAz(azDeg), MoveEl(elDeg))
      ensures |cmd| == 8
      ensures simulate == old(simulate)
      ensures simulate ==> simAz == MoveAz(azDeg) && simEl == MoveEl(elDeg)
      ensures simulate ==> simLastCmd == (if echoC2 then "C2" else cmd)
      ensures simulate ==> reply == (if echoC2 then C2Echo(simAz, simEl) else "")
      ensures simulate && echoC2 ==> ParseC2AzEl(reply) == Some((MoveAz(azDeg), MoveEl(elDeg)))
      ensures !simulate ==> State() == old(State()) && reply == (if echoC2 then portLine else "")
      ensures old(Valid()) ==> Valid()
    {
      var az := MoveAz(azDeg);
      var el := MoveEl(elDeg);
      cmd := MoveCommand(az, el);
      MoveCommandText(cmd, az, el);
      SimMoveCommand(State(), cmd, az, el);
      reply := WriteCmd(cmd, false, portLine);
      if echoC2 {
        var c := "C2";
        SimC2(State(), c);
        ParseC2Echo(az, el);
        assert RStrip(c) == c;
        reply := WriteCmd(c, true, portLine);
      }
    }

    /** `stop`: the all-stop command S, which has no reply. */
    method Stop(portLine: string) returns (reply: string)
      modifies this
      ensures simulate == old(simulate)
      ensures simulate ==> State() == old(State()).(lastCmd := "S")
      ensures !simulate ==> State() == old(State())
      ensures reply == ""
      ensures old(Valid()) ==> Valid()
    {
      var c := "S";
      SimStop(State(), c);
      assert RStrip(c) == c;
      reply := WriteCmd(c, false, portLine);
    }

    /** `c2`: the position echo. */
    method C2(portLine: string) returns (reply: string)
      modifies this
      ensures simulate == old(simulate)
      ensures simulate ==> State() == old(State()).(lastCmd := "C2")
      ensures simulate ==> reply == C2Echo(old(simAz), old(simEl))
      ensures simulate && old(Valid()) ==> ParseC2AzEl(reply) == Some((old(simAz), old(simEl)))
      ensures !simulate ==> State() == old(State()) && reply == portLine
      ensures old(Valid()) ==> Valid()
    {
      var c := "C2";
      SimC2(State(), c);
      if Valid() {
        ParseC2Echo(simAz, simEl);
      }
      assert RStrip(c) == c;
      reply := WriteCmd(c, true, portLine);
    }
  }
}
