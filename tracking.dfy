/**
 * The pointing logic of the GS-232B tracking loop in src/main_gs232b.py:
 * the TLE lookup it drives from, the azimuth unwrap, the slew limiter, the
 * mount clamps and the deadband / rate-limit decision that each animation
 * frame takes. The propagated azimuth and elevation and the wall-clock time
 * of the frame are inputs; angles and times are reals.
 */
module Tracking {
  import opened Wrappers
  import opened Builtins
  import opened TleScan
  import SkyfieldPredictor

  // ---------------------------------------------------------------------------
  // TLE lookup
  // ---------------------------------------------------------------------------

  /** The lookup key of a name: upper-cased, whitespace removed; a missing name is the empty key. */
  function NormName(s: Option<string>): (r: string)
    ensures s.None? ==> r == []
    ensures NoSpace(r)
  {
    RemoveSpaces(Upper(match s case None => "" case Some(t) => t))
  }

  /** Upper-casing before or after removing the whitespace gives the same
      key, so the tracking loop and the Skyfield helpers normalise names
      alike. */
  lemma NormNameIsNormKey(s: string)
    ensures NormName(Some(s)) == SkyfieldPredictor.NormKey(s)
    ensures NormName(Some(s)) == Upper(DropSpaces(s))
  {
    RemoveSpacesIsDrop(Upper(s));
    RemoveSpacesIsDrop(s);
    UpperDropSpaces(s);
  }

  /** Columns 3 to 7 of line 1, the catalogue number, stripped. */
  function NoradField(l1: string): string {
    Strip(Slice(l1, 2, 7))
  }

  type Lookup = map<string, (string, string)>

  /** The two keys load_tle_lookup files a block's element lines under. */
  function NameKeyOf(b: Block): string {
    NormName(Some(b.name))
  }

  function NoradKeyOf(b: Block): string {
    NoradField(b.line1)
  }

  /** The dict filled from blocks `bs` in order, each block's element lines
      stored under `key1(b)` and then under `key2(b)`. */
  function LookupBy(bs: seq<Block>, key1: Block -> string, key2: Block -> string): Lookup {
    if bs == [] then map[]
    else
      var n := |bs| - 1;
      var b := bs[n];
      LookupBy(bs[..n], key1, key2)[key1(b) := (b.line1, b.line2)][key2(b) := (b.line1, b.line2)]
  }

  /** The lookup dict load_tle_lookup builds from the emitted blocks. */
  function LookupOf(bs: seq<Block>): Lookup {
    LookupBy(bs, NameKeyOf, NoradKeyOf)
  }

  /** load_tle_lookup: the file's cleaned lines, then the scan. */
  method LoadTleLookup(raw: seq<string>) returns (lk: Lookup)
    ensures lk == LookupOf(Blocks(CleanLines(raw)))
  {
    var lines := CleanLines(raw);
    lk := ScanLookup(lines, NameKeyOf, NoradKeyOf);
  }

  /** The while loop of load_tle_lookup over the cleaned lines, filing each
      block under `key1` and then `key2` (the normalised name and the
      catalogue number). */
  method ScanLookup(lines: seq<string>, key1: Block -> string, key2: Block -> string)
    returns (lk: Lookup)
    ensures lk == LookupBy(Blocks(lines), key1, key2)
  {
    lk := map[];
    ghost var emitted: seq<Block> := [];
    var i: nat := 0;
    while i <= |lines| - 3
      invariant emitted + BlocksFrom(lines, i) == Blocks(lines)
      invariant lk == LookupBy(emitted, key1, key2)
      decreases |lines| - i
    {
      var name, l1, l2 := lines[i], lines[i + 1], lines[i + 2];
      if StartsWith(l1, "1 ") && StartsWith(l2, "2 ") {
        var b := Block(name, l1, l2);
        assert IsBlockAt(lines, i);
        assert BlocksFrom(lines, i) == [b] + BlocksFrom(lines, i + 3);
        LookupSnoc(emitted, b, key1, key2);
        lk := lk[key1(b) := (l1, l2)];
        lk := lk[key2(b) := (l1, l2)];
        emitted := emitted + [b];
        i := i + 3;
      } else {
        assert !IsBlockAt(lines, i);
        i := i + 1;
      }
    }
    assert BlocksFrom(lines, i) == [];
    assert emitted == Blocks(lines);
  }

  lemma LookupSnoc(bs: seq<Block>, b: Block, key1: Block -> string, key2: Block -> string)
    ensures LookupBy(bs + [b], key1, key2) ==
      LookupBy(bs, key1, key2)[key1(b) := (b.line1, b.line2)][key2(b) := (b.line1, b.line2)]
  {
    assert (bs + [b])[..|bs|] == bs;
  }

  /** The position of the last block filed under `k`. */
  function LastFiledUnder(bs: seq<Block>, key1: Block -> string, key2: Block -> string, k: string): (r: Option<nat>)
    ensures r.Some? ==> r.value < |bs| && (key1(bs[r.value]) == k || key2(bs[r.value]) == k)
    ensures r.Some? ==> forall m :: r.value < m < |bs| ==> key1(bs[m]) != k && key2(bs[m]) != k
    ensures r.None? ==> forall m :: 0 <= m < |bs| ==> key1(bs[m]) != k && key2(bs[m]) != k
  {
    if bs == [] then None
    else
      var n := |bs| - 1;
      if key1(bs[n]) == k || key2(bs[n]) == k then Some(n) else LastFiledUnder(bs[..n], key1, key2, k)
  }

  /** Later blocks overwrite earlier ones: every key holds the element lines
      of the last block filed under it, and there is no other key. */
  lemma {:induction false} LookupLastWins(bs: seq<Block>, key1: Block -> string, key2: Block -> string, k: string)
    ensures k in LookupBy(bs, key1, key2) <==> LastFiledUnder(bs, key1, key2, k).Some?
    ensures k in LookupBy(bs, key1, key2) ==>
      var b := bs[LastFiledUnder(bs, key1, key2, k).value];
      LookupBy(bs, key1, key2)[k] == (b.line1, b.line2)
  {
    if bs != [] {
      var n := |bs| - 1;
      if key1(bs[n]) != k && key2(bs[n]) != k {
        LookupLastWins(bs[..n], key1, key2, k);
        match LastFiledUnder(bs[..n], key1, key2, k)
        case None =>
        case Some(j) => assert bs[..n][j] == bs[j];
      }
    }
  }

  // ---------------------------------------------------------------------------
  // Azimuth unwrap and slew limit
  // ---------------------------------------------------------------------------

  function Abs(x: real): real {
    if x < 0.0 then -x else x
  }

  /** unwrap_az: of new, new + 360 and new - 360, in that order, the first
      one closest to `prev` (Python's min with a key). */
  function UnwrapAz(prev: Option<real>, az: real): (r: real)
    ensures prev.None? ==> r == az
    ensures prev.Some? ==>
      var p := prev.value;
      && (r == az || r == az + 360.0 || r == az - 360.0)
      && Abs(r - p) <= Abs(az - p)
      && Abs(r - p) <= Abs(az + 360.0 - p)
      && Abs(r - p) <= Abs(az - 360.0 - p)
      && (r == az + 360.0 ==> Abs(az - p) > Abs(r - p))
      && (r == az - 360.0 ==> Abs(az - p) > Abs(r - p) && Abs(az + 360.0 - p) > Abs(r - p))
  {
    match prev
    case None => az
    case Some(p) =>
      var best := if Abs(az + 360.0 - p) < Abs(az - p) then az + 360.0 else az;
      if Abs(az - 360.0 - p) < Abs(best - p) then az - 360.0 else best
  }

  /** Within three half-turns of `prev`, the unwrapped azimuth lands within
      half a turn of it. */
  lemma UnwrapWithinHalfTurn(p: real, az: real)
    requires az - 540.0 <= p <= az + 540.0
    ensures Abs(UnwrapAz(Some(p), az) - p) <= 180.0
  {
  }

  /** `_slew_toward`: the step toward `target` is clamped to the largest
      move `rate` allows in `dt` seconds (at least one millisecond). */
  function SlewToward(current: Option<real>, target: real, rate: real, dt: real): real {
    match current
    case None => target
    case Some(c) =>
      var maxDelta := rate * (if dt > 0.001 then dt else 0.001);
      var dv := target - c;
      var capped := if dv > maxDelta then maxDelta else dv;
      var step := if capped < -maxDelta then -maxDelta else capped;
      c + step
  }

  /** For a non-negative rate the slew moves toward the target, never past
      it, by at most the allowed step, and lands on the target exactly when
      it is within that step. */
  lemma SlewBounded(c: real, target: real, rate: real, dt: real)
    requires rate >= 0.0
    ensures var maxDelta := rate * (if dt > 0.001 then dt else 0.001);
      var r := SlewToward(Some(c), target, rate, dt);
      && Abs(r - c) <= maxDelta
      && Abs(target - r) <= Abs(target - c)
      && (r == target <==> Abs(target - c) <= maxDelta)
      && (target >= c ==> c <= r <= target)
      && (target <= c ==> target <= r <= c)
  {
    var m := if dt > 0.001 then dt else 0.001;
    assert rate * m >= 0.0;
  }

  // ---------------------------------------------------------------------------
  // One frame of the tracking loop
  // ---------------------------------------------------------------------------

  const AzDeadband: real := 2.0
  const ElDeadband: real := 1.0
  const MinInterval: real := 1.0
  const AzSlewRate: real := 8.0
  const ElSlewRate: real := 6.0
  const ZenithFreeze: real := 87.0
  const QuantStep: real := 0.5

  /** What the frame does with the rotator. */
  datatype Decision =
    | HoldBelowHorizon
    | SkipDeadband(az: real, el: real)
    | SkipRateLimit(az: real, el: real)
    | Send(az: real, el: real)

  /** `smoothed`, `last_cmd` and `last_sent_time` between frames. */
  datatype TrackState = TrackState(
    smoothedAz: Option<real>, smoothedEl: Option<real>,
    lastAz: Option<real>, lastEl: Option<real>, lastSent: real)

  /** The two halves of a command are always set together, within the
      mount's limits. */
  predicate Consistent(st: TrackState) {
    && (st.lastAz.Some? <==> st.lastEl.Some?)
    && (st.lastAz.Some? ==> 0.0 <= st.lastAz.value <= 450.0)
    && (st.lastEl.Some? ==> 0.0 <= st.lastEl.value <= 180.0)
  }

  /** The time step fed to the slew limiter: the time since the last send,
      or 0.6 s before the first, held within [0.05, 2.0]. */
  function FrameDt(lastSent: real, now: real): (dt: real)
    ensures 0.05 <= dt <= 2.0
    ensures lastSent > 0.0 && 0.05 <= now - lastSent <= 2.0 ==> dt == now - lastSent
    ensures lastSent > 0.0 && now - lastSent < 0.05 ==> dt == 0.05
    ensures lastSent > 0.0 && now - lastSent > 2.0 ==> dt == 2.0
    ensures lastSent <= 0.0 ==> dt == 0.6
  {
    var raw := if lastSent > 0.0 then now - lastSent else 0.6;
    var lo := if raw > 0.05 then raw else 0.05;
    if lo < 2.0 then lo else 2.0
  }

  /** `_quantize`: to the nearest half degree, ties to even. */
  function Quantize(v: real): real {
    (RoundHalfEven(v / QuantStep) as real) * QuantStep
  }

  function ClampReal(x: real, lo: real, hi: real): (r: real)
    requires lo <= hi
    ensures lo <= r <= hi
    ensures lo <= x <= hi ==> r == x
    ensures x < lo ==> r == lo
    ensures hi < x ==> r == hi
  {
    if x < lo then lo else if x > hi then hi else x
  }

  /** Both halves of the new command are within the deadband of the last one. */
  predicate InDeadband(st: TrackState, az: real, el: real) {
    && st.lastAz.Some? && st.lastEl.Some?
    && Abs(az - st.lastAz.value) < AzDeadband
    && Abs(el - st.lastEl.value) < ElDeadband
  }

  predicate RateLimited(st: TrackState, now: real) {
    st.lastSent > 0.0 && now - st.lastSent < MinInterval
  }

  /** The azimuth the slew aims at: the unwrapped new azimuth, or the
      current smoothed azimuth near the zenith. */
  function AzTarget(smAz: real, az: real, el: real): real {
    if el >= ZenithFreeze then smAz else UnwrapAz(Some(smAz), az)
  }

  /** The anti-jitter and send block of `animate` for one frame, given the
      propagated elevation and azimuth (0 to 360) and the frame's time. */
  function Frame(st: TrackState, el: real, az: real, now: real): (TrackState, Decision) {
    if el < 0.0 then (st, HoldBelowHorizon)
    else
      var (newAz, newEl) := Smoothed(st, el, az, now);
      var azCmd := ClampReal(Quantize(newAz), 0.0, 450.0);
      var elCmd := ClampReal(Quantize(newEl), 0.0, 180.0);
      Decide(st, st.(smoothedAz := Some(newAz), smoothedEl := Some(newEl)), azCmd, elCmd, now)
  }

  /** The smoothed azimuth and elevation after this frame's slew; a value
      not smoothed yet starts from the frame's own. */
  function Smoothed(st: TrackState, el: real, az: real, now: real): (real, real) {
    var smAz := match st.smoothedAz case None => az case Some(a) => a;
    var smEl := match st.smoothedEl case None => el case Some(e) => e;
    var dt := FrameDt(st.lastSent, now);
    (SlewToward(Some(smAz), AzTarget(smAz, az, el), AzSlewRate, dt),
     SlewToward(Some(smEl), el, ElSlewRate, dt))
  }

  /** Deadband first, then the rate limit, else send; `smoothed` is the
      state with the new smoothed values. */
  function Decide(st: TrackState, smoothed: TrackState, azCmd: real, elCmd: real, now: real)
    : (TrackState, Decision)
  {
    if InDeadband(st, azCmd, elCmd) then (smoothed, SkipDeadband(azCmd, elCmd))
    else if RateLimited(st, now) then (smoothed, SkipRateLimit(azCmd, elCmd))
    else (smoothed.(lastAz := Some(azCmd), lastEl := Some(elCmd), lastSent := now), Send(azCmd, elCmd))
  }

  /** A frame sends exactly when the satellite is above the horizon and the
      command is neither inside the deadband nor too soon after the last
      one; what it sends is within the mount's limits and becomes the last
      command, stamped with the frame's time. A skipped frame gives the
      deadband as its reason whenever it applies, the rate limit otherwise. */
  lemma SendExactly(st: TrackState, el: real, az: real, now: real)
    ensures var (st', d) := Frame(st, el, az, now);
      && (d.Send? <==> el >= 0.0 && !InDeadband(st, d.az, d.el) && !RateLimited(st, now))
      && (d.Send? ==> 0.0 <= d.az <= 450.0 && 0.0 <= d.el <= 180.0
                      && st'.lastAz == Some(d.az) && st'.lastEl == Some(d.el) && st'.lastSent == now)
      && (!d.Send? ==> st'.lastAz == st.lastAz && st'.lastEl == st.lastEl && st'.lastSent == st.lastSent)
      && (d.HoldBelowHorizon? <==> el < 0.0)
      && (el >= 0.0 ==> (d.SkipDeadband? <==> InDeadband(st, d.az, d.el)))
      && (el >= 0.0 ==> (d.SkipRateLimit? <==> !InDeadband(st, d.az, d.el) && RateLimited(st, now)))
  {
  }

  /** Below the horizon nothing is sent and nothing changes. */
  lemma BelowHorizonHolds(st: TrackState, el: real, az: real, now: real)
    requires el < 0.0
    ensures Frame(st, el, az, now) == (st, HoldBelowHorizon)
  {
  }

  /** Near the zenith the smoothed azimuth stays where it is. */
  lemma ZenithHoldsAzimuth(st: TrackState, el: real, az: real, now: real, a: real)
    requires el >= ZenithFreeze && st.smoothedAz == Some(a)
    ensures Frame(st, el, az, now).0.smoothedAz == Some(a)
  {
  }

  /** Per frame the smoothed azimuth moves by at most 16 degrees and the
      smoothed elevation by at most 12 (the slew rates over the longest
      time step). */
  lemma SlewPerFrame(st: TrackState, el: real, az: real, now: real)
    requires el >= 0.0 && st.smoothedAz.Some? && st.smoothedEl.Some?
    ensures var st' := Frame(st, el, az, now).0;
      && st'.smoothedAz.Some? && st'.smoothedEl.Some?
      && Abs(st'.smoothedAz.value - st.smoothedAz.value) <= 16.0
      && Abs(st'.smoothedEl.value - st.smoothedEl.value) <= 12.0
  {
    var dt := FrameDt(st.lastSent, now);
    var a := st.smoothedAz.value;
    SlewBounded(a, AzTarget(a, az, el), AzSlewRate, dt);
    SlewBounded(st.smoothedEl.value, el, ElSlewRate, dt);
  }

  /** The tracking loop's state as it lives between animation frames. */
  class Tracker {
    var smoothedAz: Option<real>
    var smoothedEl: Option<real>
    var lastAz: Option<real>
    var lastEl: Option<real>
    var lastSent: real

    function State(): TrackState
      reads this
    {
      TrackState(smoothedAz, smoothedEl, lastAz, lastEl, lastSent)
    }

    /** Nothing smoothed, nothing sent, `last_sent_time` 0. */
    constructor()
      ensures State() == TrackState(None, None, None, None, 0.0)
      ensures Consistent(State())
    {
      smoothedAz, smoothedEl := None, None;
      lastAz, lastEl := None, None;
      lastSent := 0.0;
    }

    /** One frame of `animate` after propagation. */
    method Animate(el: real, az: real, now: real) returns (d: Decision)
      requires Consistent(State())
      modifies this
      ensures Consistent(State())
      ensures (State(), d) == Frame(old(State()), el, az, now)
    {
      if el < 0.0 {
        return HoldBelowHorizon;
      }
      Smooth(el, az, now);
      var azCmd := ClampReal(Quantize(smoothedAz.value), 0.0, 450.0);
      var elCmd := ClampReal(Quantize(smoothedEl.value), 0.0, 180.0);
      if lastAz.Some? && lastEl.Some? && Abs(azCmd - lastAz.value) < AzDeadband
        && Abs(elCmd - lastEl.value) < ElDeadband
      {
        d := SkipDeadband(azCmd, elCmd);
      } else if lastSent > 0.0 && now - lastSent < MinInterval {
        d := SkipRateLimit(azCmd, elCmd);
      } else {
        lastAz, lastEl := Some(azCmd), Some(elCmd);
        lastSent := now;
        d := Send(azCmd, elCmd);
      }
    }

    /** The smoothing half of a frame above the horizon: values not smoothed
        yet are seeded from the frame's own, then both are slewed. */
    method Smooth(el: real, az: real, now: real)
      modifies this
      ensures smoothedAz == Some(Smoothed(old(State()), el, az, now).0)
      ensures smoothedEl == Some(Smoothed(old(State()), el, az, now).1)
      ensures lastAz == old(lastAz) && lastEl == old(lastEl) && lastSent == old(lastSent)
    {
      if smoothedAz.None? {
        smoothedAz := Some(az);
      }
      if smoothedEl.None? {
        smoothedEl := Some(el);
      }
      var targetAz := UnwrapAz(smoothedAz, az);
      if el >= ZenithFreeze {
        targetAz := smoothedAz.value;
      }
      var dt := FrameDt(lastSent, now);
      smoothedAz := Some(SlewToward(smoothedAz, targetAz, AzSlewRate, dt));
      smoothedEl := Some(SlewToward(smoothedEl, el, ElSlewRate, dt));
    }
  }
}
