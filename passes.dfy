/**
 * Pass prediction over a sampled elevation track: the TLE file is scanned
 * into blocks, each satellite's elevation is sampled from the window start
 * to the window end in fixed steps, maximal runs of samples at or above the
 * minimum elevation become passes (start, peak, end, maximum elevation),
 * and only passes whose peak is not in the past are kept.
 *
 * Times are integers (seconds); a satellite's elevation track is a function
 * from time to degrees, standing in for the orbit propagator.
 */
module PassVisibility {
  import opened Wrappers
  import opened Builtins
  import opened TleScan

  type Positive = n: int | n > 0 witness 1

  datatype PassInterval = PassInterval(start: int, peak: int, end: int, maxEl: real)

  datatype SatPassSummary = SatPassSummary(name: string, passes: seq<PassInterval>)

  /** `has_pass`: the summary holds at least one pass. */
  predicate HasPass(s: SatPassSummary) {
    s.passes != []
  }

  /** `next_pass`: the first pass, if there is one. */
  function NextPass(s: SatPassSummary): (r: Option<PassInterval>)
    ensures r.Some? <==> HasPass(s)
    ensures r.Some? ==> r.value == s.passes[0]
  {
    if s.passes != [] then Some(s.passes[0]) else None
  }

  // ---------------------------------------------------------------------
  // Reading the TLE file
  // ---------------------------------------------------------------------

  /** `_read_tle_file` on the file's lines: the stripped non-blank lines are
      scanned for (name, "1 ...", "2 ...") windows. */
  method ReadTleFile(raw: seq<string>) returns (sats: seq<Block>)
    ensures sats == Blocks(CleanLines(raw))
  {
    sats := ScanBlocks(CleanLines(raw));
  }

  /** The scan loop of `_read_tle_file` over the cleaned lines. */
  method ScanBlocks(lines: seq<string>) returns (sats: seq<Block>)
    ensures sats == Blocks(lines)
  {
    sats := [];
    var i := 0;
    while i + 3 <= |lines|
      invariant i <= |lines|
      invariant sats + BlocksFrom(lines, i) == Blocks(lines)
      decreases |lines| - i
    {
      var name := lines[i];
      var l1 := lines[i + 1];
      var l2 := lines[i + 2];
      if StartsWith(l1, "1 ") && StartsWith(l2, "2 ") {
        assert IsBlockAt(lines, i);
        assert BlocksFrom(lines, i) == [Block(name, l1, l2)] + BlocksFrom(lines, i + 3);
        sats := sats + [Block(name, l1, l2)];
        i := i + 3;
      } else {
        assert !IsBlockAt(lines, i);
        i := i + 1;
      }
    }
  }

  // ---------------------------------------------------------------------
  // The sampling window and its maximal runs
  // ---------------------------------------------------------------------

  /** The scan from `start` to `end` (inclusive) every `step` seconds,
      counting elevations of at least `minEl` as visible. */
  datatype Window = Window(start: int, end: int, step: Positive, minEl: real)

  /** The time of sample k. */
  function Time(w: Window, k: nat): int {
    w.start + k * w.step
  }

  /** Sample k lies inside the window. */
  predicate Sampled(w: Window, k: nat) {
    Time(w, k) <= w.end
  }

  /** Sample k is at or above the minimum elevation. */
  predicate Above(w: Window, el: int -> real, k: nat) {
    el(Time(w, k)) >= w.minEl
  }

  lemma {:induction false} TimeMono(w: Window, a: nat, b: nat)
    requires a <= b
    ensures Time(w, a) <= Time(w, b)
    ensures a < b ==> Time(w, a) + w.step <= Time(w, b)
    decreases b - a
  {
    if a < b {
      TimeMono(w, a, b - 1);
      assert Time(w, b) == Time(w, b - 1) + w.step;
    }
  }

  lemma TimeStep(w: Window, k: nat)
    ensures Time(w, k + 1) == Time(w, k) + w.step
  {
  }

  /** A later sample inside the window means every earlier one is inside too. */
  lemma SampledBefore(w: Window, a: nat, b: nat)
    requires a <= b && Sampled(w, b)
    ensures Sampled(w, a)
  {
    TimeMono(w, a, b);
  }

  /** The first sample from k on that is outside the window or below the
      minimum elevation: where a run started at or before k exits. */
  function RunEnd(w: Window, el: int -> real, k: nat): (e: nat)
    ensures k <= e
    ensures forall j :: k <= j < e ==> Sampled(w, j) && Above(w, el, j)
    ensures !Sampled(w, e) || !Above(w, el, e)
    decreases w.end - Time(w, k)
  {
    if !Sampled(w, k) || !Above(w, el, k) then k
    else
      TimeMono(w, k, k + 1);
      RunEnd(w, el, k + 1)
  }

  /** A run of visible samples, first..stop-1; `stop` is the sample it exits at. */
  datatype Run = Run(first: nat, stop: nat)

  /** Every sample of the run is in the window and visible, and the run is
      maximal to the right: its stop sample is outside the window or below. */
  predicate RunOk(w: Window, el: int -> real, r: Run) {
    && r.first < r.stop
    && (forall j :: r.first <= j < r.stop ==> Sampled(w, j) && Above(w, el, j))
    && (!Sampled(w, r.stop) || !Above(w, el, r.stop))
  }

  /** The maximal runs of visible samples from sample k on, in order. */
  function RunsFrom(w: Window, el: int -> real, k: nat): (runs: seq<Run>)
    ensures forall i :: 0 <= i < |runs| ==> RunOk(w, el, runs[i]) && k <= runs[i].first
    ensures forall i :: 0 <= i < |runs| && k < runs[i].first ==>
      Sampled(w, runs[i].first - 1) && !Above(w, el, runs[i].first - 1)
    ensures forall i, j :: 0 <= i < j < |runs| ==> runs[i].stop < runs[j].first
    decreases w.end - Time(w, k)
  {
    if !Sampled(w, k) then []
    else if !Above(w, el, k) then
      TimeMono(w, k, k + 1);
      RunsFrom(w, el, k + 1)
    else
      var e := RunEnd(w, el, k);
      TimeMono(w, k, e);
      [Run(k, e)] + RunsFrom(w, el, e)
  }

  /** The maximum elevation over samples s..e-1. */
  function MaxEl(w: Window, el: int -> real, s: nat, e: nat): real
    requires s < e
    decreases e
  {
    if e == s + 1 then el(Time(w, s))
    else
      var m := MaxEl(w, el, s, e - 1);
      if el(Time(w, e - 1)) > m then el(Time(w, e - 1)) else m
  }

  /** The earliest sample in s..e-1 attaining the maximum elevation. */
  function PeakIdx(w: Window, el: int -> real, s: nat, e: nat): (p: nat)
    requires s < e
    ensures s <= p < e
    decreases e
  {
    if e == s + 1 then s
    else if el(Time(w, e - 1)) > MaxEl(w, el, s, e - 1) then e - 1
    else PeakIdx(w, el, s, e - 1)
  }

  /** The peak sample attains the maximum, no sample exceeds it, and every
      sample before the peak is strictly lower. */
  lemma {:induction false} PeakIsFirstMax(w: Window, el: int -> real, s: nat, e: nat)
    requires s < e
    ensures el(Time(w, PeakIdx(w, el, s, e))) == MaxEl(w, el, s, e)
    ensures forall j :: s <= j < e ==> el(Time(w, j)) <= MaxEl(w, el, s, e)
    ensures forall j :: s <= j < PeakIdx(w, el, s, e) ==> el(Time(w, j)) < MaxEl(w, el, s, e)
    decreases e
  {
    if e > s + 1 {
      PeakIsFirstMax(w, el, s, e - 1);
    }
  }

  /** The pass reported for a run: it starts at the run's first sample,
      peaks at its earliest maximum and ends at the exit sample, or at the
      window end when the window closes mid-pass. */
  function PassOf(w: Window, el: int -> real, r: Run): PassInterval
    requires r.first < r.stop
  {
    PassInterval(
      Time(w, r.first),
      Time(w, PeakIdx(w, el, r.first, r.stop)),
      if Sampled(w, r.stop) then Time(w, r.stop) else w.end,
      MaxEl(w, el, r.first, r.stop))
  }

  function PassesOf(w: Window, el: int -> real, runs: seq<Run>): (ps: seq<PassInterval>)
    requires forall i :: 0 <= i < |runs| ==> runs[i].first < runs[i].stop
    ensures |ps| == |runs|
    ensures forall i :: 0 <= i < |runs| ==> ps[i] == PassOf(w, el, runs[i])
  {
    if runs == [] then [] else [PassOf(w, el, runs[0])] + PassesOf(w, el, runs[1..])
  }

  /** The passes from sample k on, one per maximal run. */
  function PassesFrom(w: Window, el: int -> real, k: nat): seq<PassInterval>
    decreases w.end - Time(w, k)
  {
    if !Sampled(w, k) then []
    else if !Above(w, el, k) then
      TimeMono(w, k, k + 1);
      PassesFrom(w, el, k + 1)
    else
      var e := RunEnd(w, el, k);
      TimeMono(w, k, e);
      [PassOf(w, el, Run(k, e))] + PassesFrom(w, el, e)
  }

  /** The passes of the elevation track `el` over the window. */
  function Passes(w: Window, el: int -> real): seq<PassInterval> {
    PassesFrom(w, el, 0)
  }

  /** The passes are those of the maximal runs, one for one. */
  lemma {:induction false} PassesFromRuns(w: Window, el: int -> real, k: nat)
    ensures PassesFrom(w, el, k) == PassesOf(w, el, RunsFrom(w, el, k))
    decreases w.end - Time(w, k)
  {
    if Sampled(w, k) {
      if !Above(w, el, k) {
        TimeMono(w, k, k + 1);
        PassesFromRuns(w, el, k + 1);
      } else {
        var e := RunEnd(w, el, k);
        TimeMono(w, k, e);
        PassesFromRuns(w, el, e);
        var rest := RunsFrom(w, el, e);
        assert RunsFrom(w, el, k) == [Run(k, e)] + rest;
        assert ([Run(k, e)] + rest)[1..] == rest;
      }
    }
  }

  /** Inside a run that started at s, the run's exit is the exit seen from k. */
  lemma {:induction false} RunEndWithin(w: Window, el: int -> real, s: nat, k: nat)
    requires s <= k
    requires forall j :: s <= j < k ==> Sampled(w, j) && Above(w, el, j)
    ensures RunEnd(w, el, s) == RunEnd(w, el, k)
    decreases k - s
  {
    if s < k {
      RunEndWithin(w, el, s + 1, k);
    }
  }

  /** Samples s..k-1 are all in the window and visible. */
  predicate Visible(w: Window, el: int -> real, s: nat, k: nat) {
    forall j :: s <= j < k ==> Sampled(w, j) && Above(w, el, j)
  }

  /** The loop's state after samples 0..k-1: the passes closed so far
      followed by the passes from the open run's start (or from k when no
      run is open) are all the passes; an open run started at s has its
      start, its earliest peak and its peak elevation at hand. */
  ghost predicate Scanned(w: Window, el: int -> real, k: nat, passes: seq<PassInterval>,
                          inPass: bool, passStart: int, passPeak: int, passPeakEl: real, s: nat)
  {
    if inPass then
      && s < k && Visible(w, el, s, k)
      && passStart == Time(w, s)
      && passPeak == Time(w, PeakIdx(w, el, s, k))
      && passPeakEl == MaxEl(w, el, s, k)
      && passes + PassesFrom(w, el, s) == Passes(w, el)
    else
      passes + PassesFrom(w, el, k) == Passes(w, el)
  }

  /** A visible sample with no run open opens one there. */
  lemma ScanOpen(w: Window, el: int -> real, k: nat, passes: seq<PassInterval>,
                 passStart: int, passPeak: int, passPeakEl: real, s: nat)
    requires Sampled(w, k) && Above(w, el, k)
    requires Scanned(w, el, k, passes, false, passStart, passPeak, passPeakEl, s)
    ensures Scanned(w, el, k + 1, passes, true, Time(w, k), Time(w, k), el(Time(w, k)), k)
  {
  }

  /** A visible sample extends the open run; it becomes the peak only when
      strictly higher than the peak so far. */
  lemma ScanExtend(w: Window, el: int -> real, k: nat, passes: seq<PassInterval>,
                   passStart: int, passPeak: int, passPeakEl: real, s: nat)
    requires Sampled(w, k) && Above(w, el, k)
    requires Scanned(w, el, k, passes, true, passStart, passPeak, passPeakEl, s)
    ensures var higher := el(Time(w, k)) > passPeakEl;
      Scanned(w, el, k + 1, passes, true, passStart,
              if higher then Time(w, k) else passPeak,
              if higher then el(Time(w, k)) else passPeakEl, s)
  {
  }

  /** A sample in the window below the minimum closes the open run, if any,
      at that sample. */
  lemma ScanBelow(w: Window, el: int -> real, k: nat, passes: seq<PassInterval>,
                  inPass: bool, passStart: int, passPeak: int, passPeakEl: real, s: nat)
    requires Sampled(w, k) && !Above(w, el, k)
    requires Scanned(w, el, k, passes, inPass, passStart, passPeak, passPeakEl, s)
    ensures var closed := if inPass then passes + [PassInterval(passStart, passPeak, Time(w, k), passPeakEl)] else passes;
      Scanned(w, el, k + 1, closed, false, 0, 0, -999.0, s)
  {
    assert PassesFrom(w, el, k) == PassesFrom(w, el, k + 1);
    if inPass {
      CloseRun(w, el, s, k);
      var p := PassOf(w, el, Run(s, k));
      assert passes + [p] + PassesFrom(w, el, k) == passes + ([p] + PassesFrom(w, el, k));
    }
  }

  /** Past the window: the open run, if any, closes at the window end. */
  lemma ScanEnd(w: Window, el: int -> real, k: nat, passes: seq<PassInterval>,
                inPass: bool, passStart: int, passPeak: int, passPeakEl: real, s: nat)
    requires !Sampled(w, k)
    requires Scanned(w, el, k, passes, inPass, passStart, passPeak, passPeakEl, s)
    ensures (if inPass then passes + [PassInterval(passStart, passPeak, w.end, passPeakEl)] else passes)
      == Passes(w, el)
  {
    if inPass {
      CloseRun(w, el, s, k);
    }
  }

  /** A run open since s that exits at k contributes the pass of s..k-1. */
  lemma CloseRun(w: Window, el: int -> real, s: nat, k: nat)
    requires s < k && Visible(w, el, s, k)
    requires !Sampled(w, k) || !Above(w, el, k)
    ensures PassesFrom(w, el, s) == [PassOf(w, el, Run(s, k))] + PassesFrom(w, el, k)
  {
    RunEndWithin(w, el, s, k);
  }

  /** `_compute_passes_for_sat`: the loop walks the samples once, keeping the
      open pass's start, peak and peak elevation; a sample below the minimum
      closes the open pass at that sample, and a pass still open when the
      window ends closes at the window end. */
  method ComputePasses(w: Window, el: int -> real) returns (passes: seq<PassInterval>)
    ensures passes == Passes(w, el)
  {
    passes := [];
    var inPass := false;
    var passStart := 0;
    var passPeak := 0;
    var passPeakEl := -999.0;
    var t := w.start;
    ghost var k: nat := 0;
    ghost var s: nat := 0;
    while t <= w.end
      invariant t == Time(w, k)
      invariant Scanned(w, el, k, passes, inPass, passStart, passPeak, passPeakEl, s)
      decreases w.end - t
    {
      var elDeg := el(t);
      if elDeg >= w.minEl {
        if !inPass {
          ScanOpen(w, el, k, passes, passStart, passPeak, passPeakEl, s);
          inPass := true;
          passStart := t;
          passPeak := t;
          passPeakEl := elDeg;
          s := k;
        } else {
          ScanExtend(w, el, k, passes, passStart, passPeak, passPeakEl, s);
          if elDeg > passPeakEl {
            passPeakEl := elDeg;
            passPeak := t;
          }
        }
      } else {
        ScanBelow(w, el, k, passes, inPass, passStart, passPeak, passPeakEl, s);
        if inPass {
          passes := passes + [PassInterval(passStart, passPeak, t, passPeakEl)];
        }
        inPass := false;
        passStart := 0;
        passPeak := 0;
        passPeakEl := -999.0;
      }
      TimeStep(w, k);
      t := t + w.step;
      k := k + 1;
    }
    ScanEnd(w, el, k, passes, inPass, passStart, passPeak, passPeakEl, s);
    if inPass {
      passes := passes + [PassInterval(passStart, passPeak, w.end, passPeakEl)];
    }
  }

  // ---------------------------------------------------------------------
  // What the passes satisfy
  // ---------------------------------------------------------------------

  /** The pass of a run starts at the run's first sample and ends at its
      exit sample or the window end; its peak is the earliest sample
      attaining the run's maximum elevation, so start <= peak <= end. */
  lemma PassOfRun(w: Window, el: int -> real, r: Run)
    requires RunOk(w, el, r)
    ensures var p := PassOf(w, el, r);
      && p.start == Time(w, r.first)
      && p.end == (if Sampled(w, r.stop) then Time(w, r.stop) else w.end)
      && p.start <= p.peak <= p.end
      && p.maxEl >= w.minEl
      && el(p.peak) == p.maxEl
      && (forall j :: r.first <= j < r.stop ==> el(Time(w, j)) <= p.maxEl)
      && (forall j :: r.first <= j < r.stop && Time(w, j) < p.peak ==> el(Time(w, j)) < p.maxEl)
  {
    var q := PeakIdx(w, el, r.first, r.stop);
    PeakIsFirstMax(w, el, r.first, r.stop);
    TimeMono(w, r.first, q);
    TimeMono(w, q, r.stop);
    assert Sampled(w, q) && Above(w, el, q);
    forall j | r.first <= j < r.stop && Time(w, j) < Time(w, q)
      ensures j < q
    {
      if q <= j {
        TimeMono(w, q, j);
      }
    }
  }

  /** The i-th pass is the pass of the i-th maximal run: a run of visible
      samples inside the window that begins at the first sample or right
      after a sample below the minimum, and exits at a sample below the
      minimum or past the window end. */
  lemma PassShape(w: Window, el: int -> real, i: nat)
    requires i < |RunsFrom(w, el, 0)|
    ensures |Passes(w, el)| == |RunsFrom(w, el, 0)|
    ensures var r := RunsFrom(w, el, 0)[i];
      && RunOk(w, el, r)
      && (r.first == 0 || !Above(w, el, r.first - 1))
      && Passes(w, el)[i] == PassOf(w, el, r)
  {
    PassesFromRuns(w, el, 0);
  }

  /** Every visible sample in the window lies in exactly the run of some
      pass: no visible sample is missed. */
  lemma {:induction false} RunCovering(w: Window, el: int -> real, k: nat, j: nat) returns (i: nat)
    requires k <= j && Sampled(w, j) && Above(w, el, j)
    ensures i < |RunsFrom(w, el, k)|
    ensures RunsFrom(w, el, k)[i].first <= j < RunsFrom(w, el, k)[i].stop
    decreases w.end - Time(w, k)
  {
    SampledBefore(w, k, j);
    if !Above(w, el, k) {
      TimeMono(w, k, k + 1);
      i := RunCovering(w, el, k + 1, j);
    } else {
      var e := RunEnd(w, el, k);
      assert RunsFrom(w, el, k) == [Run(k, e)] + RunsFrom(w, el, e);
      if j < e {
        i := 0;
      } else {
        TimeMono(w, k, e);
        var i' := RunCovering(w, el, e, j);
        i := i' + 1;
      }
    }
  }

  predicate Chronological(ps: seq<PassInterval>) {
    forall i, j :: 0 <= i < j < |ps| ==> ps[i].end < ps[j].start
  }

  /** Passes come in chronological order and do not overlap: each one ends
      before the next one starts. */
  lemma PassesChronological(w: Window, el: int -> real)
    ensures Chronological(Passes(w, el))
  {
    PassesFromRuns(w, el, 0);
    var runs := RunsFrom(w, el, 0);
    var ps := Passes(w, el);
    forall i, j | 0 <= i < j < |ps|
      ensures ps[i].end < ps[j].start
    {
      assert RunOk(w, el, runs[j]);
      assert Sampled(w, runs[j].first);
      SampledBefore(w, runs[i].stop, runs[j].first);
      TimeMono(w, runs[i].stop, runs[j].first);
    }
  }

  // ---------------------------------------------------------------------
  // Keeping only passes that have not yet peaked
  // ---------------------------------------------------------------------

  /** The passes whose peak is not before now, in their original order. */
  function FuturePasses(ps: seq<PassInterval>, now: int): (r: seq<PassInterval>)
    ensures forall p :: p in r <==> p in ps && p.peak >= now
    ensures |r| <= |ps|
  {
    if ps == [] then []
    else (if ps[0].peak >= now then [ps[0]] else []) + FuturePasses(ps[1..], now)
  }

  /** The filter keeps the order: what comes out chronological is kept so. */
  lemma {:induction false} FuturePassesChronological(ps: seq<PassInterval>, now: int)
    requires Chronological(ps)
    ensures Chronological(FuturePasses(ps, now))
  {
    if ps != [] {
      ChronologicalTail(ps);
      FuturePassesChronological(ps[1..], now);
      if ps[0].peak >= now {
        ChronologicalHead(ps);
        ChronologicalCons(ps[0], FuturePasses(ps[1..], now));
      }
    }
  }

  lemma ChronologicalTail(ps: seq<PassInterval>)
    requires ps != [] && Chronological(ps)
    ensures Chronological(ps[1..])
  {
    var t := ps[1..];
    forall i, j | 0 <= i < j < |t|
      ensures t[i].end < t[j].start
    {
      assert t[i] == ps[i + 1] && t[j] == ps[j + 1];
    }
  }

  /** In a chronological list the first pass ends before every later one starts. */
  lemma ChronologicalHead(ps: seq<PassInterval>)
    requires ps != [] && Chronological(ps)
    ensures forall q :: q in ps[1..] ==> ps[0].end < q.start
  {
    forall q | q in ps[1..]
      ensures ps[0].end < q.start
    {
      var j :| 0 <= j < |ps[1..]| && ps[1..][j] == q;
      assert ps[j + 1] == q;
    }
  }

  lemma ChronologicalCons(p: PassInterval, rest: seq<PassInterval>)
    requires Chronological(rest)
    requires forall q :: q in rest ==> p.end < q.start
    ensures Chronological([p] + rest)
  {
    var r := [p] + rest;
    forall i, j | 0 <= i < j < |r|
      ensures r[i].end < r[j].start
    {
      assert r[j] == rest[j - 1];
      if i > 0 {
        assert r[i] == rest[i - 1];
      } else {
        assert r[j] in rest;
      }
    }
  }

  // ---------------------------------------------------------------------
  // The whole file
  // ---------------------------------------------------------------------

  /** The summary of one block: its future passes over the window. */
  function Summary(b: Block, w: Window, el: int -> real, now: int): SatPassSummary {
    SatPassSummary(b.name, FuturePasses(Passes(w, el), now))
  }

  /** The summaries of the blocks in order, a later block overwriting an
      earlier one of the same name. */
  function Summaries(blocks: seq<Block>, w: Window, track: Block -> (int -> real), now: int)
    : (m: map<string, SatPassSummary>)
    ensures m.Keys == set b | b in blocks :: b.name
  {
    if blocks == [] then map[]
    else
      var n := |blocks| - 1;
      Summaries(blocks[..n], w, track, now)[blocks[n].name := Summary(blocks[n], w, track(blocks[n]), now)]
  }

  /** The window centred on `now`: from `lookBack` seconds before it to
      `window` seconds after it. */
  function WindowAround(now: int, lookBack: int, window: int, step: Positive, minEl: real): Window {
    Window(now - lookBack, now + window, step, minEl)
  }

  /** `compute_pass_visibility_for_file`: read the blocks, compute each
      block's passes over the window around `now` and keep the ones not yet
      peaked; `track` gives each block's elevation track. */
  method ComputePassVisibility(raw: seq<string>, now: int, lookBack: int, window: int,
                               step: Positive, minEl: real, track: Block -> (int -> real))
    returns (summaries: map<string, SatPassSummary>)
    ensures var w := WindowAround(now, lookBack, window, step, minEl);
      summaries == Summaries(Blocks(CleanLines(raw)), w, track, now)
  {
    var w := WindowAround(now, lookBack, window, step, minEl);
    var blocks := ReadTleFile(raw);
    summaries := map[];
    for i := 0 to |blocks|
      invariant summaries == Summaries(blocks[..i], w, track, now)
    {
      var b := blocks[i];
      var allPasses := ComputePasses(w, track(b));
      var future := FuturePasses(allPasses, now);
      assert blocks[..i + 1][..i] == blocks[..i];
      summaries := summaries[b.name := SatPassSummary(b.name, future)];
    }
    assert blocks[..|blocks|] == blocks;
  }

  /** The summary kept under a name is that of the last block with the name;
      every pass in it peaks at or after `now`, in chronological order. */
  lemma {:induction false} SummaryOfLastBlock(blocks: seq<Block>, w: Window,
                                             track: Block -> (int -> real), now: int, i: nat)
    requires i < |blocks|
    requires forall j :: i < j < |blocks| ==> blocks[j].name != blocks[i].name
    ensures var m := Summaries(blocks, w, track, now);
      && m[blocks[i].name] == Summary(blocks[i], w, track(blocks[i]), now)
      && (forall p :: p in m[blocks[i].name].passes ==> p.peak >= now)
      && Chronological(m[blocks[i].name].passes)
  {
    var n := |blocks| - 1;
    if i < n {
      assert blocks[..n][i] == blocks[i];
      SummaryOfLastBlock(blocks[..n], w, track, now, i);
    }
    PassesChronological(w, track(blocks[i]));
    FuturePassesChronological(Passes(w, track(blocks[i])), now);
  }
}
