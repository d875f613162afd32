/**
 * Hard-decision Viterbi decoder for the CCSDS rate-1/2, K = 7 convolutional
 * code (CCSDS 131.0-B, section 3), the trellis tables it reads, and the pure
 * steps of the PDU block around it (threshold, tail strip, truncation).
 *
 * The decoder is modelled twice: `ViterbiDecode` is the triple loop over the
 * metric and predecessor matrices, and `Decoded` is the specification it is
 * proved equal to.  The specification is stated for any output table (`Code`)
 * and either way of adding a branch's two mismatches (`Scoring`): the loop
 * adds them as numpy booleans, a logical or, which makes the decoder minimise
 * the number of mismatching pairs rather than the Hamming distance.  The
 * minimisation holds for every table and scoring, and the noiseless round
 * trip for the CCSDS table, whose first generator taps the new bit.
 */
module Viterbi {

  /** Constraint length, encoder memory and number of trellis states. */
  const K: nat := 7
  const Mem: nat := K - 1
  const NumStates: nat := 64

  /** Bit-reversed CCSDS generators; the sign of the second marks an inverted output. */
  const Poly0: int := 79
  const Poly1: int := -109

  /** Framing of one PDU: encoder tail bits and information bits per frame. */
  const TailBits: nat := 6
  const FrameInfoBits: nat := 2560

  type Bit = b: int | 0 <= b <= 1
  type State = s: int | 0 <= s < 64

  // ---------------------------------------------------------------------
  // Bit helpers
  // ---------------------------------------------------------------------

  function Popcount(x: nat): nat {
    if x == 0 then 0 else x % 2 + Popcount(x / 2)
  }

  /** Parity (0 or 1) of the number of one bits of x. */
  function Parity(x: nat): Bit {
    Popcount(x) % 2
  }

  /** Bitwise and of two naturals. */
  function BitAnd(a: nat, b: nat): nat {
    if a == 0 || b == 0 then 0
    else 2 * BitAnd(a / 2, b / 2) + (if a % 2 == 1 && b % 2 == 1 then 1 else 0)
  }

  function Abs(x: int): nat {
    if x < 0 then -x else x
  }

  function Min(a: int, b: int): int {
    if a <= b then a else b
  }

  function Max(a: int, b: int): int {
    if a >= b then a else b
  }

  /** Shifting a new bit in at the low end adds exactly that bit to the count of ones. */
  lemma {:induction false} PopcountShift(x: nat, b: Bit)
    ensures Popcount(2 * x + b) == Popcount(x) + b
  {
    if 2 * x + b != 0 {
      assert (2 * x + b) / 2 == x;
      assert (2 * x + b) % 2 == b;
    }
  }

  /** And-ing with an odd mask keeps the low bit and masks the rest with p / 2. */
  lemma {:induction false} BitAndOdd(x: nat, b: Bit, p: nat)
    requires p % 2 == 1
    ensures BitAnd(2 * x + b, p) == 2 * BitAnd(x, p / 2) + b
  {
    if 2 * x + b == 0 {
      assert x == 0 && b == 0;
    } else {
      assert (2 * x + b) / 2 == x;
      assert (2 * x + b) % 2 == b;
    }
  }

  // ---------------------------------------------------------------------
  // The encoder, one step
  // ---------------------------------------------------------------------

  /** The 7-bit shift register once `bit` enters state s at the low end. */
  function Register(s: State, bit: Bit): (reg: nat)
    ensures reg < 128 && reg / 2 == s && reg % 2 == bit
  {
    (2 * s + bit) % 128
  }

  /** The state after `bit`: the register without its oldest bit. */
  function NextState(s: State, bit: Bit): (n: State)
    ensures n == (2 * s + bit) % 64
    ensures n / 2 == s % 32 && n % 2 == bit
  {
    Register(s, bit) % 64
  }

  /** One generator output: parity of the tapped register bits, inverted for a negative polynomial. */
  function GeneratorOutput(reg: nat, poly: int): Bit {
    var e := Parity(BitAnd(reg, Abs(poly)));
    if poly < 0 then 1 - e else e
  }

  function Out0(s: State, bit: Bit): Bit {
    GeneratorOutput(Register(s, bit), Poly0)
  }

  function Out1(s: State, bit: Bit): Bit {
    GeneratorOutput(Register(s, bit), Poly1)
  }

  /** The first output is the parity of the taps of 79; the second that of 109, inverted. */
  lemma OutputsOfGenerators(s: State, bit: Bit)
    ensures Out0(s, bit) == Parity(BitAnd(Register(s, bit), 79))
    ensures Out1(s, bit) == 1 - Parity(BitAnd(Register(s, bit), 109))
  {
  }

  /** Generator 79 taps the new bit, so the first output always depends on it. */
  lemma NewBitTapped(s: State)
    ensures Out0(s, 0) != Out0(s, 1)
  {
    FirstOutputParity(s, 0);
    FirstOutputParity(s, 1);
    ParityFlips(Popcount(BitAnd(s, 39)));
  }

  lemma ParityFlips(p: nat)
    ensures p % 2 != (p + 1) % 2
  {
  }

  /** The first output is the parity of the new bit and the tapped state bits. */
  lemma FirstOutputParity(s: State, b: Bit)
    ensures Out0(s, b) == (Popcount(BitAnd(s, 39)) + b) % 2
  {
    var reg := Register(s, b);
    assert reg == 2 * s + b;
    BitAndOdd(s, b, 79);
    PopcountShift(BitAnd(s, 39), b);
    assert Out0(s, b) == Parity(BitAnd(reg, 79));
  }

  /** The states that enter j are exactly j / 2 and j / 2 + 32, both on bit j % 2. */
  lemma Predecessors(s: State, bit: Bit, j: State)
    ensures NextState(s, bit) == j <==> (s == j / 2 || s == j / 2 + 32) && bit == j % 2
  {
  }

  // ---------------------------------------------------------------------
  // Output tables as values
  // ---------------------------------------------------------------------

  /** An output table: entry 2 * s + bit is the symbol pair emitted from state s on `bit`. */
  type Code = c: seq<(Bit, Bit)> | |c| == 128 witness seq(128, i => (0, 0))

  function OutputPair(s: State, bit: Bit): (Bit, Bit) {
    (Out0(s, bit), Out1(s, bit))
  }

  /** The CCSDS output table, generators 79 and -109. */
  function Ccsds(): Code {
    seq(128, c requires 0 <= c < 128 => OutputPair(c / 2, c % 2))
  }

  lemma CcsdsEntry(s: State, bit: Bit)
    ensures Ccsds()[2 * s + bit] == (Out0(s, bit), Out1(s, bit))
  {
    assert (2 * s + bit) / 2 == s && (2 * s + bit) % 2 == bit;
  }

  /** The first output of a table depends on the new bit. */
  ghost predicate TapsNewBit(code: Code) {
    forall s: State :: code[2 * s].0 != code[2 * s + 1].0
  }

  lemma CcsdsTapsNewBit()
    ensures TapsNewBit(Ccsds())
  {
    forall s: State
      ensures Ccsds()[2 * s].0 != Ccsds()[2 * s + 1].0
    {
      CcsdsEntry(s, 0);
      CcsdsEntry(s, 1);
      NewBitTapped(s);
    }
  }

  // ---------------------------------------------------------------------
  // The trellis tables
  // ---------------------------------------------------------------------

  /**
   * The next-state and output tables, filled once and then only read.  The
   * ghost `code` is the output table as a value; the constructor fills the
   * tables with the CCSDS code.
   */
  class Trellis {
    const nextState: array2<int>
    const outTable: array3<int>
    ghost const code: Code

    ghost predicate Valid()
      reads nextState, outTable
    {
      && nextState.Length0 == NumStates && nextState.Length1 == 2
      && outTable.Length0 == NumStates && outTable.Length1 == 2 && outTable.Length2 == 2
      && (forall s, bit :: 0 <= s < 64 && 0 <= bit < 2 ==> nextState[s, bit] == NextState(s, bit))
      && (forall s, bit :: 0 <= s < 64 && 0 <= bit < 2 ==>
            outTable[s, bit, 0] == code[2 * s + bit].0 && outTable[s, bit, 1] == code[2 * s + bit].1)
    }

    /** Builds both tables for every state and input bit. */
    constructor ()
      ensures Valid() && code == Ccsds()
      ensures fresh(nextState) && fresh(outTable)
    {
      var ns := new int[NumStates, 2];
      var ot := new int[NumStates, 2, 2];
      for s := 0 to NumStates
        invariant forall s', bit :: 0 <= s' < s && 0 <= bit < 2 ==> ns[s', bit] == NextState(s', bit)
        invariant forall s', bit :: 0 <= s' < s && 0 <= bit < 2 ==>
                    ot[s', bit, 0] == Out0(s', bit) && ot[s', bit, 1] == Out1(s', bit)
      {
        for bit := 0 to 2
          invariant forall s', b :: 0 <= s' < s && 0 <= b < 2 ==> ns[s', b] == NextState(s', b)
          invariant forall s', b :: 0 <= s' < s && 0 <= b < 2 ==>
                      ot[s', b, 0] == Out0(s', b) && ot[s', b, 1] == Out1(s', b)
          invariant forall b :: 0 <= b < bit ==>
                      ns[s, b] == NextState(s, b) && ot[s, b, 0] == Out0(s, b) && ot[s, b, 1] == Out1(s, b)
        {
          var reg := (2 * s + bit) % 128;
          var e0: int := Parity(BitAnd(reg, Abs(Poly0)));
          if Poly0 < 0 {
            e0 := 1 - e0;
          }
          var e1: int := Parity(BitAnd(reg, Abs(Poly1)));
          if Poly1 < 0 {
            e1 := 1 - e1;
          }
          ot[s, bit, 0] := e0;
          ot[s, bit, 1] := e1;
          ns[s, bit] := reg % 64;
        }
      }
      nextState := ns;
      outTable := ot;
      code := Ccsds();
      forall s, bit | 0 <= s < 64 && 0 <= bit < 2
        ensures ot[s, bit, 0] == Ccsds()[2 * s + bit].0 && ot[s, bit, 1] == Ccsds()[2 * s + bit].1
      {
        CcsdsEntry(s, bit);
      }
    }
  }

  // ---------------------------------------------------------------------
  // Path metrics
  // ---------------------------------------------------------------------

  /** A path metric: a sum of branch costs, or infinity for a state not yet reached. */
  datatype Cost = Inf | Fin(n: nat)

  predicate Less(a: Cost, b: Cost) {
    a.Fin? && (b.Inf? || a.n < b.n)
  }

  lemma LessBeforeNotLess(a: Cost, b: Cost, c: Cost)
    requires Less(a, b) && !Less(c, b)
    ensures Less(a, c)
  {
  }

  function Plus(c: Cost, k: nat): Cost {
    match c
    case Inf => Inf
    case Fin(n) => Fin(n + k)
  }

  /**
   * How the two symbol mismatches of a branch are added.  The branch cost
   * is the sum of `r0 != e0` and `r1 != e1`; both are numpy booleans (e0 and
   * e1 come from an integer array), and numpy adds two booleans as their
   * logical or.  So the deployed decoder charges 1 for a pair with one or
   * two wrong symbols (BoolSum); the integer sum (IntSum) is the Hamming
   * distance the comment beside it names.
   */
  datatype Scoring = BoolSum | IntSum

  /** The cost of receiving (r0, r1) where (e0, e1) was sent. */
  function PairCost(sc: Scoring, r0: Bit, r1: Bit, e0: Bit, e1: Bit): nat {
    match sc
    case BoolSum => if r0 != e0 || r1 != e1 then 1 else 0
    case IntSum => (if r0 != e0 then 1 else 0) + (if r1 != e1 then 1 else 0)
  }

  /** The cost of the edge from s on `bit` against the received pair. */
  function BranchMetric(code: Code, sc: Scoring, s: State, bit: Bit, r0: Bit, r1: Bit): (d: nat)
    ensures d <= 2 && (sc == BoolSum ==> d <= 1)
    ensures d == 0 <==> (r0, r1) == code[2 * s + bit]
    ensures sc == BoolSum ==> (d == 1 <==> (r0, r1) != code[2 * s + bit])
  {
    var e := code[2 * s + bit];
    PairCost(sc, r0, r1, e.0, e.1)
  }

  /** One metric per state. */
  type Row = r: seq<Cost> | |r| == 64 witness seq(64, i => Inf)

  /** The metric of entering NextState(s, bit) from s. */
  function Candidate(code: Code, sc: Scoring, prev: Row, s: State, bit: Bit, r0: Bit, r1: Bit): Cost {
    Plus(prev[s], BranchMetric(code, sc, s, bit, r0, r1))
  }

  /** The metrics before the first step: the encoder starts in state 0. */
  function InitialRow(): Row {
    seq(64, i => Inf)[0 := Fin(0)]
  }

  /** A state's metric with the predecessor link that produced it. */
  datatype Survivor = Survivor(cost: Cost, pred: State, bit: Bit)

  /** Two candidates tried in order: the second replaces the first only when strictly better. */
  function Pick(c0: Cost, c1: Cost, j: State): Survivor {
    if Less(c1, c0) then Survivor(c1, j / 2 + 32, j % 2)
    else if c0.Fin? then Survivor(c0, j / 2, j % 2)
    else Survivor(Inf, 0, 0)
  }

  /**
   * The survivor into state j once the candidates c = 2 * s + bit with c < k
   * have been tried, in that order: candidate c enters state c % 64 and
   * replaces the survivor only when strictly better.  A state no candidate
   * reached keeps metric Inf and predecessor link (0, 0).
   */
  function PartialSurvivor(code: Code, sc: Scoring, prev: Row, r0: Bit, r1: Bit, j: State, k: int): Survivor
    requires 0 <= k <= 128
  {
    if k == 0 then Survivor(Inf, 0, 0)
    else
      var before := PartialSurvivor(code, sc, prev, r0, r1, j, k - 1);
      var c := k - 1;
      var cand := Candidate(code, sc, prev, c / 2, c % 2, r0, r1);
      if c % 64 == j && Less(cand, before.cost) then Survivor(cand, c / 2, c % 2) else before
  }

  /** The survivor into j after all 128 candidates. */
  function Best(code: Code, sc: Scoring, prev: Row, r0: Bit, r1: Bit, j: State): Survivor {
    PartialSurvivor(code, sc, prev, r0, r1, j, 128)
  }

  /**
   * State j has exactly two candidates, c == j (from j / 2) and c == j + 64
   * (from j / 2 + 32), both on bit j % 2; after the first k, the survivor is
   * Pick of those already tried.
   */
  lemma {:induction false} PartialSurvivorIsPick(code: Code, sc: Scoring, prev: Row, r0: Bit, r1: Bit, j: State, k: int)
    requires 0 <= k <= 128
    ensures PartialSurvivor(code, sc, prev, r0, r1, j, k)
              == Pick(if j < k then Candidate(code, sc, prev, j / 2, j % 2, r0, r1) else Inf,
                      if j + 64 < k then Candidate(code, sc, prev, j / 2 + 32, j % 2, r0, r1) else Inf,
                      j)
  {
    if k > 0 {
      PartialSurvivorIsPick(code, sc, prev, r0, r1, j, k - 1);
      var c := k - 1;
      var c0 := Candidate(code, sc, prev, j / 2, j % 2, r0, r1);
      var c1 := Candidate(code, sc, prev, j / 2 + 32, j % 2, r0, r1);
      var before := PartialSurvivor(code, sc, prev, r0, r1, j, c);
      CandidatesInto(j, c);
      if c == j {
        assert before == Pick(Inf, Inf, j);
      } else if c == j + 64 {
        assert before == Pick(c0, Inf, j);
      }
    }
  }

  /** Of the candidates c < 128, exactly c == j and c == j + 64 enter state j. */
  lemma CandidatesInto(j: State, c: nat)
    requires c < 128
    ensures c % 64 == j <==> c == j || c == j + 64
    ensures c == j ==> c / 2 == j / 2 && c % 2 == j % 2
    ensures c == j + 64 ==> c / 2 == j / 2 + 32 && c % 2 == j % 2
  {
  }

  /** Trying candidate c changes only state c % 64, and only when c is strictly better. */
  lemma TryCandidate(code: Code, sc: Scoring, prev: Row, r0: Bit, r1: Bit, c: nat)
    requires c < 128
    ensures forall j: State :: j != c % 64 ==>
              PartialSurvivor(code, sc, prev, r0, r1, j, c + 1) == PartialSurvivor(code, sc, prev, r0, r1, j, c)
    ensures var cand := Candidate(code, sc, prev, c / 2, c % 2, r0, r1);
            var before := PartialSurvivor(code, sc, prev, r0, r1, c % 64, c);
            PartialSurvivor(code, sc, prev, r0, r1, c % 64, c + 1)
              == if Less(cand, before.cost) then Survivor(cand, c / 2, c % 2) else before
  {
  }

  /** A state not yet reached contributes no candidate. */
  lemma SkipUnreached(code: Code, sc: Scoring, prev: Row, r0: Bit, r1: Bit, s: State)
    requires prev[s].Inf?
    ensures forall j: State :: PartialSurvivor(code, sc, prev, r0, r1, j, 2 * s + 2) == PartialSurvivor(code, sc, prev, r0, r1, j, 2 * s)
  {
    assert (2 * s) / 2 == s && (2 * s + 1) / 2 == s;
    forall j: State
      ensures PartialSurvivor(code, sc, prev, r0, r1, j, 2 * s + 2) == PartialSurvivor(code, sc, prev, r0, r1, j, 2 * s)
    {
      assert PartialSurvivor(code, sc, prev, r0, r1, j, 2 * s + 1) == PartialSurvivor(code, sc, prev, r0, r1, j, 2 * s);
    }
  }

  /**
   * The survivor is the minimum over the candidates that enter j, is infinite
   * only when both are, comes from a real predecessor, and on a tie is the one
   * tried first (from j / 2).
   */
  lemma SurvivorIsFirstMinimum(code: Code, sc: Scoring, prev: Row, r0: Bit, r1: Bit, j: State)
    ensures var w := Best(code, sc, prev, r0, r1, j);
            forall s: State, bit: Bit :: NextState(s, bit) == j ==> !Less(Candidate(code, sc, prev, s, bit, r0, r1), w.cost)
    ensures var w := Best(code, sc, prev, r0, r1, j);
            w.cost.Inf? <==> (forall s: State, bit: Bit :: NextState(s, bit) == j ==> Candidate(code, sc, prev, s, bit, r0, r1).Inf?)
    ensures var w := Best(code, sc, prev, r0, r1, j);
            w.cost.Fin? ==> NextState(w.pred, w.bit) == j && w.cost == Candidate(code, sc, prev, w.pred, w.bit, r0, r1)
    ensures var w := Best(code, sc, prev, r0, r1, j);
            w.cost.Fin? && w.cost == Candidate(code, sc, prev, j / 2, j % 2, r0, r1) ==> w.pred == j / 2
  {
    var c0 := Candidate(code, sc, prev, j / 2, j % 2, r0, r1);
    var c1 := Candidate(code, sc, prev, j / 2 + 32, j % 2, r0, r1);
    PartialSurvivorIsPick(code, sc, prev, r0, r1, j, 128);
    Predecessors(j / 2, j % 2, j);
    Predecessors(j / 2 + 32, j % 2, j);
    forall s: State, bit: Bit | NextState(s, bit) == j
      ensures Candidate(code, sc, prev, s, bit, r0, r1) == c0 || Candidate(code, sc, prev, s, bit, r0, r1) == c1
    {
      Predecessors(s, bit, j);
    }
  }

  /** The survivors of one step, one per state. */
  type Layer = w: seq<Survivor> | |w| == 64 witness seq(64, i => Survivor(Inf, 0, 0))

  function StepSurvivors(code: Code, sc: Scoring, prev: Row, r0: Bit, r1: Bit): Layer {
    seq(64, j requires 0 <= j < 64 => Best(code, sc, prev, r0, r1, j))
  }

  function Costs(w: Layer): Row {
    seq(64, j requires 0 <= j < 64 => w[j].cost)
  }

  /** The metrics after t steps on the received symbols rx. */
  function Metrics(code: Code, sc: Scoring, rx: seq<Bit>, t: nat): Row
    requires 2 * t <= |rx|
    decreases t, 0
  {
    if t == 0 then InitialRow() else Costs(LayerAt(code, sc, rx, t - 1))
  }

  /** The survivors of step u (0-based), from the metrics before it and its symbol pair. */
  function LayerAt(code: Code, sc: Scoring, rx: seq<Bit>, u: nat): Layer
    requires 2 * u + 2 <= |rx|
    decreases u, 1
  {
    StepSurvivors(code, sc, Metrics(code, sc, rx, u), rx[2 * u], rx[2 * u + 1])
  }

  /** The survivors of every step on the received symbols rx, step u in layer u. */
  function Survivors(code: Code, sc: Scoring, rx: seq<Bit>): (sv: seq<Layer>)
    ensures |sv| == |rx| / 2
  {
    seq(|rx| / 2, u requires 0 <= u < |rx| / 2 => LayerAt(code, sc, rx, u))
  }

  /** The input bits read off the predecessor links from state j after t steps. */
  function Trace(sv: seq<Layer>, t: nat, j: State): (path: seq<Bit>)
    requires t <= |sv|
    ensures |path| == t
  {
    if t == 0 then []
    else
      var w := sv[t - 1][j];
      Trace(sv, t - 1, w.pred) + [w.bit]
  }

  /** The lowest index of a minimum metric. */
  function ArgMin(row: Row): (k: State)
    ensures forall j :: 0 <= j < 64 ==> !Less(row[j], row[k])
    ensures forall j :: 0 <= j < k ==> Less(row[k], row[j])
  {
    ArgMinFrom(row, 1, 0)
  }

  function ArgMinFrom(row: Row, i: nat, best: State): (k: State)
    requires best < i <= 64
    requires forall j :: 0 <= j < i ==> !Less(row[j], row[best])
    requires forall j :: 0 <= j < best ==> Less(row[best], row[j])
    ensures forall j :: 0 <= j < 64 ==> !Less(row[j], row[k])
    ensures forall j :: 0 <= j < k ==> Less(row[k], row[j])
    decreases 64 - i
  {
    if i == 64 then best
    else if Less(row[i], row[best]) then
      forall j | 0 <= j < i
        ensures Less(row[i], row[j])
      {
        LessBeforeNotLess(row[i], row[best], row[j]);
      }
      ArgMinFrom(row, i + 1, i)
    else ArgMinFrom(row, i + 1, best)
  }

  /** The decoder's output: the trace from the best final state, one bit per symbol pair. */
  function Decoded(code: Code, sc: Scoring, rx: seq<Bit>): (d: seq<Bit>)
    ensures |d| == |rx| / 2
  {
    var n := |rx| / 2;
    Trace(Survivors(code, sc, rx), n, ArgMin(Metrics(code, sc, rx, n)))
  }

  function Reverse<T>(s: seq<T>): (r: seq<T>)
    ensures |r| == |s|
  {
    if |s| == 0 then [] else [s[|s| - 1]] + Reverse(s[..|s| - 1])
  }

  // ---------------------------------------------------------------------
  // The decoder
  // ---------------------------------------------------------------------

  /** Rows 0 .. t-1 of the matrices hold the metrics and predecessor links of layers 0 .. t-1. */
  ghost predicate RowsDone(sv: seq<Layer>, metrics: array2<Cost>, prevState: array2<int>, prevBit: array2<int>, t: nat)
    reads metrics, prevState, prevBit
  {
    && t <= |sv| && t <= metrics.Length0 && metrics.Length1 == 64
    && t <= prevState.Length0 && prevState.Length1 == 64
    && t <= prevBit.Length0 && prevBit.Length1 == 64
    && (forall u, j :: 0 <= u < t && 0 <= j < 64 ==>
          && metrics[u, j] == sv[u][j].cost
          && prevState[u, j] == sv[u][j].pred
          && prevBit[u, j] == sv[u][j].bit)
  }

  /** Predecessor rows t and later still hold their initial zeros. */
  ghost predicate RowsFresh(prevState: array2<int>, prevBit: array2<int>, t: nat)
    reads prevState, prevBit
  {
    forall u, j :: t <= u < prevState.Length0 && t <= u < prevBit.Length0 && 0 <= j < prevState.Length1 && 0 <= j < prevBit.Length1 ==>
      prevState[u, j] == 0 && prevBit[u, j] == 0
  }

  /** Row t holds the survivors after the first k candidates of step t. */
  ghost predicate RowPartial(code: Code, sc: Scoring, prev: Row, r0: Bit, r1: Bit,
                             metrics: array2<Cost>, prevState: array2<int>, prevBit: array2<int>, t: nat, k: int)
    reads metrics, prevState, prevBit
    requires t < metrics.Length0 && t < prevState.Length0 && t < prevBit.Length0
    requires metrics.Length1 == 64 && prevState.Length1 == 64 && prevBit.Length1 == 64
    requires 0 <= k <= 128
  {
    forall j :: 0 <= j < 64 ==>
      && metrics[t, j] == PartialSurvivor(code, sc, prev, r0, r1, j, k).cost
      && prevState[t, j] == PartialSurvivor(code, sc, prev, r0, r1, j, k).pred
      && prevBit[t, j] == PartialSurvivor(code, sc, prev, r0, r1, j, k).bit
  }

  /** Rows other than t are as they were. */
  twostate predicate OtherRowsUnchanged(metrics: array2<Cost>, prevState: array2<int>, prevBit: array2<int>, t: nat)
    reads metrics, prevState, prevBit
  {
    forall u, j :: 0 <= u < metrics.Length0 && u != t && 0 <= j < metrics.Length1 ==>
      && metrics[u, j] == old(metrics[u, j])
      && (u < prevState.Length0 && j < prevState.Length1 ==> prevState[u, j] == old(prevState[u, j]))
      && (u < prevBit.Length0 && j < prevBit.Length1 ==> prevBit[u, j] == old(prevBit[u, j]))
  }

  /** Tries the edge from sPrev on `bit` into row t: it is kept only when strictly better. */
  method TryEdge(tr: Trellis, ghost code: Code, prev: Row, r0: Bit, r1: Bit,
                 metrics: array2<Cost>, prevState: array2<int>, prevBit: array2<int>, t: nat,
                 sPrev: State, bit: Bit)
    requires tr.Valid() && code == tr.code
    requires prevState != prevBit
    requires t < metrics.Length0 && metrics.Length1 == 64
    requires prevState.Length0 == metrics.Length0 && prevState.Length1 == 64
    requires prevBit.Length0 == metrics.Length0 && prevBit.Length1 == 64
    requires prev[sPrev].Fin?
    requires RowPartial(code, BoolSum, prev, r0, r1, metrics, prevState, prevBit, t, 2 * sPrev + bit)
    modifies metrics, prevState, prevBit
    ensures RowPartial(code, BoolSum, prev, r0, r1, metrics, prevState, prevBit, t, 2 * sPrev + bit + 1)
    ensures OtherRowsUnchanged(metrics, prevState, prevBit, t)
  {
    var mPrev := prev[sPrev];
    var e0 := tr.outTable[sPrev, bit, 0];
    var e1 := tr.outTable[sPrev, bit, 1];
    var branch := if r0 != e0 || r1 != e1 then 1 else 0;
    var sNext := tr.nextState[sPrev, bit];
    var cand := Fin(mPrev.n + branch);
    assert cand == Candidate(code, BoolSum, prev, sPrev, bit, r0, r1);
    ghost var c := 2 * sPrev + bit;
    assert sNext == c % 64 && c / 2 == sPrev && c % 2 == bit;
    TryCandidate(code, BoolSum, prev, r0, r1, c);
    if Less(cand, metrics[t, sNext]) {
      metrics[t, sNext] := cand;
      prevState[t, sNext] := sPrev;
      prevBit[t, sNext] := bit;
    }
    forall j | 0 <= j < 64
      ensures metrics[t, j] == PartialSurvivor(code, BoolSum, prev, r0, r1, j, c + 1).cost
      ensures prevState[t, j] == PartialSurvivor(code, BoolSum, prev, r0, r1, j, c + 1).pred
      ensures prevBit[t, j] == PartialSurvivor(code, BoolSum, prev, r0, r1, j, c + 1).bit
    {
      if j != sNext {
        assert PartialSurvivor(code, BoolSum, prev, r0, r1, j, c + 1) == PartialSurvivor(code, BoolSum, prev, r0, r1, j, c);
      }
    }
  }

  /**
   * One step of the forward recursion into row t: every state of finite metric
   * tries both input bits, ascending by state and bit 0 first.
   */
  method RelaxStep(tr: Trellis, ghost code: Code, prev: Row, r0: Bit, r1: Bit,
                   metrics: array2<Cost>, prevState: array2<int>, prevBit: array2<int>, t: nat,
                   ghost layer: Layer)
    requires tr.Valid() && code == tr.code
    requires layer == StepSurvivors(code, BoolSum, prev, r0, r1)
    requires prevState != prevBit
    requires t < metrics.Length0 && metrics.Length1 == 64
    requires prevState.Length0 == metrics.Length0 && prevState.Length1 == 64
    requires prevBit.Length0 == metrics.Length0 && prevBit.Length1 == 64
    requires forall j :: 0 <= j < 64 ==> prevState[t, j] == 0 && prevBit[t, j] == 0
    modifies metrics, prevState, prevBit
    ensures forall j :: 0 <= j < 64 ==>
              && metrics[t, j] == layer[j].cost
              && prevState[t, j] == layer[j].pred
              && prevBit[t, j] == layer[j].bit
    ensures OtherRowsUnchanged(metrics, prevState, prevBit, t)
  {
    forall j | 0 <= j < 64 {
      metrics[t, j] := Inf;
    }
    for sPrev := 0 to 64
      invariant OtherRowsUnchanged(metrics, prevState, prevBit, t)
      invariant RowPartial(code, BoolSum, prev, r0, r1, metrics, prevState, prevBit, t, 2 * sPrev)
    {
      if prev[sPrev].Fin? {
        TryBothBits(tr, code, prev, r0, r1, metrics, prevState, prevBit, t, sPrev);
      } else {
        SkipUnreached(code, BoolSum, prev, r0, r1, sPrev);
      }
    }
  }

  /** Tries both edges out of a reached state sPrev, bit 0 first. */
  method TryBothBits(tr: Trellis, ghost code: Code, prev: Row, r0: Bit, r1: Bit,
                     metrics: array2<Cost>, prevState: array2<int>, prevBit: array2<int>, t: nat,
                     sPrev: State)
    requires tr.Valid() && code == tr.code
    requires prevState != prevBit
    requires t < metrics.Length0 && metrics.Length1 == 64
    requires prevState.Length0 == metrics.Length0 && prevState.Length1 == 64
    requires prevBit.Length0 == metrics.Length0 && prevBit.Length1 == 64
    requires prev[sPrev].Fin?
    requires RowPartial(code, BoolSum, prev, r0, r1, metrics, prevState, prevBit, t, 2 * sPrev)
    modifies metrics, prevState, prevBit
    ensures RowPartial(code, BoolSum, prev, r0, r1, metrics, prevState, prevBit, t, 2 * sPrev + 2)
    ensures OtherRowsUnchanged(metrics, prevState, prevBit, t)
  {
    for bit := 0 to 2
      invariant OtherRowsUnchanged(metrics, prevState, prevBit, t)
      invariant RowPartial(code, BoolSum, prev, r0, r1, metrics, prevState, prevBit, t, 2 * sPrev + bit)
    {
      TryEdge(tr, code, prev, r0, r1, metrics, prevState, prevBit, t, sPrev, bit);
    }
  }

  /** The metrics before step t, read off the survivors of the steps before it. */
  function RowBefore(sv: seq<Layer>, t: nat): Row
    requires t <= |sv|
  {
    if t == 0 then InitialRow() else Costs(sv[t - 1])
  }

  /** The metrics after t steps are the costs of the survivors of step t - 1. */
  lemma MetricsAreRowBefore(code: Code, sc: Scoring, rx: seq<Bit>, t: nat)
    requires 2 * t <= |rx|
    ensures Metrics(code, sc, rx, t) == RowBefore(Survivors(code, sc, rx), t)
  {
    if t > 0 {
      assert Survivors(code, sc, rx)[t - 1] == LayerAt(code, sc, rx, t - 1);
    }
  }

  /** Step t's survivors are those of its metrics before and its symbol pair. */
  lemma SurvivorsStep(code: Code, sc: Scoring, rx: seq<Bit>, t: nat)
    requires 2 * t + 2 <= |rx|
    ensures Survivors(code, sc, rx)[t] == StepSurvivors(code, sc, RowBefore(Survivors(code, sc, rx), t), rx[2 * t], rx[2 * t + 1])
  {
    assert Survivors(code, sc, rx)[t] == LayerAt(code, sc, rx, t);
    MetricsAreRowBefore(code, sc, rx, t);
  }

  /** The decoder's output read off the survivors alone. */
  lemma DecodedBySurvivors(code: Code, sc: Scoring, rx: seq<Bit>)
    ensures var sv := Survivors(code, sc, rx);
            Decoded(code, sc, rx) == Trace(sv, |sv|, ArgMin(RowBefore(sv, |sv|)))
  {
    MetricsAreRowBefore(code, sc, rx, |rx| / 2);
  }

  /** Layer t of sv holds the survivors of step t, given the metrics before it and its symbol pair. */
  ghost predicate StepOk(code: Code, sc: Scoring, rx: seq<Bit>, sv: seq<Layer>, t: nat)
    requires t < |sv| && 2 * t + 2 <= |rx|
  {
    sv[t] == StepSurvivors(code, sc, RowBefore(sv, t), rx[2 * t], rx[2 * t + 1])
  }

  /** Every layer of sv holds the survivors of its step. */
  ghost predicate Chain(code: Code, sc: Scoring, rx: seq<Bit>, sv: seq<Layer>) {
    && |sv| == |rx| / 2
    && forall t: nat :: t < |sv| ==> StepOk(code, sc, rx, sv, t)
  }

  lemma SurvivorsChain(code: Code, sc: Scoring, rx: seq<Bit>)
    ensures Chain(code, sc, rx, Survivors(code, sc, rx))
  {
    forall t: nat | t < |rx| / 2
      ensures StepOk(code, sc, rx, Survivors(code, sc, rx), t)
    {
      SurvivorsStep(code, sc, rx, t);
    }
  }

  /**
   * Hard-decision Viterbi decoding of the received symbol pairs rx[2t], rx[2t+1]
   * with the trellis tables; a trailing odd symbol is ignored.
   */
  method ViterbiDecode(tr: Trellis, rx: seq<Bit>) returns (decoded: seq<Bit>)
    requires tr.Valid()
    ensures decoded == Decoded(tr.code, BoolSum, rx)
  {
    ghost var sv := Survivors(tr.code, BoolSum, rx);
    SurvivorsChain(tr.code, BoolSum, rx);
    var prevState, prevBit, last := Forward(tr, rx, sv);
    decoded := Traceback(prevState, prevBit, sv, ArgMin(last));
    DecodedBySurvivors(tr.code, BoolSum, rx);
  }

  /**
   * The forward recursion: fills one row of metrics and predecessor links per
   * symbol pair and returns the predecessor link matrices and the last row.
   */
  method Forward(tr: Trellis, rx: seq<Bit>, ghost sv: seq<Layer>)
    returns (prevState: array2<int>, prevBit: array2<int>, last: Row)
    requires tr.Valid()
    requires Chain(tr.code, BoolSum, rx, sv)
    ensures prevState.Length0 == |sv| && prevBit.Length0 == |sv|
    ensures prevState.Length1 == 64 && prevBit.Length1 == 64
    ensures forall u, j :: 0 <= u < |sv| && 0 <= j < 64 ==> prevState[u, j] == sv[u][j].pred && prevBit[u, j] == sv[u][j].bit
    ensures last == RowBefore(sv, |sv|)
  {
    ghost var code := tr.code;
    var n := |rx| / 2;
    var metrics := new Cost[n, 64]((t, s) => Inf);
    prevState := new int[n, 64]((t, s) => 0);
    prevBit := new int[n, 64]((t, s) => 0);

    last := seq(64, s => Inf);
    last := last[0 := Fin(0)];

    for t := 0 to n
      invariant last == RowBefore(sv, t)
      invariant RowsDone(sv, metrics, prevState, prevBit, t)
      invariant RowsFresh(prevState, prevBit, t)
    {
      assert StepOk(code, BoolSum, rx, sv, t);
      RelaxStep(tr, code, last, rx[2 * t], rx[2 * t + 1], metrics, prevState, prevBit, t, sv[t]);
      last := seq(64, j requires 0 <= j < 64 reads metrics => metrics[t, j]);
      assert last == Costs(sv[t]);
    }
  }

  /** Follows the predecessor links from `state` at the last step, collecting the input bits. */
  method Traceback(prevState: array2<int>, prevBit: array2<int>, ghost sv: seq<Layer>, state: State)
    returns (decoded: seq<Bit>)
    requires prevState.Length0 == |sv| && prevBit.Length0 == |sv|
    requires prevState.Length1 == 64 && prevBit.Length1 == 64
    requires forall u, j :: 0 <= u < |sv| && 0 <= j < 64 ==> prevState[u, j] == sv[u][j].pred && prevBit[u, j] == sv[u][j].bit
    ensures decoded == Trace(sv, |sv|, state)
  {
    var n := prevState.Length0;
    var s: State := state;
    var decodedRev: seq<Bit> := [];
    for t := n downto 0
      invariant Trace(sv, t, s) + Reverse(decodedRev) == Trace(sv, n, state)
    {
      var bit: Bit := prevBit[t, s];
      ghost var before := decodedRev;
      decodedRev := decodedRev + [bit];
      assert decodedRev[..|decodedRev| - 1] == before;
      assert Reverse(decodedRev) == [bit] + Reverse(before);
      ghost var previous := s;
      s := prevState[t, s];
      assert Trace(sv, t + 1, previous) == Trace(sv, t, s) + [bit];
    }
    decoded := Reverse(decodedRev);
  }

  // ---------------------------------------------------------------------
  // The encoder the decoder inverts, and what the decoder achieves
  // ---------------------------------------------------------------------

  /** The state the encoder reaches from state 0 after `bits`. */
  function EndState(bits: seq<Bit>): State {
    if |bits| == 0 then 0 else NextState(EndState(bits[..|bits| - 1]), bits[|bits| - 1])
  }

  /** The symbols the encoder emits from state 0 for `bits`: e0 then e1 per bit. */
  function Encode(code: Code, bits: seq<Bit>): (sym: seq<Bit>)
    ensures |sym| == 2 * |bits|
  {
    if |bits| == 0 then []
    else
      var init := bits[..|bits| - 1];
      var e := code[2 * EndState(init) + bits[|bits| - 1]];
      Encode(code, init) + [e.0, e.1]
  }

  /** Number of positions where a and b differ. */
  function Hamming(a: seq<Bit>, b: seq<Bit>): nat
    requires |a| == |b|
  {
    if |a| == 0 then 0
    else Hamming(a[..|a| - 1], b[..|b| - 1]) + (if a[|a| - 1] != b[|b| - 1] then 1 else 0)
  }

  /** The sum of the branch metrics along the path `bits` from state 0. */
  function PathCost(code: Code, sc: Scoring, rx: seq<Bit>, bits: seq<Bit>): nat
    requires 2 * |bits| <= |rx|
  {
    if |bits| == 0 then 0
    else
      var t := |bits|;
      var init := bits[..t - 1];
      PathCost(code, sc, rx, init) + BranchMetric(code, sc, EndState(init), bits[t - 1], rx[2 * t - 2], rx[2 * t - 1])
  }

  lemma {:induction false} HammingZero(a: seq<Bit>, b: seq<Bit>)
    requires |a| == |b|
    ensures Hamming(a, b) == 0 <==> a == b
  {
    if |a| > 0 {
      HammingZero(a[..|a| - 1], b[..|b| - 1]);
      assert a == a[..|a| - 1] + [a[|a| - 1]];
      assert b == b[..|b| - 1] + [b[|b| - 1]];
    }
  }

  /** The distance of two sequences is that of their prefixes less the last pair, plus that pair's. */
  lemma HammingLastPair(a: seq<Bit>, b: seq<Bit>)
    requires |a| == |b| >= 2
    ensures var n := |a|;
            Hamming(a, b) == Hamming(a[..n - 2], b[..n - 2])
                             + (if a[n - 2] != b[n - 2] then 1 else 0) + (if a[n - 1] != b[n - 1] then 1 else 0)
  {
    var n := |a|;
    assert a[..n - 1][..n - 2] == a[..n - 2];
    assert b[..n - 1][..n - 2] == b[..n - 2];
  }

  /** Number of whole symbol pairs (counted from the end) where a and b differ. */
  function PairMismatches(a: seq<Bit>, b: seq<Bit>): nat
    requires |a| == |b|
  {
    if |a| < 2 then 0
    else
      var n := |a|;
      PairMismatches(a[..n - 2], b[..n - 2]) + (if a[n - 2] != b[n - 2] || a[n - 1] != b[n - 1] then 1 else 0)
  }

  /** The distance a decoder with scoring sc minimises: mismatching pairs, or mismatching symbols. */
  function Distance(sc: Scoring, a: seq<Bit>, b: seq<Bit>): nat
    requires |a| == |b|
  {
    match sc
    case BoolSum => PairMismatches(a, b)
    case IntSum => Hamming(a, b)
  }

  /** The distance of two sequences is that of their prefixes less the last pair, plus that pair's cost. */
  lemma DistanceLastPair(sc: Scoring, a: seq<Bit>, b: seq<Bit>)
    requires |a| == |b| >= 2
    ensures var n := |a|;
            Distance(sc, a, b) == Distance(sc, a[..n - 2], b[..n - 2]) + PairCost(sc, b[n - 2], b[n - 1], a[n - 2], a[n - 1])
  {
    if sc == IntSum {
      HammingLastPair(a, b);
    }
  }

  lemma {:induction false} PairMismatchesZero(a: seq<Bit>, b: seq<Bit>, k: nat)
    requires |a| == |b| == 2 * k
    ensures PairMismatches(a, b) == 0 <==> a == b
  {
    var n := |a|;
    if k > 0 {
      PairMismatchesZero(a[..n - 2], b[..n - 2], k - 1);
      if PairMismatches(a, b) == 0 {
        assert forall i :: 0 <= i < n - 2 ==> a[i] == a[..n - 2][i] && b[i] == b[..n - 2][i];
      }
    }
  }

  /** Under either scoring the distance between k whole pairs is zero exactly for equal sequences. */
  lemma DistanceZero(sc: Scoring, a: seq<Bit>, b: seq<Bit>, k: nat)
    requires |a| == |b| == 2 * k
    ensures Distance(sc, a, b) == 0 <==> a == b
  {
    if sc == BoolSum {
      PairMismatchesZero(a, b, k);
    } else {
      HammingZero(a, b);
    }
  }

  /** The path cost is the distance between the path's encoding and the received prefix. */
  lemma {:induction false} PathCostIsDistance(code: Code, sc: Scoring, rx: seq<Bit>, bits: seq<Bit>)
    requires 2 * |bits| <= |rx|
    ensures PathCost(code, sc, rx, bits) == Distance(sc, Encode(code, bits), rx[..2 * |bits|])
  {
    var t := |bits|;
    if t > 0 {
      var init := bits[..t - 1];
      PathCostLast(code, sc, rx, bits);
      PathCostIsDistance(code, sc, rx, init);
      DistanceOfEncodingLast(code, sc, rx, bits);
    }
  }

  /** The distance of a path's encoding grows by the last edge's branch metric. */
  lemma DistanceOfEncodingLast(code: Code, sc: Scoring, rx: seq<Bit>, bits: seq<Bit>)
    requires 0 < |bits| && 2 * |bits| <= |rx|
    ensures var t := |bits|;
            var init := bits[..t - 1];
            Distance(sc, Encode(code, bits), rx[..2 * t])
              == Distance(sc, Encode(code, init), rx[..2 * t - 2])
                 + BranchMetric(code, sc, EndState(init), bits[t - 1], rx[2 * t - 2], rx[2 * t - 1])
  {
    var t := |bits|;
    var init := bits[..t - 1];
    var e := code[2 * EndState(init) + bits[t - 1]];
    var a := Encode(code, bits);
    var b := rx[..2 * t];
    EncodeLast(code, bits);
    assert b[..2 * t - 2] == rx[..2 * t - 2];
    assert a[2 * t - 1] == e.1;
    DistanceLastPair(sc, a, b);
  }

  /** A path of t bits costs at most t under the deployed scoring, 2t under the integer sum. */
  lemma {:induction false} PathCostBound(code: Code, sc: Scoring, rx: seq<Bit>, bits: seq<Bit>)
    requires 2 * |bits| <= |rx|
    ensures PathCost(code, sc, rx, bits) <= 2 * |bits|
    ensures sc == BoolSum ==> PathCost(code, sc, rx, bits) <= |bits|
  {
    if |bits| > 0 {
      PathCostBound(code, sc, rx, bits[..|bits| - 1]);
    }
  }

  /** Step t's survivor into j is Best over the metrics of step t - 1, and its cost is the metric. */
  lemma LayerIsBest(code: Code, sc: Scoring, rx: seq<Bit>, t: nat, j: State)
    requires 1 <= t && 2 * t <= |rx|
    ensures Survivors(code, sc, rx)[t - 1][j] == Best(code, sc, Metrics(code, sc, rx, t - 1), rx[2 * t - 2], rx[2 * t - 1], j)
    ensures Metrics(code, sc, rx, t)[j] == Survivors(code, sc, rx)[t - 1][j].cost
  {
    assert 2 * (t - 1) == 2 * t - 2 && 2 * (t - 1) + 1 == 2 * t - 1;
    assert Survivors(code, sc, rx)[t - 1] == LayerAt(code, sc, rx, t - 1);
  }

  /** The metric of state j after step t is the cost of the best candidate into j. */
  lemma MetricIsBest(code: Code, sc: Scoring, rx: seq<Bit>, t: nat, j: State)
    requires 1 <= t && 2 * t <= |rx|
    ensures Metrics(code, sc, rx, t)[j] == Best(code, sc, Metrics(code, sc, rx, t - 1), rx[2 * t - 2], rx[2 * t - 1], j).cost
  {
    assert 2 * (t - 1) == 2 * t - 2 && 2 * (t - 1) + 1 == 2 * t - 1;
  }

  /** A finite state extended by one edge bounds the survivor into the edge's target. */
  lemma EdgeBoundsSurvivor(code: Code, sc: Scoring, prev: Row, r0: Bit, r1: Bit, s: State, bit: Bit, n: nat)
    requires prev[s].Fin? && prev[s].n <= n
    ensures var w := Best(code, sc, prev, r0, r1, NextState(s, bit));
            w.cost.Fin? && w.cost.n <= n + BranchMetric(code, sc, s, bit, r0, r1)
  {
    SurvivorIsFirstMinimum(code, sc, prev, r0, r1, NextState(s, bit));
    assert Candidate(code, sc, prev, s, bit, r0, r1) == Fin(prev[s].n + BranchMetric(code, sc, s, bit, r0, r1));
  }

  /** The path cost of a non-empty path: that of its prefix plus the last edge's branch metric. */
  lemma PathCostLast(code: Code, sc: Scoring, rx: seq<Bit>, bits: seq<Bit>)
    requires 0 < |bits| && 2 * |bits| <= |rx|
    ensures var t := |bits|;
            var init := bits[..t - 1];
            && |init| == t - 1
            && EndState(bits) == NextState(EndState(init), bits[t - 1])
            && PathCost(code, sc, rx, bits)
                 == PathCost(code, sc, rx, init) + BranchMetric(code, sc, EndState(init), bits[t - 1], rx[2 * t - 2], rx[2 * t - 1])
  {
  }

  /** One edge from a state of finite metric bounds the metric of its target after the step. */
  lemma MetricStepBound(code: Code, sc: Scoring, rx: seq<Bit>, t: nat, s: State, bit: Bit, n: nat)
    requires 1 <= t && 2 * t <= |rx|
    requires Metrics(code, sc, rx, t - 1)[s].Fin? && Metrics(code, sc, rx, t - 1)[s].n <= n
    ensures Metrics(code, sc, rx, t)[NextState(s, bit)].Fin?
    ensures Metrics(code, sc, rx, t)[NextState(s, bit)].n <= n + BranchMetric(code, sc, s, bit, rx[2 * t - 2], rx[2 * t - 1])
  {
    EdgeBoundsSurvivor(code, sc, Metrics(code, sc, rx, t - 1), rx[2 * t - 2], rx[2 * t - 1], s, bit, n);
    MetricIsBest(code, sc, rx, t, NextState(s, bit));
  }

  /** No path into a state costs less than the state's metric. */
  lemma {:induction false} MetricAtMostPathCost(code: Code, sc: Scoring, rx: seq<Bit>, bits: seq<Bit>)
    requires 2 * |bits| <= |rx|
    ensures Metrics(code, sc, rx, |bits|)[EndState(bits)].Fin?
    ensures Metrics(code, sc, rx, |bits|)[EndState(bits)].n <= PathCost(code, sc, rx, bits)
  {
    var t := |bits|;
    if t > 0 {
      var init := bits[..t - 1];
      PathCostLast(code, sc, rx, bits);
      MetricAtMostPathCost(code, sc, rx, init);
      MetricStepBound(code, sc, rx, t, EndState(init), bits[t - 1], PathCost(code, sc, rx, init));
    }
  }

  /** A finite metric comes from its survivor's predecessor, of finite metric, along one edge. */
  lemma SurvivorStep(code: Code, sc: Scoring, rx: seq<Bit>, t: nat, j: State)
    requires 1 <= t && 2 * t <= |rx|
    requires Metrics(code, sc, rx, t)[j].Fin?
    ensures var w := Survivors(code, sc, rx)[t - 1][j];
            && NextState(w.pred, w.bit) == j
            && Metrics(code, sc, rx, t - 1)[w.pred].Fin?
            && Metrics(code, sc, rx, t)[j].n
                 == Metrics(code, sc, rx, t - 1)[w.pred].n + BranchMetric(code, sc, w.pred, w.bit, rx[2 * t - 2], rx[2 * t - 1])
  {
    LayerIsBest(code, sc, rx, t, j);
    SurvivorIsFirstMinimum(code, sc, Metrics(code, sc, rx, t - 1), rx[2 * t - 2], rx[2 * t - 1], j);
  }

  /** Only state 0 has a finite metric before the first step. */
  lemma InitialRowFinite(j: State)
    ensures InitialRow()[j].Fin? <==> j == 0
    ensures InitialRow()[0] == Fin(0)
  {
  }

  /** Extending a path by one bit adds one edge: its target, and its branch metric to the cost. */
  lemma PathCostSnoc(code: Code, sc: Scoring, rx: seq<Bit>, q: seq<Bit>, bit: Bit)
    requires 2 * |q| + 2 <= |rx|
    ensures EndState(q + [bit]) == NextState(EndState(q), bit)
    ensures PathCost(code, sc, rx, q + [bit]) == PathCost(code, sc, rx, q) + BranchMetric(code, sc, EndState(q), bit, rx[2 * |q|], rx[2 * |q| + 1])
  {
    assert (q + [bit])[..|q|] == q;
  }

  /** The trace from a state of finite metric is a path into that state costing exactly the metric. */
  lemma {:induction false} TraceRealisesMetric(code: Code, sc: Scoring, rx: seq<Bit>, t: nat, j: State)
    requires 2 * t <= |rx|
    requires Metrics(code, sc, rx, t)[j].Fin?
    ensures EndState(Trace(Survivors(code, sc, rx), t, j)) == j
    ensures PathCost(code, sc, rx, Trace(Survivors(code, sc, rx), t, j)) == Metrics(code, sc, rx, t)[j].n
  {
    if t == 0 {
      InitialRowFinite(j);
    } else {
      var w := Survivors(code, sc, rx)[t - 1][j];
      SurvivorStep(code, sc, rx, t, j);
      TraceRealisesMetric(code, sc, rx, t - 1, w.pred);
      TraceExtends(code, sc, rx, t, j);
    }
  }

  /** The step of TraceRealisesMetric: if the trace into the survivor's predecessor realises its metric, the trace into j realises j's. */
  lemma TraceExtends(code: Code, sc: Scoring, rx: seq<Bit>, t: nat, j: State)
    requires 1 <= t && 2 * t <= |rx|
    requires Metrics(code, sc, rx, t)[j].Fin?
    requires var sv := Survivors(code, sc, rx);
             var w := sv[t - 1][j];
             var q := Trace(sv, t - 1, w.pred);
             && NextState(w.pred, w.bit) == j
             && Metrics(code, sc, rx, t - 1)[w.pred].Fin?
             && Metrics(code, sc, rx, t)[j].n
                  == Metrics(code, sc, rx, t - 1)[w.pred].n + BranchMetric(code, sc, w.pred, w.bit, rx[2 * t - 2], rx[2 * t - 1])
             && EndState(q) == w.pred
             && PathCost(code, sc, rx, q) == Metrics(code, sc, rx, t - 1)[w.pred].n
    ensures EndState(Trace(Survivors(code, sc, rx), t, j)) == j
    ensures PathCost(code, sc, rx, Trace(Survivors(code, sc, rx), t, j)) == Metrics(code, sc, rx, t)[j].n
  {
    var sv := Survivors(code, sc, rx);
    var w := sv[t - 1][j];
    var q := Trace(sv, t - 1, w.pred);
    assert Trace(sv, t, j) == q + [w.bit];
    PathCostSnoc(code, sc, rx, q, w.bit);
  }

  /** Exactly the states reachable from state 0 in t steps have a finite metric. */
  lemma FiniteIffReachable(code: Code, sc: Scoring, rx: seq<Bit>, t: nat, j: State)
    requires 2 * t <= |rx|
    ensures Metrics(code, sc, rx, t)[j].Fin? <==> exists bits: seq<Bit> :: |bits| == t && EndState(bits) == j
  {
    if Metrics(code, sc, rx, t)[j].Fin? {
      TraceRealisesMetric(code, sc, rx, t, j);
      assert |Trace(Survivors(code, sc, rx), t, j)| == t;
    }
    if exists bits: seq<Bit> :: |bits| == t && EndState(bits) == j {
      var bits: seq<Bit> :| |bits| == t && EndState(bits) == j;
      MetricAtMostPathCost(code, sc, rx, bits);
    }
  }

  /** Every finite metric after t steps is at most t under the deployed scoring, 2t under the integer sum. */
  lemma MetricBound(code: Code, sc: Scoring, rx: seq<Bit>, t: nat, j: State)
    requires 2 * t <= |rx|
    requires Metrics(code, sc, rx, t)[j].Fin?
    ensures Metrics(code, sc, rx, t)[j].n <= 2 * t
    ensures sc == BoolSum ==> Metrics(code, sc, rx, t)[j].n <= t
  {
    TraceRealisesMetric(code, sc, rx, t, j);
    PathCostBound(code, sc, rx, Trace(Survivors(code, sc, rx), t, j));
  }

  /**
   * The decoder minimises the distance of its scoring: the final metric
   * chosen is finite, the decoded bits re-encoded from state 0 lie at exactly
   * that distance from the received pairs, and no input sequence of that
   * length lies closer.
   */
  lemma MaximumLikelihood(code: Code, sc: Scoring, rx: seq<Bit>, bits: seq<Bit>)
    requires |bits| == |rx| / 2
    ensures var n := |rx| / 2;
            var m := Metrics(code, sc, rx, n)[ArgMin(Metrics(code, sc, rx, n))];
            && m.Fin?
            && Distance(sc, Encode(code, Decoded(code, sc, rx)), rx[..2 * n]) == m.n
            && m.n <= Distance(sc, Encode(code, bits), rx[..2 * n])
  {
    var n := |rx| / 2;
    var row := Metrics(code, sc, rx, n);
    var k := ArgMin(row);
    MetricAtMostPathCost(code, sc, rx, bits);
    assert !Less(row[EndState(bits)], row[k]);
    TraceRealisesMetric(code, sc, rx, n, k);
    PathCostIsDistance(code, sc, rx, bits);
    PathCostIsDistance(code, sc, rx, Decoded(code, sc, rx));
  }

  /**
   * The corrected decoder, scoring a branch by the integer sum of its
   * mismatches, is maximum-likelihood in Hamming distance: no input sequence
   * re-encodes closer to the received symbols than the decoded bits.
   */
  lemma HammingDecoderIsNearest(code: Code, rx: seq<Bit>, bits: seq<Bit>)
    requires |bits| == |rx| / 2
    ensures var n := |rx| / 2;
            Hamming(Encode(code, Decoded(code, IntSum, rx)), rx[..2 * n]) <= Hamming(Encode(code, bits), rx[..2 * n])
  {
    MaximumLikelihood(code, IntSum, rx, bits);
  }

  /**
   * The deployed scoring is not Hamming maximum-likelihood.  On the received
   * symbols 1 0 0 1 every input path mismatches one pair, so state 0 wins
   * the final argmin and the decoder returns 0 0, which re-encodes at
   * Hamming distance 2; the input 1 0 re-encodes at distance 1, and so does
   * the corrected decoder's output.
   */
  lemma DeployedDecoderNotNearest(code: Code, rx: seq<Bit>)
    requires code == Ccsds() && rx == [1, 0, 0, 1]
    ensures Decoded(code, BoolSum, rx) == [0, 0]
    ensures Hamming(Encode(code, [0, 0]), rx) == 2
    ensures Hamming(Encode(code, [1, 0]), rx) == 1
    ensures Hamming(Encode(code, Decoded(code, IntSum, rx)), rx) <= 1
  {
    CcsdsFirstEntries();
    NotNearestOn(code, rx);
  }

  /** The same for any table that starts as the CCSDS table does. */
  lemma NotNearestOn(code: Code, rx: seq<Bit>)
    requires FirstEntriesAsCcsds(code) && rx == [1, 0, 0, 1]
    ensures Decoded(code, BoolSum, rx) == [0, 0]
    ensures Hamming(Encode(code, [0, 0]), rx) == 2
    ensures Hamming(Encode(code, [1, 0]), rx) == 1
    ensures Hamming(Encode(code, Decoded(code, IntSum, rx)), rx) <= 1
  {
    DistancesOfShortInputs(code, rx);
    DeployedDecodesToZeros(code, rx);
    assert rx[..4] == rx;
    HammingDecoderIsNearest(code, rx, [1, 0]);
  }

  /** Against 1 0 0 1, the input 0 0 re-encodes at Hamming distance 2 and 1 0 at distance 1. */
  lemma DistancesOfShortInputs(code: Code, rx: seq<Bit>)
    requires FirstEntriesAsCcsds(code) && rx == [1, 0, 0, 1]
    ensures Hamming(Encode(code, [0, 0]), rx) == 2
    ensures Hamming(Encode(code, [1, 0]), rx) == 1
  {
    ShortEncodings(code);
    HammingOfFour(Encode(code, [0, 0]), rx);
    HammingOfFour(Encode(code, [1, 0]), rx);
  }

  /** The first four entries of the CCSDS table: states 0 and 1 on both bits. */
  predicate FirstEntriesAsCcsds(code: Code) {
    code[0] == (0, 1) && code[1] == (1, 0) && code[2] == (1, 1) && code[3] == (0, 0)
  }

  lemma CcsdsFirstEntries()
    ensures FirstEntriesAsCcsds(Ccsds())
  {
    LowStateOutputs(0, 0);
    LowStateOutputs(0, 1);
    LowStateOutputs(1, 0);
    LowStateOutputs(1, 1);
  }

  /** From states 0 and 1 the CCSDS table emits the parity of state and bit, then the inverted bit. */
  lemma LowStateOutputs(s: State, bit: Bit)
    requires s <= 1
    ensures Ccsds()[2 * s + bit] == ((s + bit) % 2, 1 - bit)
  {
    CcsdsEntry(s, bit);
    FirstOutputParity(s, bit);
    assert BitAnd(s, 39) == s;
    BitAndOdd(s, bit, 109);
    assert BitAnd(s, 54) == 0;
    PopcountShift(0, bit);
    assert Register(s, bit) == 2 * s + bit;
  }

  /** The encodings of the inputs 0 0 and 1 0 under such a table. */
  lemma ShortEncodings(code: Code)
    requires FirstEntriesAsCcsds(code)
    ensures Encode(code, [0, 0]) == [0, 1, 0, 1]
    ensures Encode(code, [1, 0]) == [1, 0, 1, 1]
  {
    assert [0, 0][..1] == [0] && [1, 0][..1] == [1];
    assert [0][..0] == [] && [1][..0] == [];
    assert EndState([0]) == 0 && EndState([1]) == 1;
  }

  /** The Hamming distance of two four-symbol sequences, position by position. */
  lemma HammingOfFour(a: seq<Bit>, b: seq<Bit>)
    requires |a| == |b| == 4
    ensures Hamming(a, b) == (if a[0] != b[0] then 1 else 0) + (if a[1] != b[1] then 1 else 0)
                            + (if a[2] != b[2] then 1 else 0) + (if a[3] != b[3] then 1 else 0)
  {
    HammingLastPair(a, b);
    HammingLastPair(a[..2], b[..2]);
    assert a[..2][..0] == [] && b[..2][..0] == [];
  }

  /** The deployed decoder on such a table maps 1 0 0 1 to 0 0. */
  lemma DeployedDecodesToZeros(code: Code, rx: seq<Bit>)
    requires FirstEntriesAsCcsds(code) && rx == [1, 0, 0, 1]
    ensures Decoded(code, BoolSum, rx) == [0, 0]
  {
    ZeroWinsArgMin(code, rx);
    var d := Trace(Survivors(code, BoolSum, rx), 2, 0);
    TraceRealisesMetric(code, BoolSum, rx, 2, 0);
    EndsInZero(d);
  }

  /** Every final metric is at least 1 and state 0 reaches it, so the argmin is state 0. */
  lemma ZeroWinsArgMin(code: Code, rx: seq<Bit>)
    requires FirstEntriesAsCcsds(code) && rx == [1, 0, 0, 1]
    ensures Metrics(code, BoolSum, rx, 2)[0].Fin?
    ensures ArgMin(Metrics(code, BoolSum, rx, 2)) == 0
  {
    var row := Metrics(code, BoolSum, rx, 2);
    var k := ArgMin(row);
    ZerosCostOne(code, rx);
    MetricAtMostPathCost(code, BoolSum, rx, [0, 0]);
    if k != 0 {
      assert Less(row[k], row[0]);
      TraceRealisesMetric(code, BoolSum, rx, 2, k);
      EveryPathMismatches(code, rx, Trace(Survivors(code, BoolSum, rx), 2, k));
      assert false;
    }
  }

  lemma ZerosCostOne(code: Code, rx: seq<Bit>)
    requires FirstEntriesAsCcsds(code) && rx == [1, 0, 0, 1]
    ensures EndState([0, 0]) == 0
    ensures PathCost(code, BoolSum, rx, [0, 0]) == 1
  {
    assert [0, 0][..1] == [0] && [0][..0] == [];
    PathCostLast(code, BoolSum, rx, [0, 0]);
    PathCostLast(code, BoolSum, rx, [0]);
  }

  /** The only two-bit input that leaves the encoder in state 0 is 0 0. */
  lemma EndsInZero(d: seq<Bit>)
    requires |d| == 2 && EndState(d) == 0
    ensures d == [0, 0]
  {
    assert d[..1] == [d[0]] && [d[0]][..0] == [];
    assert EndState(d) == NextState(NextState(0, d[0]), d[1]);
  }

  /** Under the deployed scoring every two-bit path costs at least 1 on 1 0 0 1. */
  lemma EveryPathMismatches(code: Code, rx: seq<Bit>, bits: seq<Bit>)
    requires FirstEntriesAsCcsds(code) && rx == [1, 0, 0, 1] && |bits| == 2
    ensures PathCost(code, BoolSum, rx, bits) >= 1
  {
    var init := bits[..1];
    PathCostLast(code, BoolSum, rx, bits);
    PathCostLast(code, BoolSum, rx, init);
    assert init[..0] == [];
    assert EndState(init) == bits[0];
  }

  /** The encoding of a non-empty input: that of its prefix, then the last bit's pair. */
  lemma EncodeLast(code: Code, bits: seq<Bit>)
    requires |bits| > 0
    ensures var t := |bits|;
            var init := bits[..t - 1];
            var e := code[2 * EndState(init) + bits[t - 1]];
            && Encode(code, bits) == Encode(code, init) + [e.0, e.1]
            && Encode(code, bits)[..2 * t - 2] == Encode(code, init)
            && Encode(code, bits)[2 * t - 2] == e.0
  {
  }

  /** When the first output taps the new bit, it determines the bit from a known state. */
  lemma FirstOutputDecides(code: Code, s: State, x: Bit, y: Bit)
    requires TapsNewBit(code)
    requires code[2 * s + x].0 == code[2 * s + y].0
    ensures x == y
  {
    assert code[2 * s].0 != code[2 * s + 1].0;
  }

  /** When the first output taps the new bit, equal encodings come from equal inputs. */
  lemma {:induction false} EncodeInjective(code: Code, a: seq<Bit>, b: seq<Bit>)
    requires TapsNewBit(code)
    requires |a| == |b|
    requires Encode(code, a) == Encode(code, b)
    ensures a == b
  {
    var t := |a|;
    if t > 0 {
      var ai := a[..t - 1];
      var bi := b[..t - 1];
      EncodeLast(code, a);
      EncodeLast(code, b);
      EncodeInjective(code, ai, bi);
      FirstOutputDecides(code, EndState(ai), a[t - 1], b[t - 1]);
      assert a == ai + [a[t - 1]];
      assert b == bi + [b[t - 1]];
    }
  }

  /** Noiseless round trip: decoding an encoding from state 0 returns the encoded bits. */
  lemma NoiselessRoundTrip(code: Code, sc: Scoring, bits: seq<Bit>)
    requires TapsNewBit(code)
    ensures Decoded(code, sc, Encode(code, bits)) == bits
  {
    var rx := Encode(code, bits);
    var d := Decoded(code, sc, rx);
    assert rx[..2 * |bits|] == rx;
    MaximumLikelihood(code, sc, rx, bits);
    DistanceZero(sc, rx, rx, |bits|);
    DistanceZero(sc, Encode(code, d), rx, |bits|);
    EncodeInjective(code, d, bits);
  }

  /** The metrics after t steps depend only on the first t symbol pairs. */
  lemma {:induction false} MetricsOfPrefix(code: Code, sc: Scoring, rx: seq<Bit>, p: seq<Bit>, t: nat)
    requires |p| <= |rx| && p == rx[..|p|] && 2 * t <= |p|
    ensures Metrics(code, sc, rx, t) == Metrics(code, sc, p, t)
  {
    if t > 0 {
      MetricsOfPrefix(code, sc, rx, p, t - 1);
      assert LayerAt(code, sc, rx, t - 1) == LayerAt(code, sc, p, t - 1);
    }
  }

  /** An odd trailing symbol is ignored. */
  lemma OddTrailingSymbolIgnored(code: Code, sc: Scoring, rx: seq<Bit>)
    requires |rx| % 2 == 1
    ensures Decoded(code, sc, rx) == Decoded(code, sc, rx[..|rx| - 1])
  {
    var p := rx[..|rx| - 1];
    var n := |rx| / 2;
    assert |p| / 2 == n;
    forall u | 0 <= u < n
      ensures Survivors(code, sc, rx)[u] == Survivors(code, sc, p)[u]
    {
      MetricsOfPrefix(code, sc, rx, p, u);
      assert Survivors(code, sc, rx)[u] == LayerAt(code, sc, rx, u);
      assert Survivors(code, sc, p)[u] == LayerAt(code, sc, p, u);
    }
    assert Survivors(code, sc, rx) == Survivors(code, sc, p);
    MetricsOfPrefix(code, sc, rx, p, n);
  }

  // ---------------------------------------------------------------------
  // Framing of one PDU
  // ---------------------------------------------------------------------

  /** Soft symbols to hard bits: 1 exactly when the soft value is not negative. */
  function HardDecision(soft: seq<real>): (bits: seq<Bit>)
    ensures |bits| == |soft|
    ensures forall i :: 0 <= i < |soft| ==> (bits[i] == 1 <==> soft[i] >= 0.0)
  {
    seq(|soft|, i requires 0 <= i < |soft| => if soft[i] >= 0.0 then 1 else 0)
  }

  /** The published bits: the decoded bits less the 6 tail bits, truncated to 2560. */
  function Frame(decoded: seq<Bit>): (info: seq<Bit>)
    ensures |info| == Min(FrameInfoBits, Max(0, |decoded| - TailBits))
    ensures info == decoded[..|info|]
  {
    var noTail := if |decoded| >= TailBits then decoded[..|decoded| - TailBits] else [];
    noTail[..Min(|noTail|, FrameInfoBits)]
  }

  /** Decodes the soft symbols of one PDU into its information bits. */
  method HandleMsg(tr: Trellis, soft: seq<real>) returns (info: seq<Bit>)
    requires tr.Valid()
    ensures info == Frame(Decoded(tr.code, BoolSum, HardDecision(soft)))
    ensures |info| <= FrameInfoBits
  {
    var bits := HardDecision(soft);
    var decodedBits := ViterbiDecode(tr, bits);
    info := Frame(decodedBits);
  }

  /**
   * A frame of at most 2560 information bits, encoded with a 6-bit tail and
   * received with every soft symbol on the right side of zero, comes back intact.
   */
  lemma FrameRoundTrip(code: Code, sc: Scoring, info: seq<Bit>, tail: seq<Bit>, soft: seq<real>)
    requires TapsNewBit(code)
    requires |info| <= FrameInfoBits && |tail| == TailBits
    requires |soft| == 2 * (|info| + TailBits)
    requires forall i :: 0 <= i < |soft| ==> (soft[i] >= 0.0 <==> Encode(code, info + tail)[i] == 1)
    ensures Frame(Decoded(code, sc, HardDecision(soft))) == info
  {
    var bits := info + tail;
    HardDecisionOfSigns(soft, Encode(code, bits));
    NoiselessRoundTrip(code, sc, bits);
    FrameStripsTail(info, tail);
  }

  /** Soft symbols whose signs match a bit sequence decide to exactly that sequence. */
  lemma HardDecisionOfSigns(soft: seq<real>, bits: seq<Bit>)
    requires |soft| == |bits|
    requires forall i :: 0 <= i < |soft| ==> (soft[i] >= 0.0 <==> bits[i] == 1)
    ensures HardDecision(soft) == bits
  {
  }

  /** Framing removes a 6-bit tail from at most 2560 information bits and keeps the rest. */
  lemma FrameStripsTail(info: seq<Bit>, tail: seq<Bit>)
    requires |info| <= FrameInfoBits && |tail| == TailBits
    ensures Frame(info + tail) == info
  {
    assert (info + tail)[..|info|] == info;
  }
}
