# Ground-station core, modelled in Dafny

This project models the integer-, string- and decision-level core of a small
amateur satellite ground station and proves properties of it. The station
decodes FUNcube telemetry, predicts passes and drives a Yaesu GS-232B rotator.
The parts modelled are:

- **Viterbi decoder** (`viterbi.dfy`, module `Viterbi`). The hard-decision
  decoder for the CCSDS rate-1/2, K = 7 convolutional code (CCSDS 131.0-B,
  section 3), written as imperative Dafny:
  - the trellis tables are filled by nested loops into arrays of a `Trellis`
    object;
  - the decoder is a triple loop over `array2` metric and predecessor matrices,
    followed by the traceback loop.
  Both are proved equal to a functional specification (`Decoded`). The
  branch cost is modelled as written: numpy adds the two mismatch booleans
  as a logical or, so an edge costs 1 when either symbol is wrong. About the
  specification it is proved that the decoded path has the fewest
  mismatching symbol pairs of all input paths, and that a noiseless encoding
  decodes back to itself. It is also proved that this decoder is not
  maximum-likelihood in Hamming distance, while the same decoder with the
  integer sum of mismatches is (see Findings). The pure steps of the PDU
  handler are modelled too: the threshold at 0, the tail strip and the
  truncation to 2560 bits.
- **FUNcube frame parser** (`funcube.dfy`, module `Funcube`): MSB-first
  byte-to-bit expansion, big-endian bit-field extraction, the 440-bit
  real-time layout walk, the header split, the frame-type schedule and the
  256-byte frame slicing.
- **TLE block scanner** (`tle_scan.dfy`, module `TleScan`): the 3-line block
  scan shared by the pass predictor and the tracking loop.
- **Pass segmentation** (`passes.dfy`, module `PassVisibility`):
  - the segmentation loop of one satellite, over an elevation track given as
    a function of time;
  - the peak-time filter and the per-file summaries.
- **C2 reply parsers** (module `Gs232Commands` for `src/gs232/commands.py`,
  module `Calibration` for `src/calibration_wizard.py`): the GS-232B
  command formatting and both C2 reply parsers.
- **Simulate-mode controller** (module `Calibration`): the `SerialManager`
  class, which holds the simulated azimuth, elevation and last command.
- **Satellite key resolution** (`skyfield_predictor.dfy`, module
  `SkyfieldPredictor`): name normalisation, the per-path index cache (class
  `TleCache`), and the NORAD → exact → unique prefix → unique substring
  resolution order.
- **Tracking-loop helpers** (`tracking.dfy`, module `Tracking`):
  - the name/NORAD TLE lookup;
  - azimuth unwrap and slew limiting;
  - mount clamps;
  - the per-frame deadband / rate-limit decision, with its state held in a
    `Tracker` class.
- **Python built-ins** (`builtins.dfy`, module `Builtins`): the built-ins the
  core relies on. Whitespace is Python's full `str.isspace` set; digits and
  case mapping are ASCII. These are `strip`, `split`, `upper`, `int()`,
  `float()` on decimal notation (surrounding whitespace, a sign, digits, a
  fraction and an exponent), `round` (half to even), `%03d` and slicing.
  `wrappers.dfy` holds `Option` and `Result`.

Times are integer seconds in the pass predictor and reals in the tracking
loop. Angles are reals. The Skyfield propagator is an input: an elevation
track `int -> real` for pass prediction, and the frame's azimuth and
elevation for tracking. File contents are given as sequences of lines.

Where the code does something that one might not expect, the model follows
the code:
- an odd-length symbol stream is decoded without error, and its last symbol
  is ignored (`Viterbi.OddTrailingSymbolIgnored`);
- a frame shorter than 2560 information bits is passed on shorter, not
  reported (`Viterbi.Frame`);
- a NORAD key with leading zeros never resolves, because the index holds
  catalogue numbers without them (`SkyfieldPredictor.PaddedNoradMisses`);
- the signed C2 reply format given in the parser's own documentation is
  rejected (see Findings).

## Model

| member | source | states |
|---|---|---|
| Viterbi.Register | src/gnu_radio/hard_viterbi_block.py:41 | the 7-bit shift register holds the old state above the new bit, which sits in the low bit |
| Viterbi.NextState | src/gnu_radio/hard_viterbi_block.py:56-57 | the next state is (2s + bit) mod 64: it keeps the five newest old bits and the new bit in the low position |
| Viterbi.Predecessors | src/gnu_radio/hard_viterbi_block.py:37-57 | state j is reached exactly from states j/2 and j/2 + 32, with input bit j mod 2 |
| Viterbi.FirstOutputParity | src/gnu_radio/hard_viterbi_block.py:41-46 | the first output is the parity of the old taps of generator 79 plus the new bit |
| Viterbi.NewBitTapped | src/gnu_radio/hard_viterbi_block.py:44 | from any state the two input bits give different first outputs, because generator 79 taps the new bit |
| Viterbi.CcsdsTapsNewBit | src/gnu_radio/hard_viterbi_block.py:37-57 | the CCSDS output table has the property that the noiseless round trip needs |
| Viterbi.Trellis.constructor | src/gnu_radio/hard_viterbi_block.py:25-57 | the loops fill the next-state array with (2s + bit) mod 64 and the output array with the CCSDS table |
| Viterbi.BranchMetric | src/gnu_radio/hard_viterbi_block.py:95-97 | the branch cost is 0 exactly when the received pair equals the edge's expected output; under the deployed boolean sum it is otherwise exactly 1, under the integer sum at most 2 |
| Viterbi.SurvivorIsFirstMinimum | src/gnu_radio/hard_viterbi_block.py:89-105 | the survivor is not beaten by any candidate edge into j, is infinite exactly when every candidate is, is itself a real edge, and on a tie goes to the predecessor scanned first |
| Viterbi.TryCandidate | src/gnu_radio/hard_viterbi_block.py:99-105 | scanning one more edge changes only the target's entry, and replaces it only when strictly cheaper |
| Viterbi.SkipUnreached | src/gnu_radio/hard_viterbi_block.py:90-92 | skipping a previous state of infinite metric leaves every survivor as it was |
| Viterbi.PartialSurvivorIsPick | src/gnu_radio/hard_viterbi_block.py:89-105 | after any prefix of the edge scan, each entry is the strict-less pick among the edges scanned so far |
| Viterbi.TryEdge | src/gnu_radio/hard_viterbi_block.py:94-105 | the inner loop body, charging 1 for a pair with any wrong symbol as the boolean sum does, keeps the matrix row equal to the specification's survivors over the scanned edges |
| Viterbi.TryBothBits | src/gnu_radio/hard_viterbi_block.py:94-105 | trying both edges out of a reached state, bit 0 first, advances the row by those two candidates and touches no other row |
| Viterbi.RelaxStep | src/gnu_radio/hard_viterbi_block.py:87-107 | one forward step writes the metric and predecessor row equal to the specification's survivor layer under the boolean-sum cost |
| Viterbi.Forward | src/gnu_radio/hard_viterbi_block.py:84-107 | the forward recursion fills every predecessor row from the specification's boolean-sum layers and returns the last metric row |
| Viterbi.ArgMin | src/gnu_radio/hard_viterbi_block.py:110 | the chosen final state has the minimum metric and is the lowest index with it |
| Viterbi.Traceback | src/gnu_radio/hard_viterbi_block.py:113-118 | the traceback loop returns the bits read off the predecessor links, in forward order |
| Viterbi.ViterbiDecode | src/gnu_radio/hard_viterbi_block.py:65-119 | the imperative decoder returns exactly the specification `Decoded` under the boolean-sum cost |
| Viterbi.Decoded | src/gnu_radio/hard_viterbi_block.py:73 | the decoded length is half the input length, rounded down |
| Viterbi.Encode | src/gnu_radio/hard_viterbi_block.py:37-57 | the reference encoder, the partner definition the decoder is proved against, emits two symbols per input bit |
| Viterbi.HammingZero | src/gnu_radio/hard_viterbi_block.py:97 | the Hamming distance is zero exactly for equal sequences |
| Viterbi.DistanceZero | src/gnu_radio/hard_viterbi_block.py:97 | under either cost, the distance between two sequences of whole pairs is zero exactly when they are equal |
| Viterbi.PathCostIsDistance | src/gnu_radio/hard_viterbi_block.py:97-100 | summing branch costs along an input path gives the distance from its encoding to the received symbols: the number of mismatching pairs under the boolean sum, the Hamming distance under the integer sum |
| Viterbi.PathCostBound | src/gnu_radio/hard_viterbi_block.py:97 | a path of t bits costs at most t under the boolean sum and at most 2t under the integer sum |
| Viterbi.MetricAtMostPathCost | src/gnu_radio/hard_viterbi_block.py:80-107 | every state an input path ends in has a finite metric no larger than that path's cost |
| Viterbi.TraceRealisesMetric | src/gnu_radio/hard_viterbi_block.py:104-118 | tracing back from a finite state yields a path that ends there and costs exactly its metric |
| Viterbi.FiniteIffReachable | src/gnu_radio/hard_viterbi_block.py:79-92 | a metric is finite exactly when some input path of that length from state 0 ends in the state |
| Viterbi.MetricBound | src/gnu_radio/hard_viterbi_block.py:97-105 | every finite metric after t steps is at most t under the boolean sum and at most 2t under the integer sum |
| Viterbi.MaximumLikelihood | src/gnu_radio/hard_viterbi_block.py:84-118 | re-encoding the decoded bits lies at the minimum final metric's distance from the received symbols, and no input sequence lies closer, the distance being that of the branch cost used |
| Viterbi.HammingDecoderIsNearest | src/gnu_radio/hard_viterbi_block.py:95-118 | with the integer-sum cost the comment intends, no input sequence re-encodes closer in Hamming distance than the decoded bits |
| Viterbi.DeployedDecoderNotNearest | src/gnu_radio/hard_viterbi_block.py:95-118 | on the CCSDS table and received symbols 1 0 0 1, the deployed decoder returns 0 0, at Hamming distance 2, while 1 0 is at distance 1 and the integer-sum decoder's output at most 1 |
| Viterbi.EncodeInjective | src/gnu_radio/hard_viterbi_block.py:37-57 | for a table whose first output depends on the new bit, distinct inputs of equal length encode differently |
| Viterbi.NoiselessRoundTrip | src/gnu_radio/hard_viterbi_block.py:65-119 | decoding a noiseless encoding returns the encoded bits |
| Viterbi.MetricsOfPrefix | src/gnu_radio/hard_viterbi_block.py:84-86 | the metrics after t steps depend only on the first 2t symbols |
| Viterbi.OddTrailingSymbolIgnored | src/gnu_radio/hard_viterbi_block.py:73 | an odd trailing symbol does not change the decoded bits |
| Viterbi.HardDecision | src/gnu_radio/hard_viterbi_block.py:157 | each hard bit is 1 exactly when its soft value is at least 0.0 |
| Viterbi.HardDecisionOfSigns | src/gnu_radio/hard_viterbi_block.py:157 | soft values with the signs of a bit sequence threshold to that sequence |
| Viterbi.Frame | src/gnu_radio/hard_viterbi_block.py:164-172 | the published bits are a prefix of the decoded bits, of length min(2560, max(0, n - 6)) |
| Viterbi.FrameStripsTail | src/gnu_radio/hard_viterbi_block.py:163-168 | information bits followed by a 6-bit tail frame back to the information bits |
| Viterbi.HandleMsg | src/gnu_radio/hard_viterbi_block.py:154-172 | the handler publishes the framed boolean-sum decoding of the thresholded symbols, never more than 2560 bits |
| Viterbi.FrameRoundTrip | src/gnu_radio/hard_viterbi_block.py:154-172 | soft symbols carrying a noiseless encoding of information bits plus a tail yield exactly the information bits |
| Funcube.BitsOfIndex | src/gnu_radio/funcube_telemetry_parser.py:176 | element j of an n-bit expansion is bit n - 1 - j of the value, most significant first |
| Funcube.BitsOfValue | src/gnu_radio/funcube_telemetry_parser.py:192-196 | reading the MSB-first expansion of a value below 2^n gives the value back |
| Funcube.ByteBitsValue | src/gnu_radio/funcube_telemetry_parser.py:173-177 | the eight bits of a byte read back as that byte |
| Funcube.MsbBitsSlice | src/gnu_radio/funcube_telemetry_parser.py:173-177 | bits 8i to 8i + 7 of the expansion are the bits of byte i |
| Funcube.MsbBitsIndex | src/gnu_radio/funcube_telemetry_parser.py:176 | element 8i + j of the expansion is bit 7 - j of byte i |
| Funcube.BytesToBitsMsbFirst | src/gnu_radio/funcube_telemetry_parser.py:163-177 | the nested append loop returns the MSB-first expansion, 8 bits per byte |
| Funcube.TakeBits | src/gnu_radio/funcube_telemetry_parser.py:180-196 | the shift-and-or loop returns the big-endian value of the nbits bits at pos, which is below 2^nbits, and the position after them |
| Funcube.TakeByteRoundTrip | src/gnu_radio/funcube_telemetry_parser.py:163-196 | taking 8 bits at 8i from the expansion returns byte i |
| Funcube.EpsSectionWidth | src/gnu_radio/funcube_telemetry_parser.py:79-88 | the EPS fields take 192 bits |
| Funcube.BobSectionWidth | src/gnu_radio/funcube_telemetry_parser.py:89-95 | the BOB fields take 100 bits |
| Funcube.RfSectionWidth | src/gnu_radio/funcube_telemetry_parser.py:96-99 | the RF fields take 48 bits |
| Funcube.PaSectionWidth | src/gnu_radio/funcube_telemetry_parser.py:100-103 | the PA fields take 32 bits |
| Funcube.AntsSectionWidth | src/gnu_radio/funcube_telemetry_parser.py:104-108 | the antenna fields take 20 bits |
| Funcube.SwSectionWidth | src/gnu_radio/funcube_telemetry_parser.py:109-118 | the software fields take 48 bits |
| Funcube.RtLayoutWidth | src/gnu_radio/funcube_telemetry_parser.py:122 | the real-time layout widths sum to 440 bits, 55 bytes |
| Funcube.Walk | src/gnu_radio/funcube_telemetry_parser.py:222-227 | the layout walk yields one field per layout entry |
| Funcube.WalkLayout | src/gnu_radio/funcube_telemetry_parser.py:220-227 | the field loop, threading the bit position through each take, builds the walk of the layout |
| Funcube.WalkField | src/gnu_radio/funcube_telemetry_parser.py:222-227 | field i is named as its layout entry, is read from the width bits right after those of the earlier entries, and is below 2^width |
| Funcube.RtFields | src/gnu_radio/funcube_telemetry_parser.py:216-227 | a 55-byte block parses into one field per layout entry |
| Funcube.RtFieldBound | src/gnu_radio/funcube_telemetry_parser.py:222-227 | every real-time field lies within the 440 bits and its value fits its width |
| Funcube.ParseRtTelemetry | src/gnu_radio/funcube_telemetry_parser.py:203-230 | the block fails exactly when it is not 55 bytes long, and otherwise yields the layout walk |
| Funcube.SatNameKnown | src/gnu_radio/funcube_telemetry_parser.py:41-46 | a satellite id has a known name exactly when it is in 0..3 |
| Funcube.FrameKindSchedule | src/gnu_radio/funcube_telemetry_parser.py:49-56 | the whole schedule slot by slot: types 1 to 12 are WO1 to WO12, 13, 17 and 21 are HR1 to HR3, the others up to 24 are FM1 to FM9 in order, and any other type (the `.get` default of lines 251-253) is ("UNKNOWN", "UNKNOWN") |
| Funcube.FrameKindHighRes | src/gnu_radio/funcube_telemetry_parser.py:53 | frame types 13, 17 and 21 are high-resolution frames HR1 to HR3 |
| Funcube.FrameKindFitter | src/gnu_radio/funcube_telemetry_parser.py:54-56 | the other types from 14 to 24 are fitter frames FM1 to FM9, in order |
| Funcube.SatIdOf | src/gnu_radio/funcube_telemetry_parser.py:247 | the satellite id of a header is in 0..3 |
| Funcube.FrameTypeOf | src/gnu_radio/funcube_telemetry_parser.py:248 | the frame type of a header is below 64 |
| Funcube.HeaderSplit | src/gnu_radio/funcube_telemetry_parser.py:246-248 | the header byte is 64 times its satellite id plus its frame type |
| Funcube.ParseFrame | src/gnu_radio/funcube_telemetry_parser.py:243-244 | a frame fails to parse exactly when it is not 256 bytes long |
| Funcube.ParseFrameParts | src/gnu_radio/funcube_telemetry_parser.py:246-258 | a parsed frame carries the header split, a known satellite name, the scheduled class and label, the real-time fields of bytes 1 to 55, and a 200-byte payload; together these rebuild the frame |
| Funcube.IsAo73Header | src/gnu_radio/funcube_telemetry_parser.py:154-156 | a frame is AO-73 exactly when its header byte is in 128..191, satellite id 0b10 |
| TleScan.CleanLines | src/pass_visibility.py:76 | the cleaned lines are non-empty, with no whitespace at either end, and no more numerous than the raw lines |
| TleScan.StartsFrom | src/pass_visibility.py:80-89 | each emitted block starts at a position where line 1 begins "1 " and line 2 begins "2 ", and successive blocks start at least 3 lines apart |
| TleScan.NoBlockMissed | src/pass_visibility.py:80-89 | every window holding a block is accepted unless its first line is line 1 or line 2 of a block accepted before it |
| TleScan.BlocksAtStarts | src/pass_visibility.py:80-89 | the emitted blocks are the 3-line blocks at those start positions |
| TleScan.BlocksInOrder | src/pass_visibility.py:80-91 | the blocks appear in file order, never share a line, each has the "1 " / "2 " line prefixes, and every block-shaped window not overlapping an emitted block is emitted |
| PassVisibility.NextPass | src/pass_visibility.py:61-67 | there is a next pass exactly when the pass list is non-empty, and it is the first pass |
| PassVisibility.ScanBlocks | src/pass_visibility.py:78-91 | the while loop over the index returns the block scan of the lines |
| PassVisibility.ReadTleFile | src/pass_visibility.py:70-91 | the reader returns the block scan of the cleaned lines |
| PassVisibility.RunEnd | src/pass_visibility.py:124-154 | a run from k extends over samples inside the window at or above the threshold, and stops at the first one that is not |
| PassVisibility.RunsFrom | src/pass_visibility.py:124-165 | the runs are well formed, maximal on the left, and strictly ordered without overlap |
| PassVisibility.PeakIsFirstMax | src/pass_visibility.py:136-138 | the peak sample has the run's maximum elevation, and every earlier sample of the run is strictly lower |
| PassVisibility.PassesFromRuns | src/pass_visibility.py:124-167 | the passes are exactly the intervals of the maximal runs, in order |
| PassVisibility.ComputePasses | src/pass_visibility.py:94-167 | the segmentation loop returns exactly the passes of the specification |
| PassVisibility.PassOfRun | src/pass_visibility.py:129-165 | a pass starts at its run's first sample and ends at the first sample below the threshold, or at the window end if it is still open; start <= peak <= end; its maximum is attained at the peak, bounds the run's samples, and is first attained there |
| PassVisibility.PassShape | src/pass_visibility.py:124-167 | the i-th pass is the interval of the i-th run, whose first sample follows a sample below the threshold or opens the window |
| PassVisibility.RunCovering | src/pass_visibility.py:124-154 | every in-window sample at or above the threshold lies in some run |
| PassVisibility.PassesChronological | src/pass_visibility.py:124-167 | each pass ends before the next one starts |
| PassVisibility.FuturePasses | src/pass_visibility.py:209 | a pass is kept exactly when its peak is not before now |
| PassVisibility.FuturePassesChronological | src/pass_visibility.py:209 | filtering keeps the passes in chronological order |
| PassVisibility.Summaries | src/pass_visibility.py:194-214 | the summaries have one key per satellite name in the file |
| PassVisibility.ComputePassVisibility | src/pass_visibility.py:170-214 | each block of the cleaned TLE file is summarised over the window from now - lookBack to now + window |
| PassVisibility.SummaryOfLastBlock | src/pass_visibility.py:196-214 | the last block of a name wins; its summary holds only passes peaking at or after now, in chronological order |
| Gs232Commands.FormatMove | src/gs232/commands.py:25-27 | a move command starts with W |
| Gs232Commands.FormatMoveLayout | src/gs232/commands.py:16-27 | for rounded angles in 0..999 the command is 8 characters: W, three digits giving the rounded azimuth, a space, three digits giving the rounded elevation |
| Gs232Commands.FormatMoveExample | src/gs232/commands.py:20-23 | 180.2, 45.7 formats as "W180 046" |
| Gs232Commands.ParseC2Reply | src/gs232/commands.py:40-41 | an empty reply gives None |
| Gs232Commands.SignedPair | src/gs232/commands.py:45-48 | a signed reply gives a pair exactly when both fixed-width slices parse as integers, and the pair is then those two integers as floats |
| Gs232Commands.WordsPair | src/gs232/commands.py:50-55 | an unsigned reply gives a pair exactly when it has two tokens and both parse as floats, and the pair is then their two values in order |
| Gs232Commands.ParseFloats | src/gs232/commands.py:53 | the list comprehension succeeds exactly when every token parses, and then holds each token's value at its position |
| Gs232Commands.ParseC2ReplyThreeDigitFields | src/gs232/commands.py:45-48 | a signed reply with sign and three digits per field gives the two signed values |
| Gs232Commands.ParseC2ReplyRejectsFourDigitFields | src/gs232/commands.py:45-48 | as written, no signed reply with four-digit fields parses |
| Gs232Commands.ParseC2ReplyDocExample | src/gs232/commands.py:34-48 | the documented "+0180+0090" gives None as written, and (180, 90) once corrected |
| Gs232Commands.ParseC2ReplyCorrected | src/gs232/commands.py:40-41 | an empty reply gives None |
| Gs232Commands.ParseC2ReplyCorrectedSigned | src/gs232/commands.py:45-48 | the corrected parser reads sign and four digits per field as the two signed values |
| Gs232Commands.SignedFieldsOfWidth | src/gs232/commands.py:45-48 | whatever the slice width, fields of exactly that width parse as their signed values |
| Gs232Commands.ParseC2AzEl | src/gs232/commands.py:50-55 | "AZ=a EL=e" with digit fields gives (a, e) |
| Gs232Commands.ParseC2Plain | src/gs232/commands.py:52-55 | "a e" with digit fields gives (a, e) |
| Gs232Commands.ParseC2NeedsTwoTokens | src/gs232/commands.py:52-58 | an unsigned reply whose token count is not two gives None |
| Calibration.Clamp | src/calibration_wizard.py:98-99 | the clamped value lies within the bounds, equals x inside them, and equals the nearer bound outside them |
| Calibration.SplitSeps | src/calibration_wizard.py:249 | the split always has at least one part, and no part contains a comma or whitespace |
| Calibration.SplitTwoFields | src/calibration_wizard.py:247-252 | a body of two separator-free fields split by a space yields those two fields |
| Calibration.ParseC2AzEl | src/calibration_wizard.py:85-102 | an empty reply or one the pattern does not match gives no position; a match gives azimuth in 0..450 and elevation in 0..180 |
| Calibration.ParseC2AzElMatch | src/calibration_wizard.py:92-100 | a reply parses exactly when the pattern matches, and then gives both matched groups, clamped |
| Calibration.ParseC2Echo | src/calibration_wizard.py:262 | the simulated C2 echo of any in-range position parses back to that position |
| Calibration.MoveTo | src/calibration_wizard.py:248-256 | a move to a target puts the position in range; a malformed body leaves the state unchanged; the last command is untouched |
| Calibration.Respond | src/calibration_wizard.py:241-269 | every command is recorded as the last command, and an in-range position stays in range |
| Calibration.SimResponse | src/calibration_wizard.py:236-269 | the stripped command is recorded, and an in-range position stays in range |
| Calibration.SimMove | src/calibration_wizard.py:245-257 | a W command gives no reply; with two integer fields it sets the clamped position, otherwise it leaves the position unchanged |
| Calibration.SimOther | src/calibration_wizard.py:259-269 | any other command leaves the position unchanged; C2 replies with the echo of the position, S and anything else with "" |
| Calibration.SimC2 | src/calibration_wizard.py:260-262 | C2 records itself and echoes the position |
| Calibration.SimStop | src/calibration_wizard.py:265-266 | S records itself, changes nothing else, and replies "" |
| Calibration.SimMoveCommand | src/calibration_wizard.py:304-307 | the move command of in-range angles moves the simulator exactly there and replies "" |
| Calibration.SendMoveEcho | src/calibration_wizard.py:299-310 | after a simulated move, the C2 echo parses back to the rounded, clamped angles |
| Calibration.SerialManager.constructor | src/calibration_wizard.py:123-149 | the manager simulates when asked to or when no port opened, starting at (0, 0) with no last command |
| Calibration.SerialManager.SimWriteCmd | src/calibration_wizard.py:236-269 | the simulated state and reply are those of the simulator's response to the command |
| Calibration.SerialManager.SimMoveTo | src/calibration_wizard.py:248-254 | the position becomes the move target of the line, clamped, or stays if the body is malformed |
| Calibration.SerialManager.WriteCmd | src/calibration_wizard.py:272-297 | in simulate mode the right-stripped command goes to the simulator; otherwise the state is untouched and the reply is the port's line only if one is expected |
| Calibration.SerialManager.SendMove | src/calibration_wizard.py:299-310 | the command is the 8-character move of the rounded, clamped angles; in simulate mode the position becomes those angles, and a C2 echo parses back to them |
| Calibration.SerialManager.Stop | src/calibration_wizard.py:312-314 | stop records S in simulate mode, changes nothing else, and replies "" |
| Calibration.SerialManager.C2 | src/calibration_wizard.py:316-318 | in simulate mode C2 echoes the unchanged position, and the echo parses back to it |
| SkyfieldPredictor.NormKey | src/skyfield_predictor.py:53-55 | a normalised key has no whitespace and no lower-case letter |
| SkyfieldPredictor.NormKeyMeaning | src/skyfield_predictor.py:53-55 | normalising removes the whitespace and upper-cases the rest |
| SkyfieldPredictor.NormKeyIdempotent | src/skyfield_predictor.py:53-55 | normalising twice is normalising once |
| SkyfieldPredictor.Get | src/skyfield_predictor.py:123-124 | a lookup returns a value stored under the key, or none when no entry has that key |
| SkyfieldPredictor.Put | src/skyfield_predictor.py:86 | after a store the key maps to the new value, every other key is unchanged, and nothing else is added |
| SkyfieldPredictor.IndexBy | src/skyfield_predictor.py:84-92 | the built index has distinct keys |
| SkyfieldPredictor.LastWith | src/skyfield_predictor.py:84-92 | the last satellite with a key is found, or none has it |
| SkyfieldPredictor.IndexLastWins | src/skyfield_predictor.py:84-92 | a key maps to the last satellite filed under it, and is absent when no satellite has it |
| SkyfieldPredictor.BuildIndex | src/skyfield_predictor.py:80-96 | the indexing loop builds the name and NORAD indexes of the file's satellites |
| SkyfieldPredictor.TleCache.constructor | src/skyfield_predictor.py:50 | the cache starts empty |
| SkyfieldPredictor.TleCache.LoadTleIndex | src/skyfield_predictor.py:66-96 | a path seen before returns its cached index and leaves the cache unchanged; a new path builds the index and stores it under the path |
| SkyfieldPredictor.TleCache.GetSatellite | src/skyfield_predictor.py:104-154 | the result is the resolution of the key against the path's cached index, loading it first if needed |
| SkyfieldPredictor.Filter | src/skyfield_predictor.py:134 | the matches are exactly the entries whose name fits the key, as prefix or substring |
| SkyfieldPredictor.NoradOnly | src/skyfield_predictor.py:119-125 | an all-digit key resolves through the NORAD index alone: success exactly on a hit, otherwise a NORAD-not-found error, whatever the names |
| SkyfieldPredictor.PaddedNoradMisses | src/skyfield_predictor.py:89 | an all-digit key with a leading zero is never found, since catalogue numbers are indexed without one |
| SkyfieldPredictor.ExactFirst | src/skyfield_predictor.py:128-130 | an exact normalised-name hit is returned before any prefix or substring search |
| SkyfieldPredictor.UniquePrefix | src/skyfield_predictor.py:133-136 | with prefix matching on, a unique prefix match is returned |
| SkyfieldPredictor.PrefixFallsThrough | src/skyfield_predictor.py:133-145 | when no name starts with the key, prefix matching changes nothing: the search falls through to substrings |
| SkyfieldPredictor.ResolveSound | src/skyfield_predictor.py:118-154 | every satellite returned is filed under the NORAD key, or under a name containing the normalised key |
| SkyfieldPredictor.NotFoundExactly | src/skyfield_predictor.py:144-154 | not-found is raised exactly when the key is not numeric and no name contains it |
| SkyfieldPredictor.NothingFits | src/skyfield_predictor.py:128-145 | when no name contains the key, there is no exact, prefix or substring match |
| SkyfieldPredictor.AmbiguousHasTwo | src/skyfield_predictor.py:137-153 | an ambiguity error names the key as given, counts at least two matches, and two distinct names do contain the key |
| SkyfieldPredictor.AmbiguousPrefix | src/skyfield_predictor.py:129-142 | with prefixes allowed and no exact hit, two different names starting with the key give an ambiguity error carrying the key and the number of such names |
| SkyfieldPredictor.AmbiguousSubstring | src/skyfield_predictor.py:129-153 | with no exact hit and no prefix step (prefixes off, or no name starting with the key), two different names containing the key give an ambiguity error carrying the key and the number of such names |
| SkyfieldPredictor.UniqueSubstring | src/skyfield_predictor.py:129-147 | with no exact hit and no prefix step (prefixes off, or no name starting with the key), a key contained in one name only resolves to that name's satellite |
| Tracking.NormName | src/main_gs232b.py:126-127 | a missing name is the empty key; a key never contains whitespace |
| Tracking.NormNameIsNormKey | src/main_gs232b.py:126-127 | the tracking loop's name key is the predictor's normalised key |
| Tracking.ScanLookup | src/main_gs232b.py:134-146 | the scan loop builds the lookup that files every block under both of its keys |
| Tracking.LoadTleLookup | src/main_gs232b.py:129-149 | the lookup is built from the blocks of the cleaned lines |
| Tracking.LastFiledUnder | src/main_gs232b.py:139-144 | the last block filed under a key is found, or none is |
| Tracking.LookupLastWins | src/main_gs232b.py:139-144 | a key is present exactly when some block is filed under it, and maps to the lines of the last such block |
| Tracking.UnwrapAz | src/main_gs232b.py:262-267 | without a previous azimuth the new one is kept; otherwise the result is the new azimuth or it ±360, no farther from the previous one than the others, the first one listed on a tie |
| Tracking.UnwrapWithinHalfTurn | src/main_gs232b.py:262-267 | the unwrapped azimuth is within 180 degrees of the previous one |
| Tracking.SlewBounded | src/main_gs232b.py:272-281 | a slew moves at most rate times max(dt, 0.001), toward the target without overshoot, and reaches it exactly when it is within that bound |
| Tracking.FrameDt | src/main_gs232b.py:369-375 | the slew time step lies in [0.05, 2.0]: the time since the last send when that is in range, 0.05 when it is shorter, 2.0 when it is longer, and 0.6 before the first send |
| Tracking.ClampReal | src/main_gs232b.py:380-381 | the commanded angle lies within the mount limits, is unchanged inside them, and is the lower or upper limit below or above them |
| Tracking.SendExactly | src/main_gs232b.py:353-398 | a frame sends exactly when the elevation is not negative and the command is outside the deadband and not rate limited; a sent command is within the limits and becomes the last command with the frame's time; a skip keeps them; a frame is held exactly when the elevation is negative, and a skipped frame reports the deadband whenever it applies, the rate limit only outside it |
| Tracking.BelowHorizonHolds | src/main_gs232b.py:353-354 | below the horizon the frame holds and changes nothing |
| Tracking.ZenithHoldsAzimuth | src/main_gs232b.py:366-367 | at or above 87 degrees the smoothed azimuth is held |
| Tracking.SlewPerFrame | src/main_gs232b.py:369-377 | per frame the smoothed azimuth moves at most 16 degrees and the elevation at most 12 |
| Tracking.Tracker.constructor | src/main_gs232b.py:256-258 | the tracker starts with nothing smoothed, no last command and no send time |
| Tracking.Tracker.Smooth | src/main_gs232b.py:356-377 | the smoothed values become the slewed ones and the last command is untouched |
| Tracking.Tracker.Animate | src/main_gs232b.py:352-398 | one frame updates the tracker and returns the decision of the frame specification, keeping the last command's halves set together and in range |
| Builtins.StripEnds | src/pass_visibility.py:76 | a stripped line has no whitespace at either end |
| Builtins.Upper | src/skyfield_predictor.py:55 | upper-casing maps every character and keeps the length |
| Builtins.UpperDropSpaces | src/main_gs232b.py:127 | upper-casing then removing whitespace equals removing whitespace then upper-casing, which is why the two name normalisations agree |
| Builtins.RoundHalfEven | src/gs232/commands.py:25-26 | the rounded integer is within one half of x, and an exact half rounds to the even integer |
| Builtins.FormatD03Digits | src/gs232/commands.py:27 | formatting n in 0..999 gives three digits whose value is n |
| Builtins.ParseIntOfSigned | src/gs232/commands.py:46-47 | a sign followed by digits parses to the signed value of the digits |
| Builtins.ParseFloatOfDigits | src/gs232/commands.py:53 | a string of digits parses as a float of its value |
| Builtins.DecimalValue | src/skyfield_predictor.py:89 | the decimal rendering of a number reads back as that number |
| Builtins.DecimalNoLeadingZero | src/skyfield_predictor.py:89 | the decimal rendering starts with 0 only for zero |

## Left out

- I/O: file reading, the serial port (`_open_any`, `_write_raw`, `_readline`, `close`, `ensure_open`), the retry and sleep loop of `write_cmd`, and every print. The hardware reply of `write_cmd` is a parameter `portLine`. A serial failure on every retry, which makes the source return "", is not modelled.
- The Skyfield propagator and `EarthSatellite` construction: the elevation track or the frame's azimuth and elevation are inputs.
- GNU Radio and PMT plumbing around `handle_msg`, and the matplotlib drawing and serial log of `animate`.
- Funcube.ParseRtTelemetry: returns the raw value of the seven fields that the source multiplies by a floating-point scale factor, because the scaled values are floats.
- Funcube.ParseRtTelemetry: the bit-length check after the expansion is not modelled as an error, because 55 bytes always expand to 440 bits (`Funcube.BytesToBitsMsbFirst`).
- Funcube.TakeBits: requires the bits to be present. The source would raise IndexError, but `parse_rt_telemetry` never calls it that way (`Funcube.RtLayoutWidth`).
- Datetimes are integer seconds in the pass predictor. The step must be positive; the source loops forever on a non-positive step. Timezone handling is not modelled.
- The redundant `pass_start is not None` and `pass_peak is not None` tests of the segmentation loop: they hold whenever a pass is open.
- Calibration.ParseC2AzEl: models the C2 pattern itself (case-insensitive letter pairs, optional spaces, `:` or `=`, optional sign, at most 4 and 3 digits, a non-digit gap), not a general regular-expression engine. Digits are ASCII; `\s` is Python's `str.isspace` set.
- `str.isdigit` and `upper` are modelled over ASCII; Unicode digits and case mappings are not. `strip` and `split` use Python's full whitespace set.
- Floats are reals: `round`, `_quantize`, the slew arithmetic and `float()` are exact. The hard decision `soft >= 0.0` on float32 sends NaN to 0; reals have no NaN, so that case is not modelled.
- Builtins.ParseFloat: refuses (None) `inf`, `nan`, `infinity` and `_` digit grouping, all of which Python's `float()` accepts; a reply such as `1_80 90` therefore parses in the source but gives None in the model. Only decimal notation (whitespace, sign, digits, fraction, exponent) is modelled.
- SkyfieldPredictor.AmbiguousHasTwo: the ambiguity message's list of up to eight example names is not modelled; the error carries the key and the match count.
- `list_satellites`, and keys given as integers (`str(key)`): keys are strings.
- The `try/except` around NORAD indexing: the catalogue number of a parsed satellite is always an integer, so it never fires.
- The `_sat_cache` of `animate` and the `send_move` call it makes: the frame returns the decision, and `Calibration.SerialManager.SendMove` models the call.
- Tracking.Animate: the `USE_AZ_UNWRAP` switch is fixed on, as in the source.

## Findings

| source | as written | input that shows it | evidently intended | confidence | as-written member | corrected member |
|---|---|---|---|---|---|---|
| src/gs232/commands.py:45-48 | a signed reply is read from characters 0 to 3 and 4 to 7 | "+0180+0090", the documented example: the second slice is "0+00", which `int()` refuses, so the reply gives None | sign and four digits per field, characters 0 to 4 and 5 to 9, giving (180.0, 90.0) | high, not executed | Gs232Commands.ParseC2ReplyRejectsFourDigitFields | Gs232Commands.ParseC2ReplyCorrectedSigned |
| src/gnu_radio/hard_viterbi_block.py:95-97 | the branch metric adds the two numpy booleans `r0 != e0` and `r1 != e1`, which numpy evaluates as a logical or, so an edge costs 1 whether one or both symbols are wrong | received symbols 1 0 0 1 on the CCSDS code: every 2-bit path costs 1, state 0 wins the argmin and the decoder returns 0 0, whose encoding 0 1 0 1 is at Hamming distance 2, while 1 0 encodes to 1 0 1 1 at distance 1 | the integer sum of the two mismatches, the Hamming distance named in the comment, which makes the decoder maximum-likelihood | high, not executed | Viterbi.DeployedDecoderNotNearest | Viterbi.HammingDecoderIsNearest |
