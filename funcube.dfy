/**
 * FUNcube-1 (AO-73) downlink frames: the MSB-first expansion of bytes into
 * bits, big-endian bit-field extraction, the 440-bit real-time telemetry
 * layout and its walk, and the split of a 256-byte frame into header,
 * real-time block and payload.
 *
 * `BytesToBitsMsbFirst`, `TakeBits` and `ParseRtTelemetry` are the loops of
 * the parser, each proved against a specification function (`MsbBits`,
 * `BitsValue`, `RtFields`); `ParseFrame` uses those functions directly.
 */
module Funcube {
  import opened Wrappers
  import opened Builtins

  const FrameLen: nat := 256
  const RtLenBytes: nat := 55
  const RtLenBits: nat := 440

  type Byte = x: int | 0 <= x < 256
  type Bit = b: int | 0 <= b <= 1

  function Pow2(k: nat): (p: nat)
    ensures p >= 1
  {
    if k == 0 then 1 else 2 * Pow2(k - 1)
  }

  // ---------------------------------------------------------------------
  // Bits of a byte
  // ---------------------------------------------------------------------

  /** Bit k of a non-negative x: shift right k times, keep the low bit. */
  function BitAt(x: nat, k: nat): Bit {
    if k == 0 then x % 2 else BitAt(x / 2, k - 1)
  }

  /** The low `n` bits of x, most significant first. */
  function BitsOf(x: nat, n: nat): (bits: seq<Bit>)
    ensures |bits| == n
  {
    if n == 0 then [] else BitsOf(x / 2, n - 1) + [x % 2]
  }

  /** The eight bits of a byte, most significant first. */
  function ByteBits(b: Byte): (bits: seq<Bit>)
    ensures |bits| == 8
  {
    BitsOf(b, 8)
  }

  /** MSB-first value of a bit string. */
  function BitsValue(bits: seq<Bit>): (v: nat)
    ensures v < Pow2(|bits|)
  {
    if bits == [] then 0 else 2 * BitsValue(bits[..|bits| - 1]) + bits[|bits| - 1]
  }

  /** Element j of `BitsOf(x, n)` is bit n - 1 - j of x. */
  lemma {:induction false} BitsOfIndex(x: nat, n: nat, j: nat)
    requires j < n
    ensures BitsOf(x, n)[j] == BitAt(x, n - 1 - j)
  {
    if j < n - 1 {
      BitsOfIndex(x / 2, n - 1, j);
    }
  }

  /** Reading back the low n bits of a value below 2^n gives the value. */
  lemma {:induction false} BitsOfValue(x: nat, n: nat)
    requires x < Pow2(n)
    ensures BitsValue(BitsOf(x, n)) == x
  {
    if n > 0 {
      BitsOfValue(x / 2, n - 1);
      var bits := BitsOf(x, n);
      assert bits[..|bits| - 1] == BitsOf(x / 2, n - 1);
    }
  }

  lemma ByteBitsValue(b: Byte)
    ensures BitsValue(ByteBits(b)) == b
  {
    assert Pow2(8) == 256;
    BitsOfValue(b, 8);
  }

  // ---------------------------------------------------------------------
  // bytes_to_bits_msb_first
  // ---------------------------------------------------------------------

  /** All the bytes' bits, byte by byte, most significant bit first. */
  function MsbBits(data: seq<Byte>): (bits: seq<Bit>)
    ensures |bits| == 8 * |data|
  {
    if data == [] then [] else MsbBits(data[..|data| - 1]) + ByteBits(data[|data| - 1])
  }

  /** The eight bits from 8i on are the bits of byte i. */
  lemma {:induction false} MsbBitsSlice(data: seq<Byte>, i: nat)
    requires i < |data|
    ensures MsbBits(data)[8 * i..8 * i + 8] == ByteBits(data[i])
  {
    var n := |data| - 1;
    var front := MsbBits(data[..n]);
    assert MsbBits(data) == front + ByteBits(data[n]);
    if i < n {
      MsbBitsSlice(data[..n], i);
      assert MsbBits(data)[8 * i..8 * i + 8] == front[8 * i..8 * i + 8];
    } else {
      assert MsbBits(data)[8 * i..8 * i + 8] == ByteBits(data[n]);
    }
  }

  /** Bit j of byte i sits at index 8i + j. */
  lemma MsbBitsIndex(data: seq<Byte>, i: nat, j: nat)
    requires i < |data| && j < 8
    ensures MsbBits(data)[8 * i + j] == BitAt(data[i], 7 - j)
  {
    MsbBitsSlice(data, i);
    assert MsbBits(data)[8 * i + j] == MsbBits(data)[8 * i..8 * i + 8][j];
    BitsOfIndex(data[i], 8, j);
  }

  method BytesToBitsMsbFirst(data: seq<Byte>) returns (bits: seq<Bit>)
    ensures bits == MsbBits(data)
  {
    bits := [];
    for k := 0 to |data|
      invariant bits == MsbBits(data[..k])
    {
      var byte := data[k];
      for i := 0 to 8
        invariant bits == MsbBits(data[..k]) + ByteBits(byte)[..i]
      {
        BitsOfIndex(byte, 8, i);
        assert ByteBits(byte)[..i + 1] == ByteBits(byte)[..i] + [BitAt(byte, 7 - i)];
        bits := bits + [BitAt(byte, 7 - i)];
      }
      assert ByteBits(byte)[..8] == ByteBits(byte);
      assert data[..k + 1][..k] == data[..k];
    }
    assert data[..|data|] == data;
  }

  // ---------------------------------------------------------------------
  // take_bits
  // ---------------------------------------------------------------------

  /** `nbits` bits from `pos` on, as an MSB-first value, and the position after them. */
  method TakeBits(bits: seq<Bit>, nbits: nat, pos: nat) returns (value: nat, newPos: nat)
    requires pos + nbits <= |bits|
    ensures value == BitsValue(bits[pos..pos + nbits]) && value < Pow2(nbits)
    ensures newPos == pos + nbits
  {
    value := 0;
    newPos := pos;
    for n := 0 to nbits
      invariant newPos == pos + n
      invariant value == BitsValue(bits[pos..pos + n])
    {
      assert bits[pos..pos + n + 1][..n] == bits[pos..pos + n];
      value := 2 * value + bits[newPos];
      newPos := newPos + 1;
    }
  }

  /** Eight bits at a byte boundary read back as that byte. */
  lemma TakeByteRoundTrip(data: seq<Byte>, i: nat)
    requires i < |data|
    ensures 8 * i + 8 <= |MsbBits(data)|
    ensures BitsValue(MsbBits(data)[8 * i..8 * i + 8]) == data[i]
  {
    MsbBitsSlice(data, i);
    ByteBitsValue(data[i]);
  }

  // ---------------------------------------------------------------------
  // The real-time telemetry layout
  // ---------------------------------------------------------------------

  /** A layout entry: field name and width in bits. */
  datatype Entry = Entry(name: string, width: nat)

  /** EPS section. */
  const EpsSection: seq<Entry> := [
    Entry("eps_photo_v1", 16), Entry("eps_photo_v2", 16), Entry("eps_photo_v3", 16),
    Entry("eps_total_photo_current", 16), Entry("eps_battery_voltage", 16), Entry("eps_total_system_current", 16),
    Entry("eps_reboot_count", 16), Entry("eps_software_errors", 16), Entry("eps_boost_temp_1", 8),
    Entry("eps_boost_temp_2", 8), Entry("eps_boost_temp_3", 8), Entry("eps_battery_temp", 8),
    Entry("eps_latchup_5v1", 8), Entry("eps_latchup_3v3_1", 8), Entry("eps_reset_cause", 8),
    Entry("eps_ppt_mode", 8)]

  /** BOB section. */
  const BobSection: seq<Entry> := [
    Entry("bob_sun_sensor_xp", 10), Entry("bob_sun_sensor_yp", 10), Entry("bob_sun_sensor_zp", 10),
    Entry("bob_panel_temp_xp", 10), Entry("bob_panel_temp_xm", 10), Entry("bob_panel_temp_yp", 10),
    Entry("bob_panel_temp_ym", 10), Entry("bob_bus_3v3_voltage", 10), Entry("bob_bus_3v3_current", 10),
    Entry("bob_bus_5v_voltage", 10)]

  /** RF section. */
  const RfSection: seq<Entry> := [
    Entry("rf_rx_doppler", 8), Entry("rf_rx_rssi", 8), Entry("rf_temperature", 8),
    Entry("rf_rx_current", 8), Entry("rf_tx_current_3v3", 8), Entry("rf_tx_current_5v", 8)]

  /** PA section. */
  const PaSection: seq<Entry> := [
    Entry("pa_reverse_power", 8), Entry("pa_forward_power", 8), Entry("pa_board_temp", 8),
    Entry("pa_board_current", 8)]

  /** ANTS section. */
  const AntsSection: seq<Entry> := [
    Entry("ants_temp_0", 8), Entry("ants_temp_1", 8), Entry("ants_deploy_0", 1),
    Entry("ants_deploy_1", 1), Entry("ants_deploy_2", 1), Entry("ants_deploy_3", 1)]

  /** Software section. */
  const SwSection: seq<Entry> := [
    Entry("sw_sequence_number", 24), Entry("sw_dtmf_cmd_count", 6), Entry("sw_dtmf_last_cmd", 5),
    Entry("sw_dtmf_success", 1), Entry("sw_data_valid_asib", 1), Entry("sw_data_valid_eps", 1),
    Entry("sw_data_valid_pa", 1), Entry("sw_data_valid_rf", 1), Entry("sw_data_valid_mse", 1),
    Entry("sw_data_valid_ants_b", 1), Entry("sw_data_valid_ants_a", 1), Entry("sw_in_eclipse_mode", 1),
    Entry("sw_in_safe_mode", 1), Entry("sw_hardware_abf", 1), Entry("sw_software_abf", 1),
    Entry("sw_deploy_wait_next_boot", 1)]

  /** The 440-bit real-time block: field names and widths in bits, in order. */
  const RtLayout: seq<Entry> :=
    EpsSection + BobSection + RfSection + PaSection + AntsSection + SwSection

  /** Bits taken by the first k entries: the position where entry k starts. */
  function Offset(layout: seq<Entry>, k: nat): nat
    requires k <= |layout|
  {
    if k == 0 then 0 else Offset(layout, k - 1) + layout[k - 1].width
  }

  /** Total width of a layout. */
  function Width(layout: seq<Entry>): nat {
    Offset(layout, |layout|)
  }

  /** Later entries start no earlier. */
  lemma {:induction false} OffsetMono(layout: seq<Entry>, j: nat, k: nat)
    requires j <= k <= |layout|
    ensures Offset(layout, j) <= Offset(layout, k)
    decreases k - j
  {
    if j < k {
      OffsetMono(layout, j, k - 1);
    }
  }

  /** Up to the end of `a`, a + b starts its entries where a does. */
  lemma {:induction false} OffsetOfPrefix(a: seq<Entry>, b: seq<Entry>, j: nat)
    requires j <= |a|
    ensures Offset(a + b, j) == Offset(a, j)
  {
    if j > 0 {
      OffsetOfPrefix(a, b, j - 1);
      assert (a + b)[j - 1] == a[j - 1];
    }
  }

  /** Past the end of `a`, the entries of b start Width(a) later than in b. */
  lemma {:induction false} OffsetOfSuffix(a: seq<Entry>, b: seq<Entry>, k: nat)
    requires k <= |b|
    ensures Offset(a + b, |a| + k) == Width(a) + Offset(b, k)
  {
    if k == 0 {
      OffsetOfPrefix(a, b, |a|);
    } else {
      OffsetOfSuffix(a, b, k - 1);
      assert (a + b)[|a| + k - 1] == b[k - 1];
    }
  }

  lemma WidthConcat(a: seq<Entry>, b: seq<Entry>)
    ensures Width(a + b) == Width(a) + Width(b)
  {
    OffsetOfSuffix(a, b, |b|);
  }

  lemma EpsFirstHalf()
    ensures Offset(EpsSection, 8) == 128
  {
    assert Offset(EpsSection, 1) == 16;
    assert Offset(EpsSection, 2) == 32;
    assert Offset(EpsSection, 3) == 48;
    assert Offset(EpsSection, 4) == 64;
    assert Offset(EpsSection, 5) == 80;
    assert Offset(EpsSection, 6) == 96;
    assert Offset(EpsSection, 7) == 112;
  }

  lemma EpsSectionWidth()
    ensures Width(EpsSection) == 192
  {
    EpsFirstHalf();
    assert Offset(EpsSection, 9) == 136;
    assert Offset(EpsSection, 10) == 144;
    assert Offset(EpsSection, 11) == 152;
    assert Offset(EpsSection, 12) == 160;
    assert Offset(EpsSection, 13) == 168;
    assert Offset(EpsSection, 14) == 176;
    assert Offset(EpsSection, 15) == 184;
    assert Offset(EpsSection, 16) == 192;
  }

  lemma BobSectionWidth()
    ensures Width(BobSection) == 100
  {
    assert Offset(BobSection, 1) == 10;
    assert Offset(BobSection, 2) == 20;
    assert Offset(BobSection, 3) == 30;
    assert Offset(BobSection, 4) == 40;
    assert Offset(BobSection, 5) == 50;
    assert Offset(BobSection, 6) == 60;
    assert Offset(BobSection, 7) == 70;
    assert Offset(BobSection, 8) == 80;
    assert Offset(BobSection, 9) == 90;
    assert Offset(BobSection, 10) == 100;
  }

  lemma RfSectionWidth()
    ensures Width(RfSection) == 48
  {
    assert Offset(RfSection, 1) == 8;
    assert Offset(RfSection, 2) == 16;
    assert Offset(RfSection, 3) == 24;
    assert Offset(RfSection, 4) == 32;
    assert Offset(RfSection, 5) == 40;
    assert Offset(RfSection, 6) == 48;
  }

  lemma PaSectionWidth()
    ensures Width(PaSection) == 32
  {
    assert Offset(PaSection, 1) == 8;
    assert Offset(PaSection, 2) == 16;
    assert Offset(PaSection, 3) == 24;
    assert Offset(PaSection, 4) == 32;
  }

  lemma AntsSectionWidth()
    ensures Width(AntsSection) == 20
  {
    assert Offset(AntsSection, 1) == 8;
    assert Offset(AntsSection, 2) == 16;
    assert Offset(AntsSection, 3) == 17;
    assert Offset(AntsSection, 4) == 18;
    assert Offset(AntsSection, 5) == 19;
    assert Offset(AntsSection, 6) == 20;
  }

  lemma SwSectionWidth()
    ensures Width(SwSection) == 48
  {
    assert Offset(SwSection, 1) == 24;
    assert Offset(SwSection, 2) == 30;
    assert Offset(SwSection, 3) == 35;
    assert Offset(SwSection, 4) == 36;
    assert Offset(SwSection, 5) == 37;
    assert Offset(SwSection, 6) == 38;
    assert Offset(SwSection, 7) == 39;
    assert Offset(SwSection, 8) == 40;
    assert Offset(SwSection, 9) == 41;
    assert Offset(SwSection, 10) == 42;
    assert Offset(SwSection, 11) == 43;
    assert Offset(SwSection, 12) == 44;
    assert Offset(SwSection, 13) == 45;
    assert Offset(SwSection, 14) == 46;
    assert Offset(SwSection, 15) == 47;
    assert Offset(SwSection, 16) == 48;
  }

  /** The layout fills the 55-byte block: its widths add up to 440. */
  lemma RtLayoutWidth()
    ensures Width(RtLayout) == RtLenBits
  {
    EpsSectionWidth();
    BobSectionWidth();
    RfSectionWidth();
    PaSectionWidth();
    AntsSectionWidth();
    SwSectionWidth();
    WidthConcat(EpsSection, BobSection);
    WidthConcat(EpsSection + BobSection, RfSection);
    WidthConcat(EpsSection + BobSection + RfSection, PaSection);
    WidthConcat(EpsSection + BobSection + RfSection + PaSection, AntsSection);
    WidthConcat(EpsSection + BobSection + RfSection + PaSection + AntsSection, SwSection);
  }

  // ---------------------------------------------------------------------
  // parse_rt_telemetry
  // ---------------------------------------------------------------------

  /** One parsed field: its name and its unscaled value. */
  datatype Field = Field(name: string, value: nat)

  /** Field i of the walk: as many bits as its width, from where the previous fields end. */
  function FieldAt(bits: seq<Bit>, layout: seq<Entry>, i: nat): Field
    requires i < |layout| && Width(layout) <= |bits|
  {
    OffsetMono(layout, i + 1, |layout|);
    var off := Offset(layout, i);
    Field(layout[i].name, BitsValue(bits[off..off + layout[i].width]))
  }

  /** The walk over a whole layout, one field per entry, in layout order. */
  function Walk(bits: seq<Bit>, layout: seq<Entry>): (fields: seq<Field>)
    requires Width(layout) <= |bits|
    ensures |fields| == |layout|
  {
    seq(|layout|, i requires 0 <= i < |layout| => FieldAt(bits, layout, i))
  }

  /** The real-time block's fields. */
  function RtFields(rt: seq<Byte>): (fields: seq<Field>)
    requires |rt| == RtLenBytes
    ensures |fields| == |RtLayout|
  {
    RtLayoutWidth();
    Walk(MsbBits(rt), RtLayout)
  }

  datatype RtError = IncorrectRtLength

  /** The parsed block as the list of its fields, in insertion order. */
  method ParseRtTelemetry(rt: seq<Byte>) returns (r: Result<seq<Field>, RtError>)
    ensures r.Err? <==> |rt| != RtLenBytes
    ensures r.Ok? ==> r.value == RtFields(rt)
  {
    if |rt| != RtLenBytes {
      return Err(IncorrectRtLength);
    }
    var bits := BytesToBitsMsbFirst(rt);
    RtLayoutWidth();
    var parsed := WalkLayout(bits, RtLayout);
    return Ok(parsed);
  }

  /** The field loop: each entry in turn takes its width of bits from where
      the previous one stopped. */
  method WalkLayout(bits: seq<Bit>, layout: seq<Entry>) returns (parsed: seq<Field>)
    requires Width(layout) <= |bits|
    ensures parsed == Walk(bits, layout)
  {
    var pos := 0;
    parsed := [];
    for k := 0 to |layout|
      invariant pos == Offset(layout, k)
      invariant |parsed| == k
      invariant forall i :: 0 <= i < k ==> parsed[i] == FieldAt(bits, layout, i)
    {
      var entry := layout[k];
      OffsetMono(layout, k + 1, |layout|);
      var value;
      value, pos := TakeBits(bits, entry.width, pos);
      parsed := parsed + [Field(entry.name, value)];
    }
  }

  /** Field i is the bits right after fields 0..i-1, as many as its width;
      its value fits that width, and the walk ends where the layout does. */
  lemma WalkField(bits: seq<Bit>, layout: seq<Entry>, i: nat)
    requires Width(layout) <= |bits| && i < |layout|
    ensures var off := Offset(layout, i);
      && off + layout[i].width == Offset(layout, i + 1) <= Width(layout)
      && Walk(bits, layout)[i] == Field(layout[i].name, BitsValue(bits[off..off + layout[i].width]))
      && Walk(bits, layout)[i].value < Pow2(layout[i].width)
  {
    OffsetMono(layout, i + 1, |layout|);
  }

  /** Each field of the real-time block is named after its entry, lies right
      after the previous one and is below 2^width. */
  lemma RtFieldBound(rt: seq<Byte>, i: nat)
    requires |rt| == RtLenBytes && i < |RtLayout|
    ensures Offset(RtLayout, i) + RtLayout[i].width <= RtLenBits
    ensures RtFields(rt)[i].name == RtLayout[i].name
    ensures RtFields(rt)[i].value < Pow2(RtLayout[i].width)
  {
    RtLayoutWidth();
    WalkField(MsbBits(rt), RtLayout, i);
  }

  // ---------------------------------------------------------------------
  // Satellite id and frame type
  // ---------------------------------------------------------------------

  /** SAT_ID_MAP.get(id, "Unknown Satellite"). */
  function SatName(satId: int): string {
    if satId == 0 then "FUNcube-1 Engineering Model"
    else if satId == 1 then "FUNcube-2 / UKube-1"
    else if satId == 2 then "FUNcube-1 Flight Model (AO-73)"
    else if satId == 3 then "Extended protocol"
    else "Unknown Satellite"
  }

  lemma SatNameKnown(satId: int)
    ensures SatName(satId) != "Unknown Satellite" <==> 0 <= satId < 4
  {
    if 0 <= satId < 4 {
      assert SatName(satId)[0] == 'F' || SatName(satId)[0] == 'E';
    }
  }

  /** FRAME_TYPE_SCHEDULE.get(t, ("UNKNOWN", "UNKNOWN")): the published frame
      schedule, whole-orbit frames 1..12, high-resolution frames 13, 17 and 21
      and fitter messages in the slots between, up to 24. */
  function FrameKind(t: int): (string, string) {
    if 1 <= t <= 12 then ("WO", "WO" + Decimal(t))
    else if t == 13 then ("HR", "HR1")
    else if t == 17 then ("HR", "HR2")
    else if t == 21 then ("HR", "HR3")
    else if t == 14 then ("FM", "FM1")
    else if t == 15 then ("FM", "FM2")
    else if t == 16 then ("FM", "FM3")
    else if t == 18 then ("FM", "FM4")
    else if t == 19 then ("FM", "FM5")
    else if t == 20 then ("FM", "FM6")
    else if t == 22 then ("FM", "FM7")
    else if t == 23 then ("FM", "FM8")
    else if t == 24 then ("FM", "FM9")
    else ("UNKNOWN", "UNKNOWN")
  }

  /** The whole schedule, slot by slot: types 1..12 are whole-orbit frames
      labelled with their number, 13, 17 and 21 the three high-resolution
      frames, the other types up to 24 the nine fitter messages in order,
      and every other type is unknown. */
  lemma FrameKindSchedule(t: int)
    ensures 1 <= t <= 12 ==> FrameKind(t) == ("WO", "WO" + Decimal(t))
    ensures t == 13 || t == 17 || t == 21 ==>
      FrameKind(t) == ("HR", "HR" + Decimal((t - 13) / 4 + 1))
    ensures 14 <= t <= 24 && t != 17 && t != 21 ==>
      FrameKind(t) == ("FM", "FM" + Decimal(t - 13 - (t - 13) / 4))
    ensures !(1 <= t <= 24) ==> FrameKind(t) == ("UNKNOWN", "UNKNOWN")
  {
    if t == 13 || t == 17 || t == 21 {
      FrameKindHighRes(t);
    } else if 14 <= t <= 24 {
      FrameKindFitter(t);
    }
  }

  /** The three high-resolution slots. */
  lemma FrameKindHighRes(t: int)
    requires t == 13 || t == 17 || t == 21
    ensures FrameKind(t) == ("HR", "HR" + Decimal((t - 13) / 4 + 1))
  {
    if t == 13 {
      assert "HR" + Decimal(1) == "HR1";
    } else if t == 17 {
      assert "HR" + Decimal(2) == "HR2";
    } else if t == 21 {
      assert "HR" + Decimal(3) == "HR3";
    }
  }

  /** The nine fitter-message slots: three after each high-resolution slot. */
  lemma FrameKindFitter(t: int)
    requires 14 <= t <= 24 && t != 17 && t != 21
    ensures FrameKind(t) == ("FM", "FM" + Decimal(t - 13 - (t - 13) / 4))
  {
    if t < 17 {
      FittersAfter13(t);
    } else if t < 21 {
      FittersAfter17(t);
    } else {
      FittersAfter21(t);
    }
  }

  lemma FittersAfter13(t: int)
    requires 13 < t <= 16
    ensures FrameKind(t) == ("FM", "FM" + Decimal(t - 13 - (t - 13) / 4))
  {
    if t == 14 {
      assert "FM" + Decimal(1) == "FM1";
    } else if t == 15 {
      assert "FM" + Decimal(2) == "FM2";
    } else if t == 16 {
      assert "FM" + Decimal(3) == "FM3";
    }
  }

  lemma FittersAfter17(t: int)
    requires 17 < t <= 20
    ensures FrameKind(t) == ("FM", "FM" + Decimal(t - 13 - (t - 13) / 4))
  {
    if t == 18 {
      assert "FM" + Decimal(4) == "FM4";
    } else if t == 19 {
      assert "FM" + Decimal(5) == "FM5";
    } else if t == 20 {
      assert "FM" + Decimal(6) == "FM6";
    }
  }

  lemma FittersAfter21(t: int)
    requires 21 < t <= 24
    ensures FrameKind(t) == ("FM", "FM" + Decimal(t - 13 - (t - 13) / 4))
  {
    if t == 22 {
      assert "FM" + Decimal(7) == "FM7";
    } else if t == 23 {
      assert "FM" + Decimal(8) == "FM8";
    } else if t == 24 {
      assert "FM" + Decimal(9) == "FM9";
    }
  }

  // ---------------------------------------------------------------------
  // parse_frame
  // ---------------------------------------------------------------------

  datatype Frame = Frame(
    satId: nat, satName: string, frameTypeValue: nat,
    frameClass: string, frameLabel: string,
    rt: seq<Field>, payload: seq<Byte>)

  datatype FrameError = FrameSizeIncorrect

  /** The satellite id: the top two bits of the header byte. */
  function SatIdOf(header: Byte): (id: nat)
    ensures id < 4
  {
    (header / 64) % 4
  }

  /** `header & 0x3F`. */
  function FrameTypeOf(header: Byte): (t: nat)
    ensures t < 64
  {
    header % 64
  }

  /** The two header fields are the byte's top two and low six bits. */
  lemma HeaderSplit(header: Byte)
    ensures header == 64 * SatIdOf(header) + FrameTypeOf(header)
  {
  }

  function ParseFrame(frame: seq<Byte>): (r: Result<Frame, FrameError>)
    ensures r.Err? <==> |frame| != FrameLen
  {
    if |frame| != FrameLen then Err(FrameSizeIncorrect)
    else
      var header := frame[0];
      var satId := SatIdOf(header);
      var frameType := FrameTypeOf(header);
      var (frameClass, frameLabel) := FrameKind(frameType);
      Ok(Frame(satId, SatName(satId), frameType, frameClass, frameLabel,
               RtFields(frame[1..1 + RtLenBytes]), frame[1 + RtLenBytes..]))
  }

  /** The parts of a parsed frame: the header split into id and type, the
      real-time block from bytes 1..55 and the 200-byte payload after it. */
  lemma ParseFrameParts(frame: seq<Byte>)
    requires |frame| == FrameLen
    ensures var f := ParseFrame(frame).value;
      && frame[0] == 64 * f.satId + f.frameTypeValue
      && f.satName == SatName(f.satId) && f.satName != "Unknown Satellite"
      && (f.frameClass, f.frameLabel) == FrameKind(f.frameTypeValue)
      && f.rt == RtFields(frame[1..56])
      && |f.payload| == 200 && frame == [frame[0]] + frame[1..56] + f.payload
  {
    HeaderSplit(frame[0]);
    SatNameKnown(SatIdOf(frame[0]));
    assert frame == [frame[0]] + frame[1..56] + frame[56..];
  }

  /** `is_ao73`: the frame comes from the flight model. */
  predicate IsAo73(f: Frame) {
    f.satId == 2
  }

  /** A parsed frame is from AO-73 exactly when its header byte is 0b10xxxxxx. */
  lemma IsAo73Header(frame: seq<Byte>)
    requires |frame| == FrameLen
    ensures IsAo73(ParseFrame(frame).value) <==> 128 <= frame[0] < 192
  {
  }
}
