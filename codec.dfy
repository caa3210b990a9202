/**
 * The Felicita frame codec: the pure helpers of pkg/felicita/felicita.go that
 * turn an 18-byte notification frame into a reading, and the single-byte
 * command opcodes.
 */
module Codec {
  import opened Wrappers
  import opened ScaleTypes

  newtype byte = x: int | 0 <= x < 256

  const FrameLength := 18

  /** Byte 14 holds this value exactly when the buzzer sounds on touch. */
  const BuzzerOnSentinel: byte := 0x22

  /** Calibration of the raw battery byte. */
  const MinBatteryLevel := 129
  const MaxBatteryLevel := 158

  /** Command opcodes, each written as a one-byte payload. */
  const CmdStartTimer: byte := 0x52
  const CmdStopTimer: byte := 0x53
  const CmdResetTimer: byte := 0x43
  const CmdToggleBuzzer: byte := 0x42
  const CmdTogglePrecision: byte := 0x44
  const CmdTare: byte := 0x54
  const CmdToggleUnit: byte := 0x55

  /** The opcodes are pairwise distinct. */
  lemma OpcodesDistinct()
    ensures |{CmdStartTimer, CmdStopTimer, CmdResetTimer, CmdToggleBuzzer,
              CmdTogglePrecision, CmdTare, CmdToggleUnit}| == 7
  {
  }

  // ---------------------------------------------------------------- ASCII

  const AsciiZero: byte := 0x30
  const AsciiPlus: byte := 0x2B
  const AsciiMinus: byte := 0x2D
  const AsciiSpace: byte := 0x20
  const AsciiLowerG: byte := 0x67
  const AsciiLowerO: byte := 0x6F
  const AsciiLowerZ: byte := 0x7A

  /** ASCII lower-casing of one byte; other bytes are left as they are. */
  function Lower(b: byte): byte {
    if 0x41 <= b <= 0x5A then b + 0x20 else b
  }

  function LowerAll(s: seq<byte>): (r: seq<byte>)
    ensures |r| == |s| && forall i :: 0 <= i < |s| ==> r[i] == Lower(s[i])
  {
    seq(|s|, i requires 0 <= i < |s| => Lower(s[i]))
  }

  /** Substring search, as strings.Contains. */
  predicate Contains(s: seq<byte>, pattern: seq<byte>)
    decreases |s|
  {
    |pattern| <= |s| && (s[..|pattern|] == pattern || Contains(s[1..], pattern))
  }

  /** On a two-byte string, substring search reduces to comparing positions. */
  lemma ContainsInPair(s: seq<byte>, c: byte, d: byte)
    requires |s| == 2
    ensures Contains(s, [c]) <==> s[0] == c || s[1] == c
    ensures Contains(s, [c, d]) <==> s == [c, d]
  {
    assert s[1..][1..] == [];
    assert !Contains([], [c]);
  }

  // ---------------------------------------------------------------- unit

  /**
   * parseUnit: anything but a two-byte hint is Unknown; otherwise, lower-cased,
   * a "g" anywhere gives grams (tested first), then "oz" gives ounces.
   */
  function ParseUnit(data: seq<byte>): (u: Unit)
    ensures IsNamedUnit(u)
    ensures |data| != 2 ==> u == UnitUnknown
    ensures |data| == 2 ==>
      (u == UnitGrams <==> Lower(data[0]) == AsciiLowerG || Lower(data[1]) == AsciiLowerG)
    ensures |data| == 2 ==>
      (u == UnitOz <==> Lower(data[0]) == AsciiLowerO && Lower(data[1]) == AsciiLowerZ)
  {
    if |data| != 2 then UnitUnknown
    else
      var lowered := LowerAll(data);
      ContainsInPair(lowered, AsciiLowerG, AsciiLowerZ);
      ContainsInPair(lowered, AsciiLowerO, AsciiLowerZ);
      if Contains(lowered, [AsciiLowerG]) then UnitGrams
      else if Contains(lowered, [AsciiLowerO, AsciiLowerZ]) then UnitOz
      else UnitUnknown
  }

  // ---------------------------------------------------------------- battery

  /**
   * parseBatteryLevel, as a whole percentage: raw bytes below the calibrated
   * minimum give 0, above the maximum 100, and in between the linear position
   * of the byte in [129, 158], rounded to the nearest percent.
   */
  function ParseBatteryLevel(raw: byte): (percent: int)
    ensures 0 <= percent <= 100
    ensures (raw as int) < MinBatteryLevel ==> percent == 0
    ensures (raw as int) > MaxBatteryLevel ==> percent == 100
    ensures MinBatteryLevel <= raw as int <= MaxBatteryLevel ==>
      -29 <= 58 * percent - 200 * (raw as int - MinBatteryLevel) <= 29
  {
    var val := raw as int;
    if val < MinBatteryLevel then 0
    else if val > MaxBatteryLevel then 100
    else (200 * (val - MinBatteryLevel) + 29) / 58
  }

  /** The battery percentage never decreases as the raw byte grows. */
  lemma BatteryLevelMonotone(a: byte, b: byte)
    requires a <= b
    ensures ParseBatteryLevel(a) <= ParseBatteryLevel(b)
  {
  }

  // ---------------------------------------------------------------- buzzer flag

  /** parseSignalFlag: on exactly when the byte is the sentinel. */
  function ParseSignalFlag(data: byte): (on: bool)
    ensures on <==> data == BuzzerOnSentinel
  {
    data == BuzzerOnSentinel
  }

  /** The byte a device sends for a flag value: the sentinel, or zero. */
  function EncodeSignalFlag(on: bool): byte {
    if on then BuzzerOnSentinel else 0
  }

  // ---------------------------------------------------------------- weight

  predicate IsDigit(b: byte) {
    0x30 <= b <= 0x39
  }

  predicate AllDigits(s: seq<byte>) {
    forall i :: 0 <= i < |s| ==> IsDigit(s[i])
  }

  function Pow10(k: nat): (p: nat)
    ensures p >= 1
  {
    if k == 0 then 1 else 10 * Pow10(k - 1)
  }

  /** The value of a string of decimal digits, most significant first. */
  function DigitsValue(s: seq<byte>): (v: nat)
    requires AllDigits(s)
    ensures v < Pow10(|s|)
    decreases |s|
  {
    if s == [] then 0
    else DigitsValue(s[..|s| - 1]) * 10 + (s[|s| - 1] - AsciiZero) as int
  }

  /**
   * The numbers the weight field may hold: an optional sign followed by at
   * least one ASCII digit.
   */
  predicate IsDecimal(s: seq<byte>) {
    (|s| > 0 && AllDigits(s))
    || (|s| > 1 && (s[0] == AsciiPlus || s[0] == AsciiMinus) && AllDigits(s[1..]))
  }

  /**
   * strconv.ParseFloat restricted to signed decimal integers; the result is
   * the frame's weight in hundredths (the division by 100 is left implicit).
   */
  function ParseWeight(s: seq<byte>): (r: Option<int>)
    ensures r.Some? <==> IsDecimal(s)
    ensures r.Some? ==> -(Pow10(|s| - 1) as int) < r.value < Pow10(|s|)
  {
    if |s| > 0 && AllDigits(s) then Some(DigitsValue(s))
    else if |s| > 1 && s[0] == AsciiMinus && AllDigits(s[1..]) then Some(-(DigitsValue(s[1..]) as int))
    else if |s| > 1 && s[0] == AsciiPlus && AllDigits(s[1..]) then
      assert Pow10(|s| - 1) <= Pow10(|s|);
      Some(DigitsValue(s[1..]))
    else None
  }

  /**
   * The value of a signed field: a '+' in front of the digits gives their
   * value, and a '-' in front gives its negation.
   */
  lemma ParseWeightSign(d: seq<byte>)
    requires |d| > 0 && AllDigits(d)
    ensures ParseWeight([AsciiPlus] + d) == Some(DigitsValue(d) as int)
    ensures ParseWeight([AsciiMinus] + d) == Some(-(DigitsValue(d) as int))
  {
    var plus, minus := [AsciiPlus] + d, [AsciiMinus] + d;
    assert plus[1..] == d && minus[1..] == d;
    assert !AllDigits(plus) by { assert !IsDigit(plus[0]); }
    assert !AllDigits(minus) by { assert !IsDigit(minus[0]); }
  }

  /** v written with exactly k decimal digits, zero-padded on the left. */
  function Digits(v: nat, k: nat): (s: seq<byte>)
    requires v < Pow10(k)
    ensures |s| == k && AllDigits(s)
  {
    if k == 0 then []
    else Digits(v / 10, k - 1) + [AsciiZero + (v % 10) as byte]
  }

  lemma {:induction false} DigitsRoundTrip(v: nat, k: nat)
    requires v < Pow10(k)
    ensures DigitsValue(Digits(v, k)) == v
  {
    if k > 0 {
      var s := Digits(v, k);
      assert s[..|s| - 1] == Digits(v / 10, k - 1);
      DigitsRoundTrip(v / 10, k - 1);
    }
  }

  const WeightWidth := 7

  /** Weights a seven-character field can carry, in hundredths. */
  predicate EncodableWeight(w: int) {
    -(Pow10(WeightWidth - 1) as int) < w < Pow10(WeightWidth)
  }

  /** The seven-character field for a weight: zero-padded digits, or '-' and six digits. */
  function EncodeWeight(w: int): (s: seq<byte>)
    requires EncodableWeight(w)
    ensures |s| == WeightWidth
  {
    if w >= 0 then Digits(w, WeightWidth) else [AsciiMinus] + Digits(-w, WeightWidth - 1)
  }

  lemma WeightRoundTrip(w: int)
    requires EncodableWeight(w)
    ensures ParseWeight(EncodeWeight(w)) == Some(w)
  {
    if w >= 0 {
      DigitsRoundTrip(w, WeightWidth);
    } else {
      var s := EncodeWeight(w);
      assert s[1..] == Digits(-w, WeightWidth - 1);
      DigitsRoundTrip(-w, WeightWidth - 1);
      assert !AllDigits(s) by { assert !IsDigit(s[0]); }
    }
  }

  // ---------------------------------------------------------------- frame

  /** What one accepted notification frame reports. */
  datatype Reading = Reading(weight: int, unit: Unit, buzzingOnTouch: bool, batteryLevel: byte)

  /**
   * The checks and field extraction of receiveData: a frame is accepted only
   * when it has 18 bytes and bytes 2..8 hold a number; the unit hint is bytes
   * 9..10, the buzzer flag byte 14 and the raw battery level byte 15.
   */
  function DecodeFrame(req: seq<byte>): (r: Option<Reading>)
    ensures r.Some? <==> |req| == FrameLength && IsDecimal(req[2..9])
    ensures r.Some? ==> IsNamedUnit(r.value.unit) && EncodableWeight(r.value.weight)
  {
    if |req| != FrameLength then None
    else match ParseWeight(req[2..9])
      case None => None
      case Some(w) =>
        Some(Reading(w, ParseUnit(req[9..11]), ParseSignalFlag(req[14]), req[15]))
  }

  /** A two-byte hint that decodes to the given named unit. */
  function UnitHint(u: Unit): (hint: seq<byte>)
    requires IsNamedUnit(u)
    ensures |hint| == 2
  {
    if u == UnitGrams then [AsciiLowerG, AsciiSpace]
    else if u == UnitOz then [AsciiLowerO, AsciiLowerZ]
    else [AsciiMinus, AsciiMinus]
  }

  /** A frame carrying a reading; the bytes the decoder ignores are zero. */
  function EncodeFrame(r: Reading): (req: seq<byte>)
    requires EncodableWeight(r.weight) && IsNamedUnit(r.unit)
    ensures |req| == FrameLength
  {
    [0, 0] + EncodeWeight(r.weight) + UnitHint(r.unit) + [0, 0, 0]
    + [EncodeSignalFlag(r.buzzingOnTouch), r.batteryLevel, 0, 0]
  }

  /** Every reading a frame can carry survives encoding and decoding unchanged. */
  lemma FrameRoundTrip(r: Reading)
    requires EncodableWeight(r.weight) && IsNamedUnit(r.unit)
    ensures DecodeFrame(EncodeFrame(r)) == Some(r)
  {
    var req := EncodeFrame(r);
    assert req[2..9] == EncodeWeight(r.weight);
    assert req[9..11] == UnitHint(r.unit);
    WeightRoundTrip(r.weight);
  }

  /** The worked example: "0012345", "g ", flag 0x22, battery 150. */
  lemma DecodeExample()
    ensures DecodeFrame([0, 0, 0x30, 0x30, 0x31, 0x32, 0x33, 0x34, 0x35, AsciiLowerG, AsciiSpace,
                         0, 0, 0, 0x22, 150, 0, 0])
            == Some(Reading(12345, UnitGrams, true, 150))
    ensures ParseBatteryLevel(150) == 72
  {
    var req: seq<byte> := [0, 0, 0x30, 0x30, 0x31, 0x32, 0x33, 0x34, 0x35, AsciiLowerG, AsciiSpace,
                           0, 0, 0, 0x22, 150, 0, 0];
    var w: seq<byte> := [0x30, 0x30, 0x31, 0x32, 0x33, 0x34, 0x35];
    assert req[2..9] == w;
    assert req[9..11] == [AsciiLowerG, AsciiSpace];
    assert Digits(12345, 7) == w;
    DigitsRoundTrip(12345, 7);
  }
}
