// The CV/pot conditioning of this firmware variant: an integer exponential
// moving average per ADC channel, three input transforms feeding it, and
// the (stubbed) per-block Read.

module CvScaling {
  import opened FixedWidth

  /** Channels of the internal ADC, in AdcChannel order. */
  const AdcVoctCv := 0
  const AdcFmCv := 1
  const AdcParam1Cv := 2
  const AdcParam2Cv := 3
  const AdcPitchPot := 4
  const AdcFinePot := 5
  const AdcFmPot := 6
  const AdcParam1Pot := 7
  const AdcModPot := 8
  const AdcParam2Pot := 9
  const AdcChannelLast := 10

  /** Indices of the values[] array of a Parameters snapshot. */
  const ValuePitch := 0
  const ValueFm := 1
  const ValueParam1 := 2
  const ValueParam2 := 3
  const ValueLast := 4

  function Min(a: int, b: int): int { if a <= b then a else b }
  function Max(a: int, b: int): int { if a <= b then b else a }

  /** A truncating quotient of a value between lo*b and hi*b lies between
      lo and hi. */
  lemma TruncDivBetween(a: int, b: int, lo: int, hi: int)
    requires b > 0 && lo * b <= a <= hi * b
    ensures lo <= TruncDiv(a, b) <= hi
  {
    var q := TruncDiv(a, b);
    if q < lo {
      MulLe(q, lo - 1, b);
    } else if q > hi {
      MulLe(hi + 1, q, b);
    }
  }

  /** One step of the moving average of window `samples`: the new state is
      a weighted mean of the old state and the input, truncated toward
      zero as int32_t division does. It never leaves the interval between
      the old state and the input. */
  function SmoothStep(previous: int, value: int, samples: int): (r: int)
    requires samples > 0
    ensures Min(previous, value) <= r <= Max(previous, value)
    ensures previous == value ==> r == value
    ensures samples == 1 ==> r == value
  {
    var a := previous * (samples - 1) + value;
    var lo, hi := Min(previous, value), Max(previous, value);
    assert a == previous * samples + (value - previous);
    MulLe(lo, hi, samples - 1);
    assert lo * samples <= a <= hi * samples by {
      assert lo * samples == lo * (samples - 1) + lo;
      assert hi * samples == hi * (samples - 1) + hi;
    }
    TruncDivBetween(a, samples, lo, hi);
    TruncDiv(a, samples)
  }

  /** Smoothing never moves the state away from the input. */
  lemma SmoothApproaches(previous: int, value: int, samples: int)
    requires samples > 0
    ensures var r := SmoothStep(previous, value, samples);
      (if r <= value then value - r else r - value) <= (if previous <= value then value - previous else previous - value)
  {
  }

  /** With inputs and state within 17 bits and a window of at most 2^14,
      the int32_t intermediate `smoothed * (samples - 1) + value` cannot
      overflow. */
  lemma SmoothNoOverflow(previous: int, value: int, samples: int)
    requires -0x1_0000 <= previous <= 0x1_0000 && -0x1_0000 <= value <= 0x1_0000
    requires 0 < samples <= 0x4000
    ensures -0x8000_0000 <= previous * (samples - 1) + value < 0x8000_0000
  {
    MulLe(-0x1_0000, previous, samples - 1);
    MulLe(previous, 0x1_0000, samples - 1);
  }

  /** Truncation makes the average stall short of a constant input: from a
      non-negative state less than one window below the input, the state
      never moves. */
  lemma SmoothStalls(previous: int, value: int, samples: int)
    requires samples > 0 && 0 <= previous <= value < previous + samples
    ensures SmoothStep(previous, value, samples) == previous
  {
    var a := previous * (samples - 1) + value;
    assert a == samples * previous + (value - previous);
    DivUnique(a, samples, previous, value - previous);
    assert SmoothStep(previous, value, samples) == TruncDiv(a, samples);
  }

  /** The parameter snapshot handed to the renderer, in the indexed
      `values[]` form its callers use. */
  class Parameters {
    var values: array<uint16>

    ghost predicate Valid()
      reads this
    {
      values.Length == ValueLast
    }

    constructor ()
      ensures Valid() && fresh(values)
    {
      values := new uint16[ValueLast](_ => 0);
    }
  }

  class CvScaler {
    /** The raw conversions, filled by the ADC's DMA (an input here). */
    var raw: array<uint16>
    /** smoothed_[ADC_CHANNEL_LAST]: the moving-average state per channel. */
    var smoothed: array<int>
    var adcInitialised: bool
    /** How many conversions have been requested from the ADC. */
    var conversions: nat

    ghost predicate Valid()
      reads this
    {
      raw.Length == AdcChannelLast && smoothed.Length == AdcChannelLast
    }

    /** The global object is zero-initialised: every smoothed state and raw
        value starts at 0. */
    constructor ()
      ensures Valid() && fresh(raw) && fresh(smoothed)
      ensures forall c :: 0 <= c < AdcChannelLast ==> smoothed[c] == 0 && raw[c] == 0
      ensures !adcInitialised && conversions == 0
    {
      raw := new uint16[AdcChannelLast](_ => 0);
      smoothed := new int[AdcChannelLast](_ => 0);
      adcInitialised := false;
      conversions := 0;
    }

    /** CvScaler::Init only initialises the ADC. */
    method Init()
      requires Valid()
      modifies this`adcInitialised
      ensures adcInitialised
    {
      adcInitialised := true;
    }

    /** smooth<channel, samples>(value): advances that channel's average by
        one step and returns the new state. With 17-bit state and input and
        a window of at most 2^14 the int32_t intermediate does not
        overflow, and the state stays within 17 bits. */
    method Smooth(channel: nat, samples: int, value: int) returns (r: int)
      requires Valid() && channel < AdcChannelLast && samples > 0
      modifies smoothed
      ensures r == SmoothStep(old(smoothed[channel]), value, samples)
      ensures smoothed[channel] == r
      ensures forall c :: 0 <= c < AdcChannelLast && c != channel ==> smoothed[c] == old(smoothed[c])
      ensures -0x1_0000 <= old(smoothed[channel]) <= 0x1_0000 && -0x1_0000 <= value <= 0x1_0000 && samples <= 0x4000 ==>
        -0x8000_0000 <= old(smoothed[channel]) * (samples - 1) + value < 0x8000_0000
        && -0x1_0000 <= smoothed[channel] <= 0x1_0000
    {
      if -0x1_0000 <= smoothed[channel] <= 0x1_0000 && -0x1_0000 <= value <= 0x1_0000 && samples <= 0x4000 {
        SmoothNoOverflow(smoothed[channel], value, samples);
      }
      r := TruncDiv(smoothed[channel] * (samples - 1) + value, samples);
      smoothed[channel] := r;
    }

    /** readPot<channel, samples, offset>: smooths the raw pot value plus an
        offset. */
    method ReadPot(channel: nat, samples: int, offset: int) returns (r: int)
      requires Valid() && channel < AdcChannelLast && samples > 0
      modifies smoothed
      ensures r == SmoothStep(old(smoothed[channel]), raw[channel] + offset, samples)
      ensures smoothed[channel] == r
      ensures forall c :: 0 <= c < AdcChannelLast && c != channel ==> smoothed[c] == old(smoothed[c])
    {
      r := Smooth(channel, samples, raw[channel] + offset);
    }

    /** readCvUni<channel, samples>: smooths the inverted unipolar CV
        65535 - raw, which lies in [0, 65535]. */
    method ReadCvUni(channel: nat, samples: int) returns (r: int)
      requires Valid() && channel < AdcChannelLast && samples > 0
      modifies smoothed
      ensures 0 <= 65535 - raw[channel] as int <= 65535
      ensures r == SmoothStep(old(smoothed[channel]), 65535 - raw[channel] as int, samples)
      ensures smoothed[channel] == r
      ensures forall c :: 0 <= c < AdcChannelLast && c != channel ==> smoothed[c] == old(smoothed[c])
    {
      r := Smooth(channel, samples, 65535 - raw[channel] as int);
    }

    /** readCvBi<channel, samples>: smooths the inverted bipolar CV
        32767 - raw, which lies in [-32768, 32767]. */
    method ReadCvBi(channel: nat, samples: int) returns (r: int)
      requires Valid() && channel < AdcChannelLast && samples > 0
      modifies smoothed
      ensures -32768 <= 32767 - raw[channel] as int <= 32767
      ensures r == SmoothStep(old(smoothed[channel]), 32767 - raw[channel] as int, samples)
      ensures smoothed[channel] == r
      ensures forall c :: 0 <= c < AdcChannelLast && c != channel ==> smoothed[c] == old(smoothed[c])
    {
      r := Smooth(channel, samples, 32767 - raw[channel] as int);
    }

    /** CvScaler::Read as it stands: the four parameter values are zeroed
        whatever the ADC holds, and one new conversion is requested. The
        smoothing state is neither read nor written. */
    method Read(parameters: Parameters)
      requires Valid() && parameters.Valid()
      modifies parameters.values, this`conversions
      ensures parameters.values[..] == [0, 0, 0, 0]
      ensures conversions == old(conversions) + 1
    {
      parameters.values[ValueParam1] := 0;
      parameters.values[ValueParam2] := 0;
      parameters.values[ValuePitch] := 0;
      parameters.values[ValueFm] := 0;
      conversions := conversions + 1;
    }
  }
}
