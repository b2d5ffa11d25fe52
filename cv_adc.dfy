// The CV ADC driver's oversampling: the DMA fills four rounds of the four
// CV channels, and Sample reduces each channel's four conversions to their
// average.

module CvAdcDriver {
  import opened FixedWidth

  /** CvAdcChannel: V/OCT, FM, PARAM1, PARAM2. */
  const CvAdcChannelLast := 4
  const CvAdcOversample := 4

  /** `value / CV_ADC_OVERSAMPLE` on the uint32_t sum of four conversions:
      the sum cannot wrap, and the floor average fits a uint16_t. */
  function Average(a: uint16, b: uint16, c: uint16, d: uint16): (r: uint16)
    ensures a + b + c + d < 0x1_0000_0000
    ensures 4 * r <= a + b + c + d < 4 * r + 4
  {
    (a + b + c + d) / CvAdcOversample
  }

  /** The average lies between the smallest and the largest conversion. */
  lemma AverageBetween(a: uint16, b: uint16, c: uint16, d: uint16)
    ensures Min4(a, b, c, d) <= Average(a, b, c, d) <= Max4(a, b, c, d)
  {
  }

  function Min4(a: int, b: int, c: int, d: int): int
  {
    var ab := if a <= b then a else b;
    var cd := if c <= d then c else d;
    if ab <= cd then ab else cd
  }

  function Max4(a: int, b: int, c: int, d: int): int
  {
    var ab := if a <= b then b else a;
    var cd := if c <= d then d else c;
    if ab <= cd then cd else ab
  }

  /** Four equal conversions average to that conversion. */
  lemma AverageOfEqual(v: uint16)
    ensures Average(v, v, v, v) == v
  {
  }

  /** The average grows with each of its conversions. */
  lemma AverageMonotone(a: uint16, b: uint16, c: uint16, d: uint16, a': uint16)
    requires a <= a'
    ensures Average(a, b, c, d) <= Average(a', b, c, d)
  {
  }

  class CvAdc {
    /** raw_values_[CV_ADC_CHANNEL_LAST * CV_ADC_OVERSAMPLE], channel-major
        within each round; written by the DMA, an input here. */
    const rawValues: array<uint16>
    /** values_[CV_ADC_CHANNEL_LAST] */
    const values: array<uint16>

    ghost predicate Valid()
      reads this
    {
      rawValues.Length == CvAdcChannelLast * CvAdcOversample
      && values.Length == CvAdcChannelLast
    }

    /** The driver is a zero-initialised global. */
    constructor ()
      ensures Valid() && fresh(rawValues) && fresh(values)
      ensures forall i :: 0 <= i < rawValues.Length ==> rawValues[i] == 0
      ensures forall c :: 0 <= c < values.Length ==> values[c] == 0
    {
      rawValues := new uint16[CvAdcChannelLast * CvAdcOversample](_ => 0);
      values := new uint16[CvAdcChannelLast](_ => 0);
    }

    /** The averages Sample stores, one per channel, from the four rounds
        of a raw buffer. */
    static function Averages(raw: seq<uint16>): (avg: seq<uint16>)
      requires |raw| == CvAdcChannelLast * CvAdcOversample
      ensures |avg| == CvAdcChannelLast
      ensures forall c {:trigger avg[c]} :: 0 <= c < CvAdcChannelLast ==>
        avg[c] == Average(raw[c], raw[c + 4], raw[c + 8], raw[c + 12])
    {
      seq(CvAdcChannelLast, c requires 0 <= c < CvAdcChannelLast =>
        Average(raw[c], raw[c + 4], raw[c + 8], raw[c + 12]))
    }

    /** Sample: each channel's value becomes the floor average of its four
        conversions; the raw buffer is only read. */
    method Sample()
      requires Valid()
      modifies values
      ensures values[..] == Averages(rawValues[..])
      ensures rawValues[..] == old(rawValues[..])
    {
      for channel := 0 to CvAdcChannelLast
        invariant rawValues[..] == old(rawValues[..])
        invariant forall c {:trigger values[c]} :: 0 <= c < channel ==>
          values[c] == Average(rawValues[c], rawValues[c + 4], rawValues[c + 8], rawValues[c + 12])
      {
        var value: uint32 := rawValues[channel];
        value := value + rawValues[channel + 1 * CvAdcChannelLast];
        value := value + rawValues[channel + 2 * CvAdcChannelLast];
        value := value + rawValues[channel + 3 * CvAdcChannelLast];
        values[channel] := value / CvAdcOversample;
      }
    }

    /** value(channel): the stored average, widened losslessly to int32_t. */
    function Value(channel: nat): (r: int32)
      requires Valid() && channel < CvAdcChannelLast
      reads this, values
      ensures 0 <= r < 0x1_0000 && r == values[channel]
    {
      values[channel]
    }
  }
}
