// The audio path of braids.cc: a ring of four 24-sample blocks filled by the
// main loop (RenderBlock) and drained one sample per timer interrupt (the
// TIM1 update handler), with the per-block control computations and the
// bit-reduction / decimation / gain post-processing in between.

module Braids {
  import opened FixedWidth
  import opened CvScaling

  const NumBlocks := 4
  const BlockSize := 24

  /** One rendered block of signed 16-bit samples. */
  type Block = s: seq<int16> | |s| == BlockSize witness seq(BlockSize, _ => 0)

  /** bit_reduction_masks[], indexed by the resolution setting. */
  const BitReductionMasks: seq<uint16> := [0xc000, 0xe000, 0xf000, 0xf800, 0xff00, 0xfff0, 0xffff]
  /** The number of low bits each of those masks clears. */
  const BitReductionShifts: seq<nat> := [14, 13, 12, 11, 8, 4, 0]
  /** decimation_factors[], indexed by the sample-rate setting. */
  const DecimationFactors: seq<nat> := [24, 12, 6, 4, 3, 2, 1]

  datatype TrigStrikeSettings = TrigStrikeSettings(attack: uint8, decay: uint8, amount: uint8)

  /** trig_strike_settings[], indexed by the trigger AD-shape setting. */
  const TrigStrikeTable: seq<TrigStrikeSettings> := [
    TrigStrikeSettings(0, 30, 30),
    TrigStrikeSettings(0, 40, 60),
    TrigStrikeSettings(0, 50, 90),
    TrigStrikeSettings(0, 60, 110),
    TrigStrikeSettings(0, 70, 90),
    TrigStrikeSettings(0, 90, 80),
    TrigStrikeSettings(60, 100, 70),
    TrigStrikeSettings(40, 72, 60),
    TrigStrikeSettings(34, 60, 20)
  ]

  datatype PitchQuantization = QuantizationOff | QuantizationSemitone | QuantizationQuarterTone

  /** The settings values RenderBlock consults for one block. */
  datatype Settings = Settings(
    trigAdShape: nat,
    trigDestination: uint8,
    metaModulation: bool,
    shape: int,
    fmCvOffset: int,
    pitchQuantization: PitchQuantization,
    autoTrig: bool,
    vcoDrift: bool,
    vcoFlatten: bool,
    signature: bool,
    sampleRate: nat,
    resolution: nat,
    pitchTransposition: int)
  {
    /** The three table indices are in range. */
    predicate Valid()
    {
      trigAdShape < |TrigStrikeTable| && sampleRate < |DecimationFactors|
      && resolution < |BitReductionMasks|
    }
  }

  /** What the collaborators outside this model contribute to one block:
      the envelope, the jitter source, the settings' pitch and FM curves,
      the detune table, the waveshaper, the oscillator itself and the
      shape constants of the oscillator. */
  datatype Collaborators = Collaborators(
    paques: bool,
    adValue: uint16,
    adcToPitch: uint16 -> int16,
    adcToFm: uint16 -> int16,
    jitter: int16,
    detune: int -> int,
    oscillator: seq<bool> -> Block,
    waveshaper: int16 -> int16,
    shapeLast: int,
    lastAccessibleFromMeta: nat,
    questionMark: int)

  /** The commands RenderBlock sends to the oscillator and envelope, and the
      new values of its three static locals. */
  datatype Controls = Controls(
    envelopeAttack: uint8,
    envelopeDecay: uint8,
    shape: int,
    metaShape: Option<int>,
    parameter1: uint16,
    parameter2: int,
    pitch: int,
    autoTrigger: bool,
    pitchAdcCode: uint16,
    previousPitch: int,
    previousShape: int)

  // ---------------------------------------------------------------------
  // Control-rate arithmetic

  function Abs(x: int): int { if x < 0 then -x else x }

  /** Dead-band hysteresis on a reading: the remembered value follows the
      reading only when the reading lies more than `band` away from it. */
  function Hysteresis(reading: int, previous: int, band: nat): (r: int)
    ensures r == reading || r == previous
    ensures Abs(r - reading) <= band
    ensures Abs(reading - previous) > band ==> r == reading
  {
    if reading > previous + band || reading < previous - band then reading else previous
  }

  /** Once the held value has followed a reading, any later reading within
      the band of it leaves the held value where it is. */
  lemma HysteresisAbsorbsNoise(first: int, later: int, previous: int, band: nat)
    requires Hysteresis(first, previous, band) == first
    requires Abs(later - first) <= band
    ensures Hysteresis(later, Hysteresis(first, previous, band), band) == first
  {
  }

  /** Saturation in the order the source tests it: above the ceiling first,
      then below the floor. */
  function Clamp(x: int, lo: int, hi: int): (r: int)
    requires lo <= hi
    ensures lo <= r <= hi
    ensures lo <= x <= hi ==> r == x
    ensures x > hi ==> r == hi
    ensures x < lo ==> r == lo
  {
    if x > hi then hi else if x < lo then lo else x
  }

  /** Saturation keeps the order of its inputs. */
  lemma ClampMonotone(x: int, y: int, lo: int, hi: int)
    requires lo <= hi && x <= y
    ensures Clamp(x, lo, hi) <= Clamp(y, lo, hi)
  {
  }

  /** The meta-modulation shape, the clamp written as in the source
      (`>= last` first, then `<= 0`). */
  function MetaShape(held: int, shapeLast: int, base: int, lastFromMeta: nat): (r: int)
    ensures 0 <= r <= lastFromMeta
    ensures var scaled := shapeLast * held / 2048 + base;
      0 <= scaled <= lastFromMeta ==> r == scaled
  {
    var scaled := shapeLast * held / 2048 + base;
    if scaled >= lastFromMeta then lastFromMeta else if scaled <= 0 then 0 else scaled
  }

  /** parameter_1: the 16-bit `param1 << 3` plus the envelope's timbre
      contribution, also wrapped to 16 bits, then saturated at 32767. */
  function Parameter1(param1: uint16, adValue: uint16, amount: uint8): (p: uint16)
    ensures p <= 32767
    ensures param1 < 0x1000 ==> p == Min(param1 * 8 + TimbreOffset(adValue, amount), 32767)
  {
    var shifted := (param1 * 8) % 0x1_0000;
    var sum := (shifted + TimbreOffset(adValue, amount)) % 0x1_0000;
    if sum > 32767 then 32767 else sum
  }

  /** `static_cast<uint32_t>(ad_value) * ad_timbre_amount >> 9`: the
      uint32_t product cannot wrap and the offset stays below 2^15. */
  function TimbreOffset(adValue: uint16, amount: uint8): (t: nat)
    ensures adValue * amount < 0x1_0000_0000 && t < 0x8000
    ensures amount == 0 ==> t == 0
  {
    MulLe(adValue, 0xffff, amount);
    MulLe(amount, 0xff, 0xffff);
    adValue * amount / 512
  }

  /** Above 8191 the shift wraps: a larger pot value can give a smaller
      timbre parameter. */
  lemma Parameter1Wraps()
    ensures Parameter1(4095, 0, 0) == 32760 && Parameter1(8192, 0, 0) == 0
  {
  }

  /** Pitch quantization on the int32_t pitch: `(pitch + 32) & 0xffffffc0`
      rounds to the nearest multiple of 64 (quarter tone), `(pitch + 64) &
      0xffffff80` to the nearest multiple of 128 (semitone), halves upward. */
  function Quantize(pitch: int16, mode: PitchQuantization): (q: int)
    ensures mode == QuantizationOff ==> q == pitch
    ensures mode == QuantizationQuarterTone ==> q % 64 == 0 && q - 32 <= pitch < q + 32
    ensures mode == QuantizationSemitone ==> q % 128 == 0 && q - 64 <= pitch < q + 64
  {
    match mode
    case QuantizationOff => pitch
    case QuantizationQuarterTone =>
      RoundingMask(pitch + 32, 6);
      FromBits32(BitAnd(ToBits32(pitch + 32), 0xffffffc0))
    case QuantizationSemitone =>
      RoundingMask(pitch + 64, 7);
      FromBits32(BitAnd(ToBits32(pitch + 64), 0xffffff80))
  }

  /** On an int32_t, `v & 0xffffffc0` (k = 6) and `v & 0xffffff80` (k = 7)
      give the largest multiple of 2^k not above v. */
  lemma RoundingMask(v: int32, k: nat)
    requires k == 6 || k == 7
    ensures var mask := if k == 6 then 0xffffffc0 else 0xffffff80;
      var q := FromBits32(BitAnd(ToBits32(v), mask));
      q <= v < q + Pow2(k) && q % Pow2(k) == 0 && Pow2(k) == (if k == 6 then 64 else 128)
  {
    var mask := if k == 6 then 0xffffffc0 else 0xffffff80;
    assert Pow2(k) == (if k == 6 then 64 else 128) && mask == 0x1_0000_0000 - Pow2(k) by { Pow2Table(); }
    SignedAndHighMask32(v, k);
  }

  /** Quantizing an already quantized pitch changes nothing. */
  lemma QuantizeIdempotent(pitch: int16, mode: PitchQuantization)
    requires -0x7f80 <= pitch <= 0x7f80
    ensures var q := Quantize(pitch, mode); -0x8000 <= q < 0x8000 && Quantize(q, mode) == q
  {
    var q := Quantize(pitch, mode);
    assert -0x8000 <= q < 0x8000;
    var r := Quantize(q, mode);
    if mode == QuantizationQuarterTone {
      NearestMultipleUnique(q, r, 64);
    } else if mode == QuantizationSemitone {
      NearestMultipleUnique(q, r, 128);
    }
  }

  /** Two multiples of m less than m/2 apart are equal. */
  lemma NearestMultipleUnique(q: int, r: int, m: int)
    requires (m == 64 || m == 128) && q % m == 0 && r % m == 0
    requires r - m / 2 <= q < r + m / 2
    ensures q == r
  {
    assert q == m * (q / m) && r == m * (r / m);
  }

  /** The control computations of RenderBlock for one block: trigger
      shape, oscillator shape, the two timbre parameters and the pitch
      chain, given the three static locals as they stood. */
  function ComputeControls(s: Settings, c: Collaborators, values: seq<uint16>,
                           previousPitchAdcCode: uint16, previousPitch: int,
                           previousShape: int): Controls
    requires s.Valid() && |values| == ValueLast
  {
    var strike := TrigStrikeTable[s.trigAdShape];
    var timbreAmount: uint8 := if BitAnd(s.trigDestination, 1) != 0 then strike.amount else 0;
    // Oscillator shape.
    var held := Hysteresis(values[ValueFm] - s.fmCvOffset, previousShape, 2);
    var shaping :=
      if c.paques then (c.questionMark, None, previousShape)
      else if s.metaModulation then
        var m := MetaShape(held, c.shapeLast, s.shape, c.lastAccessibleFromMeta);
        (m, Some(m), held)
      else (s.shape, None, previousShape);
    // Timbre.
    var parameter1 := Parameter1(values[ValueParam1], c.adValue, timbreAmount);
    var parameter2 := values[ValueParam2] as int * 8;
    // Pitch.
    var quantizing := s.pitchQuantization != QuantizationOff;
    var code: uint16 := if quantizing then Hysteresis(values[ValuePitch], previousPitchAdcCode, 4)
                        else values[ValuePitch];
    var newPreviousCode := if quantizing then code else previousPitchAdcCode;
    var quantized := Quantize(c.adcToPitch(code), s.pitchQuantization);
    var modulated := if !s.metaModulation then quantized + c.adcToFm(values[ValueFm]) else quantized;
    var delta := modulated - previousPitch;
    var autoTrigger := s.autoTrig && (delta >= 0x40 || -delta >= 0x40);
    var drifted := if s.vcoDrift then modulated + c.jitter / 256 else modulated;
    var clamped := Clamp(drifted, 0, 32767);
    var flattened := if s.vcoFlatten then c.detune(Min(clamped, 16383) * 4) else clamped;
    Controls(strike.attack, strike.decay, shaping.0, shaping.1, parameter1, parameter2,
             flattened + s.pitchTransposition, autoTrigger, newPreviousCode,
             modulated, shaping.2)
  }

  /** What the controls of a block are: the trigger's envelope shape, a
      shape index clamped to the meta range under meta modulation, a timbre
      parameter saturated at 32767, a pitch code held within 4 of the
      reading while quantizing, an auto-trigger exactly on a jump of 64 or
      more, and an unflattened pitch in the 15-bit range before
      transposition. */
  lemma ControlsProperties(s: Settings, c: Collaborators, values: seq<uint16>,
                           previousPitchAdcCode: uint16, previousPitch: int, previousShape: int,
                           k: Controls)
    requires s.Valid() && |values| == ValueLast
    requires k == ComputeControls(s, c, values, previousPitchAdcCode, previousPitch, previousShape)
    ensures k.envelopeAttack == TrigStrikeTable[s.trigAdShape].attack
    ensures k.envelopeDecay == TrigStrikeTable[s.trigAdShape].decay
    ensures c.paques ==> k.shape == c.questionMark && k.metaShape == None
    ensures !c.paques && s.metaModulation ==>
      k.metaShape == Some(k.shape) && 0 <= k.shape <= c.lastAccessibleFromMeta
      && Abs(k.previousShape - (values[ValueFm] - s.fmCvOffset)) <= 2
    ensures !c.paques && !s.metaModulation ==> k.shape == s.shape && k.metaShape == None
    ensures c.paques || !s.metaModulation ==> k.previousShape == previousShape
    ensures k.parameter1 <= 32767
    ensures s.pitchQuantization == QuantizationOff ==> k.pitchAdcCode == previousPitchAdcCode
    ensures s.pitchQuantization != QuantizationOff ==> Abs(k.pitchAdcCode - values[ValuePitch]) <= 4
    ensures k.autoTrigger <==> s.autoTrig && Abs(k.previousPitch - previousPitch) >= 0x40
    ensures !s.vcoFlatten ==> 0 <= k.pitch - s.pitchTransposition <= 32767
  {
  }

  // ---------------------------------------------------------------------
  // Sample-rate post-processing

  /** `sample & bit_mask` stored back into an int16_t: the 16-bit pattern
      of the sample with the mask applied. (The mask has no bit above 15,
      so the int promotion's sign extension does not matter.) */
  function BitReduce(sample: int16, mask: uint16): int16
  {
    FromBits16(BitAnd(ToBits16(sample), mask))
  }

  /** Each resolution's mask rounds a sample down to a multiple of 2^k:
      the pattern loses its k low bits and the value drops by less than
      2^k, for k the mask's count of clear low bits. */
  lemma BitReduceRoundsDown(sample: int16, resolution: nat)
    requires resolution < |BitReductionMasks|
    ensures var k := BitReductionShifts[resolution];
      var r := BitReduce(sample, BitReductionMasks[resolution]);
      ToBits16(r) == ClearLow(ToBits16(sample), k) && r <= sample < r + Pow2(k)
  {
    var k := BitReductionShifts[resolution];
    MaskIsHighBits(resolution);
    AndHighMask(ToBits16(sample), 16, k);
    SignedClearLow16(sample, k);
  }

  /** Each mask keeps bits k .. 15 for its shift k. */
  lemma MaskIsHighBits(resolution: nat)
    requires resolution < |BitReductionMasks|
    ensures BitReductionShifts[resolution] <= 15 && Pow2(16) == 0x1_0000
    ensures BitReductionMasks[resolution] == Pow2(16) - Pow2(BitReductionShifts[resolution])
  {
    Pow2Table();
    var k := BitReductionShifts[resolution];
    var p := if resolution == 0 then 0x4000 else if resolution == 1 then 0x2000
      else if resolution == 2 then 0x1000 else if resolution == 3 then 0x800
      else if resolution == 4 then 0x100 else if resolution == 5 then 0x10 else 1;
    assert Pow2(k) == p;
  }

  /** `static_cast<int32_t>(sample) * gain >> 16`: the int32_t product
      cannot overflow, and the result is the sample scaled toward zero.
      At full gain (65535) a positive sample loses one LSB. */
  function ApplyGain(sample: int16, gain: uint16): (r: int16)
    ensures -0x8000_0000 <= sample * gain < 0x8000_0000
    ensures sample >= 0 ==> 0 <= r <= sample
    ensures sample < 0 ==> sample <= r <= 0
    ensures gain == 0xffff ==> r == (if sample > 0 then sample - 1 else sample)
  {
    GainProduct(sample, gain);
    var p := sample * gain;
    ScaleBetween(p, sample, gain);
    p / 0x1_0000
  }

  lemma GainProduct(sample: int16, gain: uint16)
    ensures -0x8000_0000 <= sample * gain < 0x8000_0000
    ensures gain == 0xffff ==> sample * gain == 0xffff * sample
    ensures sample >= 0 ==> 0 <= sample * gain <= 0xffff * sample
    ensures sample < 0 ==> 0xffff * sample <= sample * gain <= 0
  {
    var n: nat := if sample >= 0 then sample else -(sample as int);
    var g: nat := gain;
    MulLe(g, 0xffff, n);
    assert 0 <= g * n <= 0xffff * n;
    if sample >= 0 {
      assert sample * gain == g * n;
    } else {
      assert sample * gain == -(g * n);
    }
  }

  lemma ScaleBetween(p: int, sample: int16, gain: int)
    requires gain == 0xffff ==> p == 0xffff * sample
    requires sample >= 0 ==> 0 <= p <= 0xffff * sample
    requires sample < 0 ==> 0xffff * sample <= p <= 0
    ensures sample >= 0 ==> 0 <= p / 0x1_0000 <= sample
    ensures sample < 0 ==> sample <= p / 0x1_0000 <= 0
    ensures gain == 0xffff ==> p / 0x1_0000 == (if sample > 0 then sample - 1 else sample)
  {
    if gain == 0xffff {
      if sample > 0 {
        DivUnique(p, 0x1_0000, sample - 1, 0x1_0000 - sample);
      } else {
        DivUnique(p, 0x1_0000, sample, -(sample as int));
      }
    }
  }

  /** The sample held at position i of a block decimated by d: the
      reduced (and optionally waveshaped) sample at the start of i's run. */
  function Held(block: Block, i: nat, d: nat, mask: uint16, signature: bool,
                waveshaper: int16 -> int16): int16
    requires i < BlockSize && d > 0
  {
    Shaped(block[i - i % d], mask, signature, waveshaper)
  }

  /** A sample taken at the start of a run: bit-reduced, then waveshaped
      when the signature setting is on. */
  function Shaped(sample: int16, mask: uint16, signature: bool, waveshaper: int16 -> int16): int16
  {
    var reduced := BitReduce(sample, mask);
    if signature then waveshaper(reduced) else reduced
  }

  /** The post-processed block, stated out of place. */
  function PostProcessed(block: Block, d: nat, mask: uint16, gain: uint16, signature: bool,
                         waveshaper: int16 -> int16): Block
    requires d > 0
  {
    seq(BlockSize, i requires 0 <= i < BlockSize =>
      ApplyGain(Held(block, i, d, mask, signature, waveshaper), gain))
  }

  /** Decimation holds each value for a whole run: two positions in the
      same run of d samples carry the same output. */
  lemma DecimationHolds(block: Block, d: nat, mask: uint16, gain: uint16, signature: bool,
                        waveshaper: int16 -> int16, i: nat, j: nat)
    requires d > 0 && i < BlockSize && j < BlockSize && i / d == j / d
    ensures PostProcessed(block, d, mask, gain, signature, waveshaper)[i]
         == PostProcessed(block, d, mask, gain, signature, waveshaper)[j]
  {
    var q := i / d;
    assert i - i % d == d * q;
    assert j - j % d == d * q;
    assert Held(block, i, d, mask, signature, waveshaper) == Held(block, j, d, mask, signature, waveshaper);
  }

  /** With full resolution, no decimation, no waveshaper and full gain the
      post-processing is transparent up to the one-LSB loss of ApplyGain. */
  lemma TransparentPostProcessing(block: Block, waveshaper: int16 -> int16, i: nat)
    requires i < BlockSize
    ensures var out := PostProcessed(block, 1, 0xffff, 0xffff, false, waveshaper);
      out[i] == (if block[i] > 0 then block[i] - 1 else block[i])
  {
    Pow2Table();
    AndAllOnes(ToBits16(block[i]), 16);
    assert BitReduce(block[i], 0xffff) == block[i];
  }

  /** The held sample at i is a fresh one at the start of a run and the
      previous one inside a run. */
  lemma HeldNext(block: Block, i: nat, d: nat, mask: uint16, signature: bool,
                 waveshaper: int16 -> int16, previous: int16)
    requires i < BlockSize && d > 0
    requires i > 0 ==> previous == Held(block, i - 1, d, mask, signature, waveshaper)
    ensures Held(block, i, d, mask, signature, waveshaper)
         == if i % d == 0 then Shaped(block[i], mask, signature, waveshaper) else previous
  {
    if i % d != 0 {
      RunStart(i, d);
    }
  }

  /** Consecutive positions in the same run hold the same source index. */
  lemma RunStart(i: nat, d: nat)
    requires d > 0 && i > 0 && i % d != 0
    ensures (i - 1) - (i - 1) % d == i - i % d
  {
    var q, r := i / d, i % d;
    assert i == d * q + r && 0 < r < d;
    DivUnique(i - 1, d, q, r - 1);
  }

  // ---------------------------------------------------------------------
  // Ring positions

  /** The playback position after one sample has been played. */
  function NextPosition(sample: nat, block: nat): (r: (nat, nat))
    requires sample < BlockSize && block < NumBlocks
    ensures r.0 < BlockSize && r.1 < NumBlocks
  {
    if sample + 1 >= BlockSize then (0, (block + 1) % NumBlocks) else (sample + 1, block)
  }

  /** The playback position after n samples. */
  function Advance(sample: nat, block: nat, n: nat): (r: (nat, nat))
    requires sample < BlockSize && block < NumBlocks
    ensures r.0 < BlockSize && r.1 < NumBlocks
  {
    if n == 0 then (sample, block)
    else
      var p := Advance(sample, block, n - 1);
      NextPosition(p.0, p.1)
  }

  /** n interrupts move the playback position n samples along a ring of
      NumBlocks * BlockSize samples. */
  lemma {:induction false} AdvanceClosedForm(sample: nat, block: nat, n: nat)
    requires sample < BlockSize && block < NumBlocks
    ensures Advance(sample, block, n)
         == ((sample + n) % BlockSize, (block + (sample + n) / BlockSize) % NumBlocks)
  {
    if n > 0 {
      AdvanceClosedForm(sample, block, n - 1);
      var m := sample + n - 1;
      var x := block + m / BlockSize;
      assert Advance(sample, block, n) == NextPosition(m % BlockSize, x % NumBlocks);
      if m % BlockSize == BlockSize - 1 {
        DivUnique(m + 1, BlockSize, m / BlockSize + 1, 0);
        ModSuccessor(x);
      } else {
        DivUnique(m + 1, BlockSize, m / BlockSize, m % BlockSize + 1);
      }
    }
  }

  lemma ModSuccessor(x: nat)
    ensures (x % NumBlocks + 1) % NumBlocks == (x + 1) % NumBlocks
  {
    if x % NumBlocks == NumBlocks - 1 {
      DivUnique(x + 1, NumBlocks, x / NumBlocks + 1, 0);
    } else {
      DivUnique(x + 1, NumBlocks, x / NumBlocks, x % NumBlocks + 1);
    }
  }

  /** One block period returns playback to the same sample of the next
      block. */
  lemma BlockPeriod(sample: nat, block: nat)
    requires sample < BlockSize && block < NumBlocks
    ensures Advance(sample, block, BlockSize) == (sample, (block + 1) % NumBlocks)
  {
    AdvanceClosedForm(sample, block, BlockSize);
    DivUnique(sample + BlockSize, BlockSize, 1, sample);
  }

  /** The number of blocks the main loop renders before catching up with
      playback. */
  function Pending(render: nat, playback: nat): (n: nat)
    requires render < NumBlocks && playback < NumBlocks
    ensures n < NumBlocks && (render + n) % NumBlocks == playback
    ensures n == 0 <==> render == playback
  {
    (playback - render + NumBlocks) % NumBlocks
  }

  /** Rendering one block brings the render position one block closer to
      playback. */
  lemma PendingStep(render: nat, playback: nat)
    requires render < NumBlocks && playback < NumBlocks && render != playback
    ensures Pending((render + 1) % NumBlocks, playback) == Pending(render, playback) - 1
  {
  }

  /** One interrupt raises the number of pending blocks by one (modulo
      NumBlocks) when it crosses a block boundary, which is exactly on the
      last sample of a block, and leaves it alone otherwise. */
  lemma TickPending(sample: nat, block: nat, render: nat)
    requires sample < BlockSize && block < NumBlocks && render < NumBlocks
    ensures var p := NextPosition(sample, block);
      (p.1 != block <==> sample == BlockSize - 1)
      && Pending(render, p.1)
         == if p.1 != block then (Pending(render, block) + 1) % NumBlocks else Pending(render, block)
  {
    var p := NextPosition(sample, block);
    if sample == BlockSize - 1 {
      PendingShift(render, block, 1);
    }
  }

  /** Moving playback on by k blocks adds k to the pending count, modulo
      NumBlocks. */
  lemma PendingShift(render: nat, block: nat, k: nat)
    requires render < NumBlocks && block < NumBlocks
    ensures Pending(render, (block + k) % NumBlocks) == (Pending(render, block) + k) % NumBlocks
  {
    ModAdd(block - render + NumBlocks, k);
    ModAdd(block + k, NumBlocks - render);
  }

  /** Reducing a summand modulo NumBlocks first does not change the sum
      modulo NumBlocks. */
  lemma ModAdd(a: int, b: int)
    ensures (a % NumBlocks + b) % NumBlocks == (a + b) % NumBlocks
  {
    var c := a % NumBlocks + b;
    DivUnique(a + b, NumBlocks, a / NumBlocks + c / NumBlocks, c % NumBlocks);
  }

  /** n interrupts without a render raise the pending count by the number
      of block boundaries they cross, modulo NumBlocks. */
  lemma TicksPending(sample: nat, block: nat, render: nat, n: nat)
    requires sample < BlockSize && block < NumBlocks && render < NumBlocks
    ensures Pending(render, Advance(sample, block, n).1)
         == (Pending(render, block) + (sample + n) / BlockSize) % NumBlocks
  {
    AdvanceClosedForm(sample, block, n);
    PendingShift(render, block, (sample + n) / BlockSize);
  }

  /** The main loop cannot see a lap: once it has caught up (render block
      2, playback block 2), four block periods without a render bring
      playback back to block 2 and the pending count reads 0, although
      four blocks were played that were never rendered anew. */
  lemma LapUndetected(sample: nat)
    requires sample < BlockSize
    ensures (sample + NumBlocks * BlockSize) / BlockSize == NumBlocks
    ensures Advance(sample, 2, NumBlocks * BlockSize) == (sample, 2)
    ensures Pending(2, Advance(sample, 2, NumBlocks * BlockSize).1) == 0
  {
    DivUnique(sample + NumBlocks * BlockSize, BlockSize, NumBlocks, sample);
    AdvanceClosedForm(sample, 2, NumBlocks * BlockSize);
  }

  // ---------------------------------------------------------------------
  // The globals of braids.cc

  class Firmware {
    /** audio_samples[kNumBlocks][kBlockSize] */
    const audioSamples: array2<int16>
    /** sync_samples[kNumBlocks][kBlockSize]: the gate level recorded at
        each played sample (0 or 1 in the uint8_t array). */
    const syncSamples: array2<bool>
    var currentSample: nat
    var playbackBlock: nat
    var renderBlock: nat
    var triggerDetectedFlag: bool
    var triggerFlag: bool
    // RenderBlock's static locals
    var previousPitchAdcCode: uint16
    var previousPitch: int
    var previousShape: int

    ghost predicate Valid()
      reads this
    {
      audioSamples.Length0 == NumBlocks && audioSamples.Length1 == BlockSize
      && syncSamples.Length0 == NumBlocks && syncSamples.Length1 == BlockSize
      && currentSample < BlockSize && playbackBlock < NumBlocks && renderBlock < NumBlocks
    }

    function SyncRow(b: nat): (row: seq<bool>)
      requires b < syncSamples.Length0 && syncSamples.Length1 == BlockSize
      reads syncSamples
      ensures |row| == BlockSize && forall j :: 0 <= j < BlockSize ==> row[j] == syncSamples[b, j]
    {
      seq(BlockSize, j requires 0 <= j < BlockSize reads syncSamples => syncSamples[b, j])
    }

    /** Init's share of braids.cc: silent, unsynced buffers, playback two
        blocks ahead of rendering, and the zero-initialised globals and
        statics. */
    constructor Init()
      ensures Valid() && fresh(audioSamples) && fresh(syncSamples)
      ensures forall b, j :: 0 <= b < NumBlocks && 0 <= j < BlockSize ==>
        audioSamples[b, j] == 0 && !syncSamples[b, j]
      ensures playbackBlock == NumBlocks / 2 && renderBlock == 0 && currentSample == 0
      ensures !triggerDetectedFlag && !triggerFlag
      ensures previousPitchAdcCode == 0 && previousPitch == 0 && previousShape == 0
      ensures Pending(renderBlock, playbackBlock) == 2
    {
      audioSamples := new int16[NumBlocks, BlockSize]((_, _) => 0);
      syncSamples := new bool[NumBlocks, BlockSize]((_, _) => false);
      playbackBlock := NumBlocks / 2;
      renderBlock := 0;
      currentSample := 0;
      triggerDetectedFlag := false;
      triggerFlag := false;
      previousPitchAdcCode := 0;
      previousPitch := 0;
      previousShape := 0;
    }

    /** The TIM1 update interrupt. Without a pending update flag it does
        nothing; otherwise it returns the DAC code of the sample under the
        playback position, records the gate level in the sync buffer at
        that position, latches a detected trigger and advances playback. */
    method Tick(updatePending: bool, gateRaised: bool) returns (dac: Option<uint16>)
      requires Valid()
      modifies this`currentSample, this`playbackBlock, this`triggerDetectedFlag, syncSamples
      ensures Valid()
      ensures !updatePending ==>
        (dac == None && currentSample == old(currentSample)
         && playbackBlock == old(playbackBlock) && triggerDetectedFlag == old(triggerDetectedFlag)
         && forall b, j :: 0 <= b < NumBlocks && 0 <= j < BlockSize ==> syncSamples[b, j] == old(syncSamples[b, j]))
      ensures updatePending ==>
        (dac == Some(audioSamples[old(playbackBlock), old(currentSample)] + 32768)
         && (currentSample, playbackBlock) == NextPosition(old(currentSample), old(playbackBlock))
         && triggerDetectedFlag == (old(triggerDetectedFlag) || gateRaised)
         && syncSamples[old(playbackBlock), old(currentSample)] == gateRaised)
      ensures forall b, j :: 0 <= b < NumBlocks && 0 <= j < BlockSize && (b, j) != (old(playbackBlock), old(currentSample)) ==>
        syncSamples[b, j] == old(syncSamples[b, j])
    {
      if !updatePending {
        return None;
      }
      var sample := audioSamples[playbackBlock, currentSample] + 32768;
      dac := Some(sample);
      syncSamples[playbackBlock, currentSample] := gateRaised;
      triggerDetectedFlag := triggerDetectedFlag || gateRaised;
      currentSample := currentSample + 1;
      if currentSample >= BlockSize {
        currentSample := 0;
        playbackBlock := (playbackBlock + 1) % NumBlocks;
      }
    }

    /** RenderBlock: computes the controls of one block, renders the
        oscillator into the block under the render position (clearing its
        sync first when the trigger drives the envelope), post-processes
        it in place and moves the render position on. No other block is
        written. */
    method RenderBlock(s: Settings, c: Collaborators, values: seq<uint16>) returns (k: Controls, strike: bool)
      requires Valid() && s.Valid() && |values| == ValueLast
      modifies this`renderBlock, this`triggerDetectedFlag, this`triggerFlag,
        this`previousPitchAdcCode, this`previousPitch, this`previousShape,
        audioSamples, syncSamples
      ensures Valid() && renderBlock == (old(renderBlock) + 1) % NumBlocks
      ensures k == ComputeControls(s, c, values, old(previousPitchAdcCode), old(previousPitch), old(previousShape))
      ensures previousPitchAdcCode == k.pitchAdcCode && previousPitch == k.previousPitch
        && previousShape == k.previousShape
      ensures triggerDetectedFlag == (old(triggerDetectedFlag) || k.autoTrigger)
      ensures strike == old(triggerFlag) && !triggerFlag
      ensures s.trigDestination == 1 ==> forall j :: 0 <= j < BlockSize ==> !syncSamples[old(renderBlock), j]
      ensures s.trigDestination != 1 ==> forall j :: 0 <= j < BlockSize ==>
        syncSamples[old(renderBlock), j] == old(syncSamples[renderBlock, j])
      ensures forall j :: 0 <= j < BlockSize ==>
        audioSamples[old(renderBlock), j]
        == PostProcessed(c.oscillator(SyncRow(old(renderBlock))), DecimationFactors[s.sampleRate],
                         BitReductionMasks[s.resolution], Gain(s, c), s.signature, c.waveshaper)[j]
      ensures forall b, j :: 0 <= b < NumBlocks && 0 <= j < BlockSize && b != old(renderBlock) ==>
        audioSamples[b, j] == old(audioSamples[b, j]) && syncSamples[b, j] == old(syncSamples[b, j])
      ensures playbackBlock == old(playbackBlock) && currentSample == old(currentSample)
      ensures old(renderBlock) != playbackBlock ==>
        Pending(renderBlock, playbackBlock) == old(Pending(renderBlock, playbackBlock)) - 1
        && forall j :: 0 <= j < BlockSize ==> audioSamples[playbackBlock, j] == old(audioSamples[playbackBlock, j])
    {
      if renderBlock != playbackBlock {
        PendingStep(renderBlock, playbackBlock);
      }
      k, strike := UpdateControls(s, c, values);
      RenderAudio(s, c);
    }

    /** The control half of RenderBlock: the controls, the static locals,
        the auto-trigger latch and the one-shot strike flag. */
    method UpdateControls(s: Settings, c: Collaborators, values: seq<uint16>) returns (k: Controls, strike: bool)
      requires s.Valid() && |values| == ValueLast
      modifies this`triggerDetectedFlag, this`triggerFlag,
        this`previousPitchAdcCode, this`previousPitch, this`previousShape
      ensures k == ComputeControls(s, c, values, old(previousPitchAdcCode), old(previousPitch), old(previousShape))
      ensures previousPitchAdcCode == k.pitchAdcCode && previousPitch == k.previousPitch
        && previousShape == k.previousShape
      ensures triggerDetectedFlag == (old(triggerDetectedFlag) || k.autoTrigger)
      ensures strike == old(triggerFlag) && !triggerFlag
    {
      k := ComputeControls(s, c, values, previousPitchAdcCode, previousPitch, previousShape);
      if k.autoTrigger {
        triggerDetectedFlag := true;
      }
      previousPitchAdcCode, previousPitch, previousShape := k.pitchAdcCode, k.previousPitch, k.previousShape;
      strike := triggerFlag;
      triggerFlag := false;
    }

    /** The audio half of RenderBlock, on the block under the render
        position. */
    method RenderAudio(s: Settings, c: Collaborators)
      requires Valid() && s.Valid()
      modifies this`renderBlock, audioSamples, syncSamples
      ensures Valid() && renderBlock == (old(renderBlock) + 1) % NumBlocks
      ensures s.trigDestination == 1 ==> forall j :: 0 <= j < BlockSize ==> !syncSamples[old(renderBlock), j]
      ensures s.trigDestination != 1 ==> forall j :: 0 <= j < BlockSize ==>
        syncSamples[old(renderBlock), j] == old(syncSamples[renderBlock, j])
      ensures forall j :: 0 <= j < BlockSize ==>
        audioSamples[old(renderBlock), j]
        == PostProcessed(c.oscillator(SyncRow(old(renderBlock))), DecimationFactors[s.sampleRate],
                         BitReductionMasks[s.resolution], Gain(s, c), s.signature, c.waveshaper)[j]
      ensures forall b, j :: 0 <= b < NumBlocks && 0 <= j < BlockSize && b != old(renderBlock) ==>
        audioSamples[b, j] == old(audioSamples[b, j]) && syncSamples[b, j] == old(syncSamples[b, j])
    {
      var b := renderBlock;
      if s.trigDestination == 1 {
        forall j | 0 <= j < BlockSize {
          syncSamples[b, j] := false;
        }
      }
      var input := c.oscillator(SyncRow(b));
      forall j | 0 <= j < BlockSize {
        audioSamples[b, j] := input[j];
      }
      PostProcess(b, input, DecimationFactors[s.sampleRate], BitReductionMasks[s.resolution],
                  Gain(s, c), s.signature, c.waveshaper);
      renderBlock := (renderBlock + 1) % NumBlocks;
    }

    /** The copy to the DAC buffer, in place on block b: sample-rate
        reduction by holding every d-th sample, bit reduction, the optional
        waveshaper and the gain. */
    method PostProcess(b: nat, ghost input: Block, d: nat, mask: uint16, gain: uint16, signature: bool,
                       waveshaper: int16 -> int16)
      requires Valid() && b < NumBlocks && d > 0
      requires forall j :: 0 <= j < BlockSize ==> audioSamples[b, j] == input[j]
      modifies audioSamples
      ensures forall j :: 0 <= j < BlockSize ==>
        audioSamples[b, j] == PostProcessed(input, d, mask, gain, signature, waveshaper)[j]
      ensures forall b', j :: 0 <= b' < NumBlocks && 0 <= j < BlockSize && b' != b ==>
        audioSamples[b', j] == old(audioSamples[b', j])
    {
      ghost var out := PostProcessed(input, d, mask, gain, signature, waveshaper);
      var sample: int16 := 0;
      var i := 0;
      while i < BlockSize
        invariant 0 <= i <= BlockSize
        invariant forall j :: 0 <= j < i ==> audioSamples[b, j] == out[j]
        invariant forall j :: i <= j < BlockSize ==> audioSamples[b, j] == input[j]
        invariant i > 0 ==> sample == Held(input, i - 1, d, mask, signature, waveshaper)
        invariant forall b', j :: 0 <= b' < NumBlocks && 0 <= j < BlockSize && b' != b ==>
          audioSamples[b', j] == old(audioSamples[b', j])
      {
        HeldNext(input, i, d, mask, signature, waveshaper, sample);
        if i % d == 0 {
          sample := Shaped(audioSamples[b, i], mask, signature, waveshaper);
        }
        audioSamples[b, i] := ApplyGain(sample, gain);
        i := i + 1;
      }
    }

    /** The inner loop of main: render blocks until the render position
        reaches the playback position, reading the CVs before each block.
        The block being played is never written. */
    method RenderPending(cv: CvScaler, parameters: Parameters, inputs: seq<(Settings, Collaborators)>)
      returns (rendered: nat)
      requires Valid() && cv.Valid() && parameters.Valid()
      requires |inputs| >= Pending(renderBlock, playbackBlock)
      requires forall n :: 0 <= n < |inputs| ==> inputs[n].0.Valid()
      modifies this`renderBlock, this`triggerDetectedFlag, this`triggerFlag,
        this`previousPitchAdcCode, this`previousPitch, this`previousShape,
        audioSamples, syncSamples, parameters.values, cv`conversions
      ensures Valid() && renderBlock == playbackBlock
      ensures rendered == old(Pending(renderBlock, playbackBlock))
      ensures cv.conversions == old(cv.conversions) + rendered
      ensures forall j :: 0 <= j < BlockSize ==> audioSamples[playbackBlock, j] == old(audioSamples[playbackBlock, j])
    {
      rendered := 0;
      while renderBlock != playbackBlock
        invariant Valid() && cv.Valid() && parameters.Valid()
        invariant playbackBlock == old(playbackBlock)
        invariant rendered + Pending(renderBlock, playbackBlock) == old(Pending(renderBlock, playbackBlock))
        invariant cv.conversions == old(cv.conversions) + rendered
        invariant forall j :: 0 <= j < BlockSize ==> audioSamples[playbackBlock, j] == old(audioSamples[playbackBlock, j])
        decreases Pending(renderBlock, playbackBlock)
      {
        PendingStep(renderBlock, playbackBlock);
        cv.Read(parameters);
        var input := inputs[rendered];
        var _, _ := RenderBlock(input.0, input.1, parameters.values[..]);
        rendered := rendered + 1;
      }
    }
  }

  /** The post-processing gain: the envelope when bit 1 of the trigger
      destination is set, unity (65535) otherwise. */
  function Gain(s: Settings, c: Collaborators): (g: uint16)
    ensures Bit(s.trigDestination, 1) ==> g == c.adValue
    ensures !Bit(s.trigDestination, 1) ==> g == 0xffff
  {
    AndPow2(s.trigDestination, 1);
    if BitAnd(s.trigDestination, 2) != 0 then c.adValue else 0xffff
  }
}
