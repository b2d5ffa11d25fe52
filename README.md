# Braids (this firmware variant), modelled in Dafny

This project models the integer core of a Braids firmware variant for the
STM32. The firmware is a macro-oscillator Eurorack module. Its main loop
fills a ring of four 24-sample audio blocks. A timer interrupt plays them
back to the DAC, one sample at a time.

The model covers these parts:

- **`braids.dfy` (module `Braids`).** The ring buffer, the interrupt's
  `Tick`, `RenderBlock` and the main loop's render-until-caught-up loop.
  - The control computations of `RenderBlock`: the trigger envelope
    shape, meta-modulation shape hysteresis and clamp, `parameter_1` with
    its 16-bit wrap and saturation, pitch-code hysteresis, quarter-tone and
    semitone quantization by mask-and-add, the auto-trigger and the pitch
    clamp.
  - The in-place post-processing loop: decimation, bit reduction, the
    optional waveshaper and the gain. It is proved equal to an out-of-place
    definition.
- **`cv_scaler.dfy` (module `CvScaling`).** The per-channel integer moving
  average of `CvScaler`, with C's truncating division. Also the three input
  transforms that feed it, and the stubbed `Read`, which zeroes the four
  parameter values.
- **`cv_adc.dfy` (module `CvAdcDriver`).** The 4x oversampling average of
  the CV ADC driver.
- **`switches.dfy` (module `SwitchesDriver`).** The 8-bit shift-register
  debouncer and its pressed / just-pressed / released tests. A lemma ties
  each test to the last eight pin readings.
- **`display.dfy` (module `DisplayDriver`).** The four-character display:
  - multiplexing and PWM dimming in `Refresh`, including the
    least-significant-bit-first serial transfer of each segment word;
  - `Print` as strncpy;
  - the decimal-point helpers.
- **`preset_storage.dfy` (module `Presets`).** Flash preset storage over
  four 1 KiB pages at 0x08003000-0x08004000.
  - The flash is a byte array; erase and program are operations on it.
  - `FlashWriteStream`, with its running 16-bit checksum.
  - Page selection in `Init`: the valid page of the greatest generation,
    the highest-indexed on a tie.
  - `Save`: a copy to the next page with one slot spliced in, one
    generation later.
  - `Load`, optionally keeping the calibration fields.
  - `Reset`.
  - A save from the selected page makes the new page the one `Init` would
    select.
- **`ui.dfy` (module `UserInterface`).** The user interface.
  - `Poll`: the encoder button's click and long click (800 ms), rotation
    events, switch press and release events, the display refresh on every
    other tick and the gate LED timer.
  - The mode state machine in `DoEvents`: edit, menu, marquee editor, the
    three calibration steps and the splash animation.
  - Calls into the CV scaler and into settings persistence are recorded
    in a log of `Call` values.
- **`fixed_width.dfy` (module `FixedWidth`).** The C integer types, two's
  complement bit patterns, bitwise AND/OR on naturals, and C99 truncating
  division. It also proves the mask lemmas the other modules use.

Behaviours of the source that the proofs bring out:

- `Parameter1Wraps`: `values[VALUE_PARAM1] << 3` is stored in a
  `uint16_t`. A pot value above 8191 therefore wraps, and the timbre
  parameter drops. The commented-out lines of `CvScaler::Read` take the
  internal ADC's `raw_value`, which is configured for 12-bit left-aligned
  conversions (internal_adc.cc:111-116). Such values run up to 0xfff0, so
  the wrap is reachable past about one eighth of the pot's travel once
  `Read` stops zeroing them.
- `SmoothStalls`: the moving average truncates. It stalls short of a
  constant input when it is less than one window below it.
- `EnterEditorLengthens`: a long click ends the marquee editor and leaves
  the 0xA0 end marker where the NUL was. The stored text then runs on past
  the marker until the next NUL. Each further entry and long-click exit
  lengthens the string again.
- `ReleaseDataIsDuration`: a switch release carries its duration plus one.
  It is mistaken for a press (data 0) only after a hold of 2^32 - 1 ms.

Two behaviours follow from code that is disabled in the source, and the
model follows the live code:

- The live `CvScaler::Read` zeroes the four parameter values
  (cv_scaler.cc:16-24). The lines that would read the ADC
  (cv_scaler.cc:10-15) are commented out.
- The only code that clears `trigger_detected_flag` sits under `#if 0`
  (braids.cc:123-140), so the model only ever sets it.

Two places in the source do not compile as written or disagree with their
callers:

- `braids.cc:106` has an unbalanced parenthesis. It is modelled as the
  evident `sample + 32768`.
- `cv_scaler.h:40-49` declares `Parameters` with named fields. Its callers
  index `values[]`, and the model follows the callers.

## Model

| member | source | states |
|---|---|---|
| FixedWidth.TruncDiv | braids/cv_scaler.h:95 | int32_t division by a positive divisor truncates toward zero: the remainder has the sign of the dividend and is smaller than the divisor |
| FixedWidth.ToBits32 | braids/braids.cc:256-260 | converting an int32_t to uint32_t keeps a non-negative value and adds 2^32 to a negative one |
| FixedWidth.FromBits32 | braids/braids.cc:256-260 | definition, used by `SignedAndHighMask32` and `SignedClearLow32`: reading a uint32_t pattern back as int32_t keeps values below 2^31 and subtracts 2^32 from the rest |
| FixedWidth.ToBits16 | braids/braids.cc:321 | an int16_t sample's bit pattern: non-negative values unchanged, negative ones plus 2^16 |
| FixedWidth.FromBits16 | braids/braids.cc:321 | definition, used by `SignedClearLow16`: storing a 16-bit pattern into an int16_t wraps patterns from 0x8000 to negative values |
| FixedWidth.SignedAndHighMask32 | braids/braids.cc:256-260 | on an int32_t, AND with the mask of bits k..31 gives the largest multiple of 2^k not above the value |
| FixedWidth.SignedClearLow16 | braids/braids.cc:321 | clearing the k low bits (k <= 15) of an int16_t's pattern and storing it back gives a value at most the original and less than 2^k below it |
| FixedWidth.SignedClearLow32 | braids/braids.cc:256-260 | clearing the k low bits of an int32_t's pattern gives a value at most the original, less than 2^k below it, and a multiple of 2^k |
| FixedWidth.AndPow2 | braids/drivers/display.cc:142 | `value & (0x1 << i)` is nonzero exactly when bit i of value is set |
| FixedWidth.OrTwo | braids/drivers/display.cc:86-87 | OR-ing the segment word with 0x02 sets bit 1 and keeps every other bit |
| Braids.Hysteresis | braids/braids.cc:219-223 | the held value follows the reading exactly when the reading is more than the band away; otherwise it stays, and it is never more than the band from the reading |
| Braids.HysteresisAbsorbsNoise | braids/braids.cc:246-254 | once the held value has followed a reading, later readings within the band leave it unchanged |
| Braids.Clamp | braids/braids.cc:278-282 | the result lies in [lo, hi], equals the input inside the range, and equals the nearer bound outside it |
| Braids.ClampMonotone | braids/braids.cc:278-282 | saturation preserves the order of its inputs |
| Braids.MetaShape | braids/braids.cc:224-230 | the meta shape lies in [0, last accessible from meta] and is the scaled shape whenever that is in range |
| Braids.Parameter1 | braids/braids.cc:237-241 | `parameter_1` never exceeds 32767, and for pot values below 0x1000 it is `param1 * 8` plus the timbre offset, saturated at 32767 |
| Braids.TimbreOffset | braids/braids.cc:209-238 | the uint32_t product of envelope and timbre amount cannot wrap; the offset is below 2^15, and it is 0 when the amount is 0, as it is when bit 0 of the trigger destination is clear |
| Braids.Parameter1Wraps | braids/braids.cc:237 | the uint16_t shift wraps: pot value 4095 gives 32760, but 8192 gives 0 |
| Braids.Quantize | braids/braids.cc:256-260 | off: the pitch is unchanged; quarter tone: the nearest multiple of 64; semitone: the nearest multiple of 128; ties round up |
| Braids.RoundingMask | braids/braids.cc:256-260 | on an int32_t, `& 0xffffffc0` and `& 0xffffff80` round down to a multiple of 64 and of 128 respectively |
| Braids.QuantizeIdempotent | braids/braids.cc:256-260 | quantizing an already quantized pitch changes nothing |
| Braids.NearestMultipleUnique | braids/braids.cc:256-260 | two multiples of 64 (or of 128) less than half a step apart are equal, so the nearest multiple is unique |
| Braids.ControlsProperties | braids/braids.cc:206-290 | the envelope gets the table's attack and decay; Easter egg, else meta shape clamped and held within 2 of the FM reading, else the shape setting; parameter_1 <= 32767; the quantizing pitch code held within 4 of the reading; auto-trigger exactly when auto_trig is on and the pitch jumps by 0x40 or more; unflattened pitch in [0, 32767] before transposition |
| Braids.BitReduceRoundsDown | braids/braids.cc:321 | each resolution's mask clears the low k bits of the sample's pattern, rounding the sample down by less than 2^k |
| Braids.MaskIsHighBits | braids/braids.cc:170-177 | each of the seven bit-reduction masks keeps exactly bits k..15 for its shift k |
| Braids.ApplyGain | braids/braids.cc:326 | the int32_t product of sample and gain cannot overflow; the result scales the sample toward zero without changing its sign; at gain 65535 a positive sample loses exactly one LSB |
| Braids.GainProduct | braids/braids.cc:326 | the product of an int16_t sample and a uint16_t gain fits an int32_t and lies between 0 and 65535 times the sample |
| Braids.ScaleBetween | braids/braids.cc:326 | the arithmetic shift by 16 of a product between 0 and 65535 times the sample lies between 0 and the sample, and at gain 65535 drops a positive sample by one |
| Braids.DecimationHolds | braids/braids.cc:319-327 | two positions in the same run of decimation-factor samples get the same output |
| Braids.TransparentPostProcessing | braids/braids.cc:313-327 | at full resolution, no decimation, no waveshaper and full gain, the post-processing leaves each sample unchanged except that a positive sample loses one LSB |
| Braids.HeldNext | braids/braids.cc:319-325 | the held sample is a freshly reduced and shaped one at the start of a run, and the previous one inside a run, which is the loop's reuse of `sample` |
| Braids.RunStart | braids/braids.cc:320 | consecutive positions inside a run share the run's first index |
| Braids.NextPosition | braids/braids.cc:114-118 | one interrupt keeps current_sample < 24 and playback_block < 4 |
| Braids.Advance | braids/braids.cc:114-118 | any number of interrupts keeps the playback position in range |
| Braids.AdvanceClosedForm | braids/braids.cc:114-118 | n interrupts advance playback by n samples around the ring of 4 x 24 samples |
| Braids.ModSuccessor | braids/braids.cc:117 | stepping the block index modulo 4 commutes with taking the sum modulo 4 |
| Braids.BlockPeriod | braids/braids.cc:114-118 | 24 interrupts move playback exactly one block on, to the same sample |
| Braids.Pending | braids/braids.cc:340 | the number of blocks to render is below 4, brings render_block to playback_block, and is 0 exactly when the two are equal |
| Braids.PendingStep | braids/braids.cc:329-340 | rendering one block brings the render position one block closer to playback |
| Braids.TickPending | braids/braids.cc:114-118 | an interrupt moves playback to the next block exactly when it ends a block; then the pending count rises by one modulo 4, otherwise it stays |
| Braids.PendingShift | braids/braids.cc:117 | moving playback k blocks on raises the pending count by k modulo 4 |
| Braids.TicksPending | braids/braids.cc:114-118 | after n interrupts with no render in between, the pending count has risen by the number of block boundaries crossed, modulo 4 |
| Braids.LapUndetected | braids/braids.cc:339-345 | from render 2 and playback 2, 96 interrupts cross four boundaries and bring playback back to block 2, where the pending count reads 0: a full lap behind looks caught up |
| Braids.Gain | braids/braids.cc:317-318 | the gain is the envelope when bit 1 of the trigger destination is set, 65535 otherwise |
| Braids.Firmware.SyncRow | braids/braids.cc:300 | definition, used by `RenderBlock` for the sync input the oscillator gets: the row is exactly the render block's sync flags |
| Braids.Firmware.Init | braids/braids.cc:156-162 | all audio samples 0 and sync flags clear, playback_block = 2, render_block = 0, current_sample = 0, flags and statics zero; two blocks are pending |
| Braids.Firmware.Tick | braids/braids.cc:94-118 | without the update flag nothing changes; otherwise the DAC gets the sample under the playback position plus 32768, the gate level goes into that sync slot only, the trigger latch ORs in the gate, and playback advances by one sample |
| Braids.Firmware.RenderBlock | braids/braids.cc:199-334 | the controls are the block's control computation and the statics take its new values; the auto-trigger sets the latch; the strike flag is consumed; the sync row is cleared when the destination is 1; the render block becomes the post-processed oscillator output; no other block changes; render_block advances by one mod 4; the playback position is untouched, and when render_block differs from playback_block the pending count falls by one and the block being played keeps its samples |
| Braids.Firmware.UpdateControls | braids/braids.cc:206-297 | the control half of RenderBlock: the controls, the statics, the latch and the one-shot strike |
| Braids.Firmware.RenderAudio | braids/braids.cc:299-329 | the audio half of RenderBlock on the block under the render position, and no other |
| Braids.Firmware.PostProcess | braids/braids.cc:313-327 | the in-place loop leaves exactly the out-of-place post-processed block and touches no other block |
| Braids.Firmware.RenderPending | braids/braids.cc:340-343 | the loop renders exactly Pending(render, playback) blocks and reads the CVs once per block; it ends with render_block == playback_block, and never writes the block being played |
| CvScaling.SmoothStep | braids/cv_scaler.h:94-98 | the new state lies between the old state and the input; it is the input when they are equal or when the window is 1 |
| CvScaling.TruncDivBetween | braids/cv_scaler.h:95 | a truncated quotient of a value between lo*b and hi*b lies between lo and hi |
| CvScaling.Parameters.constructor | braids/cv_scaler.h:40-49 | the parameter record holds the four values pitch, FM, param1 and param2 |
| CvScaling.SmoothApproaches | braids/cv_scaler.h:95 | a smoothing step never moves the state away from the input |
| CvScaling.SmoothNoOverflow | braids/cv_scaler.h:95 | with 17-bit state and input and a window of at most 2^14, the int32_t intermediate cannot overflow |
| CvScaling.SmoothStalls | braids/cv_scaler.h:95 | a non-negative state less than one window below a constant input never moves |
| CvScaling.CvScaler.constructor | braids/braids.cc:56 | the global scaler starts with zero raw values and smoothing state, the ADC not yet initialised and no conversions |
| CvScaling.CvScaler.Init | braids/cv_scaler.cc:5-7 | Init only initialises the ADC |
| CvScaling.CvScaler.Smooth | braids/cv_scaler.h:93-98 | the channel's state becomes the smoothing step of its old state and the input, which is returned; every other channel is unchanged; with 17-bit state and input and a window of at most 2^14 the int32_t intermediate stays in range and the new state stays 17-bit |
| CvScaling.CvScaler.ReadPot | braids/cv_scaler.h:75-79 | smooths the raw pot value plus the offset on that channel only |
| CvScaling.CvScaler.ReadCvUni | braids/cv_scaler.h:81-85 | smooths 65535 - raw, an input in [0, 65535], on that channel only |
| CvScaling.CvScaler.ReadCvBi | braids/cv_scaler.h:87-91 | smooths 32767 - raw, an input in [-32768, 32767], on that channel only |
| CvScaling.CvScaler.Read | braids/cv_scaler.cc:9-25 | the four parameter values become 0 whatever the ADC holds; exactly one conversion is requested; the smoothing state is untouched |
| CvAdcDriver.Average | braids/drivers/cv_adc.h:64-68 | the uint32_t sum of four conversions cannot wrap, and the stored value is its floor quarter |
| CvAdcDriver.AverageBetween | braids/drivers/cv_adc.h:64-68 | the average lies between the smallest and the largest conversion |
| CvAdcDriver.AverageOfEqual | braids/drivers/cv_adc.h:64-68 | four equal conversions average to that conversion |
| CvAdcDriver.AverageMonotone | braids/drivers/cv_adc.h:64-68 | the average does not decrease when a conversion grows |
| CvAdcDriver.CvAdc.Averages | braids/drivers/cv_adc.h:62-70 | definition, which `CvAdc.Sample` is proved to compute; each entry is an `Average`, which `AverageBetween` bounds: channel c's value is the average of conversions c, c+4, c+8 and c+12 |
| CvAdcDriver.CvAdc.constructor | braids/drivers/cv_adc.h:82-83 | the driver's 16 raw conversions and 4 averaged values start at 0 |
| CvAdcDriver.CvAdc.Sample | braids/drivers/cv_adc.h:62-70 | every channel's value becomes the average of its four conversions; the raw buffer is unchanged |
| CvAdcDriver.CvAdc.Value | braids/drivers/cv_adc.h:72-74 | value(c) is the stored average, widened to int32_t without change |
| SwitchesDriver.OrLowBit | braids/drivers/switches.cc:32 | OR of a doubled value with the pin bit is their sum |
| SwitchesDriver.Shift | braids/drivers/switches.cc:32 | one debounce step puts the reading in bit 0 and moves bits 0..6 up, dropping bit 7 |
| SwitchesDriver.PackBound | braids/drivers/switches.cc:32 | n packed readings fit n bits |
| SwitchesDriver.PackInjective | braids/drivers/switches.h:48-58 | equal-length reading sequences with the same packing are equal, so a state value names one history |
| SwitchesDriver.HistoryAppend | braids/drivers/switches.cc:31-32 | debouncing two runs of readings in turn is debouncing their concatenation |
| SwitchesDriver.HistoryPacks | braids/drivers/switches.cc:32 | the state is the old state shifted up by the number of readings, with the readings below it, truncated to 8 bits |
| SwitchesDriver.ShiftMod | braids/drivers/switches.cc:32 | the uint8_t truncation commutes with shifting in a bit |
| SwitchesDriver.LastEight | braids/drivers/switches.cc:32 | after eight or more readings the state is exactly the last eight readings |
| SwitchesDriver.DebounceWindows | braids/drivers/switches.h:48-58 | pressed holds iff the last eight readings were low; just_pressed iff one high then seven low; released iff one low then seven high; no two hold at once |
| SwitchesDriver.Lows | braids/drivers/switches.h:56-58 | definition, packed by `PackLows`: a run of exactly k low readings |
| SwitchesDriver.Highs | braids/drivers/switches.h:48-50 | definition, packed by `PackHighs`: a run of exactly k high readings |
| SwitchesDriver.PackLows | braids/drivers/switches.h:56-58 | low readings pack to 0x00 |
| SwitchesDriver.PackHighs | braids/drivers/switches.h:48-50 | k high readings pack to 2^k - 1 |
| SwitchesDriver.PackLeading | braids/drivers/switches.h:52-54 | a reading placed before w adds its bit times 2 to the power of the length of w |
| SwitchesDriver.PressTimeline | braids/drivers/switches.cc:32 | after a high reading and k low ones: just_pressed holds exactly at k = 7, pressed from k = 8 on, and released never once k >= 1 |
| SwitchesDriver.LowRunFromEight | braids/drivers/switches.cc:32 | eight or more low readings clear the state |
| SwitchesDriver.LowRunBelowEight | braids/drivers/switches.cc:32 | fewer than eight low readings after a high one leave a nonzero state that is 0x80 only at seven and never 0x7f |
| SwitchesDriver.Switches.constructor | braids/drivers/switches.h:69 | the global's histories start at 0 |
| SwitchesDriver.Switches.Init | braids/drivers/switches.cc:26 | every history becomes 0xff, so none of pressed, just_pressed and released holds |
| SwitchesDriver.Switches.Debounce | braids/drivers/switches.cc:29-33 | every switch's history takes in its own reading and depends only on its own old value |
| DisplayDriver.SegmentWord | braids/drivers/display.cc:84-87 | with the decimal point the segment word has bit 1 set and every other bit of the glyph kept; without it the glyph is unchanged |
| DisplayDriver.SerialBits | braids/drivers/display.cc:101-114 | definition, whose content `SerialRoundTrip` and `Shift14SegmentsWord` give: the transfer clocks out exactly n bits |
| DisplayDriver.SerialRoundTrip | braids/drivers/display.cc:101-114 | the i-th bit sent is bit i of the word, and the receiving shift register reassembles exactly the word |
| DisplayDriver.Shift14SegmentsWord | braids/drivers/display.cc:101-114 | the data-pin levels are the 16 bits of the word, least significant first |
| DisplayDriver.CStrLen | braids/drivers/display.cc:97 | strlen: every character before the length is nonzero, and the one at it is the NUL |
| DisplayDriver.StrNCopy | braids/drivers/display.cc:96-98 | strncpy: the first min(strlen, n) characters are copied and the rest of the n are NUL |
| DisplayDriver.LitRefreshesTail | braids/drivers/display.cc:81-93 | from PWM cycle c to the end of the period, exactly the cycles c..brightness light the display |
| DisplayDriver.DutyCycle | braids/drivers/display.cc:81-93 | every PWM period lights a position on exactly min(brightness + 1, levels) of its refreshes |
| DisplayDriver.Display.constructor | braids/drivers/display.cc:84-93 | the driver holds the font and the PWM level count that Refresh uses, and starts with position, PWM cycle and brightness 0 |
| DisplayDriver.Display.Init | braids/drivers/display.cc:51-78 | a blank buffer, no decimal points, position 0, PWM cycle 0, brightness 3 |
| DisplayDriver.Display.SetBrightness | braids/ui.cc:44 | set_brightness stores the requested brightness, which Refresh compares with the PWM cycle |
| DisplayDriver.Display.Refresh | braids/drivers/display.cc:80-94 | the position advances mod 4 and its segment word is sent exactly when the PWM cycle is at most the brightness; the PWM cycle always advances mod the level count; both stay in range |
| DisplayDriver.Display.Print | braids/drivers/display.cc:96-98 | the buffer becomes strncpy of the string to four characters |
| DisplayDriver.Display.ClearDecimals | braids/drivers/display.cc:136-138 | every decimal point is off |
| DisplayDriver.Display.SetDecimalHex | braids/drivers/display.cc:140-143 | decimal point W-1-i is on exactly when bit i of the value is set |
| Presets.PagesTile | braids/preset_storage.h:68-69 | the four pages follow each other without overlap from FLASH_STORAGE_BASE to the end of bootloader flash, and every address fits a uint32_t |
| Presets.PageLayout | braids/preset_storage.h:45-63 | a slot is a 4-byte name and 96 bytes of settings; ten slots make the 1000-byte, word-aligned preset data; magic, generation and checksum follow at +0, +4, +8; the page struct fits a page |
| Presets.Word32RoundTrip | braids/preset_storage.cc:78-79 | storing a word little-endian and loading it back gives the word, and the other way round |
| Presets.Word16RoundTrip | braids/preset_storage.cc:80 | the same for the half-word checksum |
| Presets.ByteSumAppend | braids/preset_storage.cc:36-38 | the byte sum of a concatenation is the sum of the byte sums |
| Presets.ChecksumComposes | braids/preset_storage.cc:33-40 | checksumming in pieces, each seeded with the previous result, equals checksumming the whole, which is how each Append folds into the running checksum |
| Presets.ModAddMultiple | braids/preset_storage.cc:37 | the uint16_t accumulator forgets multiples of 2^16 |
| Presets.ComputeChecksum | braids/preset_storage.cc:33-40 | the loop returns the seed plus every byte modulo 2^16 |
| Presets.Overwrite | braids/preset_storage.cc:69 | definition, whose content `OverwriteAt` gives: programming keeps the region's size |
| Presets.OverwriteAt | braids/preset_storage.cc:69 | after programming, a byte inside the written range is the written byte and every other byte is unchanged |
| Presets.Erased | braids/preset_storage.cc:111 | definition, read by `ErasedPageInvalid` and `ErasedTail`: an erased range reads 0xff throughout |
| Presets.OverwriteConcat | braids/preset_storage.cc:68-71 | two writes back to back are one write of both |
| Presets.OverwriteOver | braids/preset_storage.cc:68-71 | a shorter write over an earlier one keeps the earlier one's tail |
| Presets.PageBytes | braids/preset_storage.h:90-96 | definition, whose content `SourceSlice` and `OverwritePage` give: a page is PAGE_SIZE bytes |
| Presets.OverwriteOtherPage | braids/preset_storage.cc:111-124 | a write outside page j leaves page j unchanged |
| Presets.OverwritePage | braids/preset_storage.cc:111-124 | writing a page image replaces that page and only that page |
| Presets.StoredData | braids/preset_storage.h:52-58 | definition, whose content `SourceSlice` and `PageImageValid` give: the preset data of a page is 1000 bytes |
| Presets.PageImage | braids/preset_storage.cc:111-124 | the page written after an erase is data, magic, generation and checksum, with the rest erased, one page long |
| Presets.PageImageParts | braids/preset_storage.cc:77-81 | the page image is the data followed by exactly the bytes Finalize writes, then erased bytes |
| Presets.PageImageValid | braids/preset_storage.cc:93-94 | a written page image passes Init's magic and checksum test and reads back its data and generation |
| Presets.SlotName | braids/preset_storage.h:79-82 | a slot name is four bytes, not NUL-terminated |
| Presets.SlotSettings | braids/preset_storage.h:47-50 | a slot's settings are 96 bytes |
| Presets.Splice | braids/preset_storage.cc:116-123 | the spliced data keeps its length; slots before and after the chosen slot are the source's, and the chosen slot is the new name and settings |
| Presets.SpliceSlots | braids/preset_storage.cc:116-123 | after the splice the chosen slot holds the new name and settings, and every other slot holds the source's name and settings |
| Presets.DefaultSlots | braids/preset_storage.cc:151-154 | definition, whose content `DefaultSlotsContent` gives: k default slots are k times 100 bytes |
| Presets.DefaultSlotsContent | braids/preset_storage.cc:151-154 | every default slot is a zero name followed by kInitSettings |
| Presets.ResetImage | braids/preset_storage.cc:145-158 | definition, whose pages `ResetPages` and `ResetSelected` characterise: the region after Reset is a whole region |
| Presets.Headers | braids/preset_storage.cc:90-94 | definition, whose entries `HeaderAt` gives: Init looks at one header per page |
| Presets.HeaderAt | braids/preset_storage.cc:91-94 | header i is page i's validity and generation |
| Presets.MaxGeneration | braids/preset_storage.cc:95-98 | the greatest generation among the valid pages, or 0: it bounds all of them and is attained |
| Presets.ScanStep | braids/preset_storage.cc:93-98 | one pass of the scan loop keeps "the chosen page is the selection so far, with the greatest generation so far" |
| Presets.NewestWins | braids/preset_storage.cc:95-98 | replacing a page by a valid page of a generation above every other valid page makes it the selection |
| Presets.ResetSelected | braids/preset_storage.cc:145-158 | after Reset, Init selects page 0 at generation 1, holding ten default slots |
| Presets.ResetPages | braids/preset_storage.cc:145-158 | after Reset page 0 is valid at generation 1 and every other page is erased and invalid |
| Presets.ErasedPageInvalid | braids/preset_storage.cc:93 | an erased page fails the magic test |
| Presets.SaveWinsSelection | braids/preset_storage.cc:105-127 | once a save from the selected page has written its new image one generation on at the next index, Init would select that page, and its generation is the greatest valid one |
| Presets.ErasePage | braids/preset_storage.cc:111 | erasing turns exactly the bytes of that page to 0xff |
| Presets.EraseRegion | braids/preset_storage.cc:147-148 | Reset's loop erases the whole region |
| Presets.ErasedTail | braids/preset_storage.cc:150-155 | writing into an erased region leaves the rest erased |
| Presets.ProgramWord | braids/preset_storage.cc:78-79 | programming a word writes its four bytes, lowest first, and nothing else |
| Presets.ProgramHalfWord | braids/preset_storage.cc:80 | programming a half-word writes its two bytes, lowest first, and nothing else |
| Presets.FlashWriteStream.constructor | braids/preset_storage.cc:52-53 | the writer starts at its address with checksum 0 |
| Presets.FlashWriteStream.Append | braids/preset_storage.cc:64-75 | the data is programmed from the current address, the address advances by its length, and the checksum folds in exactly its bytes |
| Presets.FlashWriteStream.Finalize | braids/preset_storage.cc:77-81 | magic, generation and the running checksum are programmed at +0, +4 and +8 |
| Presets.Restore | braids/preset_storage.cc:139-141 | four saved bytes are written back at their offset and nothing else changes |
| Presets.Loaded | braids/preset_storage.cc:129-143 | each byte is the stored settings' byte, except that without load_calibration the calibration fields keep their previous bytes |
| Presets.PresetStorage.constructor | braids/preset_storage.h:72 | the storage starts with page_index_ 0 over the given flash |
| Presets.PresetStorage.CurrentData | braids/preset_storage.h:94-96 | definition, whose slots `PresetName` and `Load` read: current_page()'s preset data is 1000 bytes |
| Presets.PresetStorage.PresetName | braids/preset_storage.h:79-82 | preset_name is the four name bytes of that slot of the current page |
| Presets.PresetStorage.Init | braids/preset_storage.cc:83-103 | with a valid page of nonzero generation, flash is untouched and page_index_ is the selected page; otherwise the region is reset and page_index_ is 0 |
| Presets.PresetStorage.ReadPage | braids/preset_storage.cc:91-94 | the fields read give exactly that page's header |
| Presets.PresetStorage.ScanPages | braids/preset_storage.cc:88-99 | the scan ends with the selected page and the greatest valid generation |
| Presets.PresetStorage.Load | braids/preset_storage.cc:129-143 | the record becomes the slot's stored settings, keeping the calibration fields unless they are to be loaded; flash and page_index_ are untouched |
| Presets.PresetStorage.Reset | braids/preset_storage.cc:145-158 | every page erased, page 0 written with ten default slots at generation 1, page_index_ 0 |
| Presets.PresetStorage.Save | braids/preset_storage.cc:105-127 | the next page becomes the source page's data with the slot spliced in, at the source generation plus one (mod 2^32); no other page changes; page_index_ moves to it |
| Presets.PresetStorage.CopySlots | braids/preset_storage.cc:116-123 | the appends of Save write exactly the spliced data into the target page |
| Presets.PresetStorage.CopyBefore | braids/preset_storage.cc:116-117 | the slots before the chosen one are copied from the source page |
| Presets.PresetStorage.CopyAfter | braids/preset_storage.cc:122-123 | the slots after the chosen one are copied from the source page |
| Presets.PresetStorage.FinishCopy | braids/preset_storage.cc:124 | the trailer completes the page image at the source generation plus one |
| Presets.PresetStorage.CopyAppend | braids/preset_storage.cc:117-123 | each append extends the copy in the target page and the checksum over it |
| Presets.CopyStart | braids/preset_storage.cc:111 | erasing the target page starts the copy with nothing written |
| Presets.CopyStep | braids/preset_storage.cc:68-71 | an append at the write position extends what the target page holds |
| Presets.CopySource | braids/preset_storage.cc:113-123 | while the copy is in progress, the source page reads as before the erase, because the target is a different page |
| Presets.SplicePieces | braids/preset_storage.cc:116-123 | the pieces Save appends (earlier slots, name, settings, later slots) make up the spliced data |
| Presets.CopyFinish | braids/preset_storage.cc:119-124 | the spliced data and trailer written after the erase are the page image |
| Presets.SourceSlice | braids/preset_storage.h:94-96 | reading through current_page() is reading the page's bytes |
| UserInterface.Elapsed | braids/ui.cc:71 | `now - since` on uint32_t is the elapsed time across a wrap of the millisecond counter |
| UserInterface.ButtonStep | braids/ui.cc:65-79 | a press restarts the timer and lifts the inhibition; at most one control per poll; the inhibition is set exactly by a long click |
| UserInterface.HoldControls | braids/ui.cc:65-79 | over polls without a new press, the controls are one long click if the button is ever held 800 ms, else a click if it is released at the end, else nothing; an inhibited tracker yields nothing |
| UserInterface.PressControls | braids/ui.cc:65-79 | one press yields exactly one long click when held for 800 ms, with no click on its release, and otherwise one click on release; earlier presses do not matter |
| UserInterface.ButtonEvents | braids/ui.cc:73-77 | definition, which `Ui.PollButton` appends: each control becomes an event with id 0 and data 0 |
| UserInterface.ReleaseDataIsDuration | braids/ui.cc:92-93 | a release's data is the held time plus one, and is 0 (read as a press) only after 2^32 - 1 ms |
| UserInterface.PressTimes | braids/ui.cc:87-90 | definition, which `Ui.PollSwitches` is proved to compute and `PressThenRelease` uses: a switch's press time becomes now exactly when it was just pressed |
| UserInterface.PressThenRelease | braids/ui.cc:86-95 | a press then a release yield a data-0 press event and a release event carrying the time between them plus one |
| UserInterface.EnterEditor | braids/ui.cc:245-250 | the cursor starts at 0, clean; the text's NUL becomes the 0xA0 end marker and nothing else changes |
| UserInterface.EnterEditorEditing | braids/ui.cc:245-250 | entering the editor starts an edit that has not finished |
| UserInterface.EnterEditorLengthens | braids/ui.cc:249-250 | the marker stays where the NUL was, so the string is longer until a click removes it |
| UserInterface.CStrLenAtLeast | braids/ui.cc:249 | a string with n nonzero leading characters has strlen at least n |
| UserInterface.EditorClick | braids/ui.cc:270-282 | a marquee click keeps the text length and a cursor inside it, touching nothing past character 62 |
| UserInterface.CStrLenAt | braids/ui.cc:283 | a NUL after nonzero characters is where strlen stops |
| UserInterface.EditorClickEnds | braids/ui.cc:268-288 | a click either continues the edit or ends it with the text NUL-terminated at the cursor, at most 62 characters long |
| UserInterface.MarqueeCharacter | braids/ui.cc:334-341 | the character wraps mod 256 and is clamped to ' '..'\xA0' |
| UserInterface.MarqueeCharacterStep | braids/ui.cc:334-341 | one detent moves a printable character by one and stops at either end, never wrapping |
| UserInterface.MenuIndex | braids/ui.cc:357-362 | the menu index moves by the rotation and is clamped to [0, SETTING_LAST - 1] |
| UserInterface.MenuIndexSteps | braids/ui.cc:357-362 | two unclamped rotations end where one rotation by their sum does |
| UserInterface.NextCvIndex | braids/ui.cc:302 | the CV debug index stays below CV_ADC_CHANNEL_LAST + POT_LAST and otherwise steps by one |
| UserInterface.CvIndexCycle | braids/ui.cc:302 | n clicks advance the index by n modulo 10 |
| UserInterface.CalibrationClick | braids/ui.cc:306-323 | a calibration click stays in calibration or goes to the menu; it saves the calibration, and goes to the menu, exactly from step 3 when Calibrate3V accepts |
| UserInterface.CalibrationRun | braids/ui.cc:306-323 | three clicks from step 1 call CalibrateOffsets, Calibrate1V, Calibrate3V in order, then save and reach the menu when accepted, or return to step 1 when not |
| UserInterface.LockedPotMask | braids/ui.cc:374-377 | the normal mode locks no pot and the AD mode locks all six |
| UserInterface.PotToggleTwice | braids/ui.cc:390-405 | two S1 presses restore the pot mode, one locking with mask 0x3f and the other unlocking |
| UserInterface.SplashTick | braids/ui.cc:444-450 | the splash frame steps by one and ends exactly at the eighth, back at frame 0 |
| UserInterface.SplashLength | braids/ui.cc:444-450 | from frame f the splash runs for exactly 8 - f idle refreshes |
| UserInterface.Ui.constructor | braids/braids.cc:63 | the zero-initialised global interface over the loaded settings, with an empty queue and no calls |
| UserInterface.Ui.Init | braids/ui.cc:42-59 | the display is blank at the brightness setting plus one, switch histories 0xff, empty queue, sub clock 0, a redraw pending, the splash with the oscillator shape selected, indices 0, the gate off, the pots free |
| UserInterface.Ui.InitEvents | braids/ui.cc:48-51 | empty queue, sub clock 0, a redraw pending |
| UserInterface.Ui.InitPages | braids/ui.cc:52-55 | the splash, with the oscillator shape selected and indices 0 |
| UserInterface.Ui.InitOutputs | braids/ui.cc:56-58 | the gate low, its LED timer 0, the pots in normal mode |
| UserInterface.Ui.InitDrivers | braids/ui.cc:43-47 | the display and switches start over, the display at the given brightness |
| UserInterface.Ui.Poll | braids/ui.cc:61-106 | the button's click or long click, then a rotation event, then each switch's press and release events are queued in that order; press times update; the display refreshes on even ticks only: there the active digit advances modulo the width when its PWM cycle is lit, and the 16 serial levels of that digit's segment word are returned, while odd ticks and unlit cycles send nothing and keep the position; the gate LED timer runs down; the LEDs show gate-or-timer and not-editing-the-shape |
| UserInterface.Ui.PollButton | braids/ui.cc:64-83 | the button's step and the rotation event |
| UserInterface.Ui.PollOutputs | braids/ui.cc:97-105 | the tick count; the refresh on even ticks, which advances the active digit and returns its 16 serial levels exactly when the PWM cycle is lit; the gate LED timer and the LED levels |
| UserInterface.Ui.PollSwitches | braids/ui.cc:85-95 | debounce all switches, then queue each switch's events in switch order |
| UserInterface.Ui.PollSwitch | braids/ui.cc:87-94 | a just-pressed switch queues a data-0 event and restarts its timer; a released one queues its held time plus one |
| UserInterface.Ui.FlushEvents | braids/ui.cc:138-140 | the queue is emptied |
| UserInterface.Ui.OnLongClick | braids/ui.cc:235-260 | marquee editor: save and back to the menu; menu on calibration: step 1; on marquee: the editor entered; on version: settings reset to the defaults and saved; anything else changes nothing |
| UserInterface.Ui.LongClickMenu | braids/ui.cc:242-254 | the menu part of OnLongClick |
| UserInterface.Ui.EnterMarquee | braids/ui.cc:245-250 | the editor opens on the text with its NUL marked |
| UserInterface.Ui.OnClick | braids/ui.cc:262-328 | edit to menu; marquee click per EditorClick, saving and leaving when it finishes; menu opens an editable setting (saving on the oscillator shape), shows the splash for version, resets or steps the CV index on the CV pages; calibration per CalibrationClick; the splash ignores clicks |
| UserInterface.Ui.ClickMenu | braids/ui.cc:290-304 | the menu part of OnClick |
| UserInterface.Ui.ClickCalibration | braids/ui.cc:306-323 | the calibration part of OnClick |
| UserInterface.Ui.ClickMarquee | braids/ui.cc:268-288 | the marquee part of OnClick; the edit stays well-formed |
| UserInterface.Ui.OnIncrement | braids/ui.cc:330-372 | marquee: the character under the cursor turns and is marked dirty; edit: the setting takes its clipped new value and the display follows brightness + 1; menu: the index moves clamped, the setting follows it, and the marquee step and CV index reset; other modes ignore it |
| UserInterface.Ui.IncrementCharacter | braids/ui.cc:332-344 | the marquee part of OnIncrement |
| UserInterface.Ui.IncrementValue | braids/ui.cc:346-353 | the edit part of OnIncrement |
| UserInterface.Ui.IncrementMenu | braids/ui.cc:355-367 | the menu part of OnIncrement |
| UserInterface.Ui.OnSwitchPressed | braids/ui.cc:388-412 | S1 flips the pot mode, locking (mask 0x3f) or unlocking the pots; the gate switch raises the gate |
| UserInterface.Ui.OnSwitchReleased | braids/ui.cc:414-421 | only the gate switch's release lowers the gate |
| UserInterface.Ui.Dispatch | braids/ui.cc:425-439 | a switch event with data 0 goes to the press handler: the gate switch sets the gate, S1 toggles the pot mode and logs its call; a switch event with other data goes to the release handler, which clears the gate for the gate switch; events of other types leave the gate and the pot mode alone; the interface stays well-formed |
| UserInterface.Ui.DoEvents | braids/ui.cc:423-471 | the queue is drained; any handled event, a pending refresh or over 1000 ms idle forces a redraw; with no events the redraw happens exactly on a pending refresh or an idle trigger; 50 ms idle advances the splash, ending it in the oscillator shape's editor; a redraw clears the blink and the refresh flag |
| UserInterface.Ui.HandleEvent | braids/ui.cc:425-439 | the oldest event leaves the queue and a redraw is requested |
| UserInterface.Ui.IdleEvents | braids/ui.cc:441-470 | the idle checks and the redraw after the queue is drained |
| UserInterface.Ui.AdvanceSplash | braids/ui.cc:444-451 | the splash's next frame, per SplashTick |

## Left out

- Register, GPIO, DMA, SPI and timer plumbing is left out: `Dac::Write`, the pin writes of `Refresh`, `leds_.Write`, `pressed_immediate`, the ADC's `Init` and `Convert`, and `debug_pin`. The DAC code, the serial data-pin levels and the LED levels are returned as values. Pin readings, raw ADC conversions, the encoder's reading and the clock are parameters.
- Flash NOR semantics (program only clearing bits), power loss during a save, and wear are not modelled. Erase and program overwrite bytes of an array.
- The interrupt and the main loop are not concurrent in the model: `Tick` and `RenderBlock` are atomic steps, and `volatile` ordering is not modelled.
- `Ui::PollPots` and the lock values of `OnSwitchPressed` use floating point. They are left out; `LockPots` is logged with its mask only.
- `Ui::RefreshDisplay` is presentation (glyphs and scrolling text) and is left out, as are `queue_.Touch` and `ui.UpdateCv`.
- The collaborators whose code is not part of this model are left out: the oscillator, envelope, waveshaper, jitter source and detune table; the settings' pitch and FM curves, `Clip`, `SaveState` and `SaveCalibration`; the CV scaler's calibration and lock calls; the event queue; the system clock. Their results are parameters (`Collaborators`, `clip`, `accepted`, `idleTime`, `metaModulation`) and their calls are recorded as `Call` values. The settings' `Reset` is not logged: it is modelled as restoring the `initialValues` and `initialMarquee` the interface was built with.
- encoder.h, ui.h, settings.h, settings.cc, display.h, resources.cc and stmlib are not part of this model. The setting and switch enumerators, SETTING_LAST, the menu order, kInitSettings, the calibration field offsets, kBrightnessLevels and the font are fixed when the objects are built.
- The event queue is unbounded; the firmware's event queue capacity is not part of this model.
- Braids.Collaborators: the settings' `adc_to_pitch` and `adc_to_fm` curves (settings.h, not part of this model) are taken to return int16_t values, which `Braids.Quantize` then takes. The source stores them in `int32_t` (braids.cc:255-262), and the model does not capture the overflow a wider curve could cause in `pitch + 32`, `pitch + 64` or the FM sum.
- Braids.ComputeControls: `values[VALUE_PARAM2] << 3` (braids.cc:242) is passed on as an unbounded integer, and its truncation to the int16_t of `set_parameters` is not modelled. `ui.StepMarquee()` (braids.cc:295) is not modelled either: it sits under `trigger_flag`, which only the disabled `#if 0` code sets.
- Braids.Firmware.RenderPending: the loop is proved with playback frozen, since the model has no interrupt inside a render. The interleaving is covered step by step instead: `TickPending` and `TicksPending` for interrupts, and `RenderBlock` for a render. When playback gets a full lap of four blocks ahead between two checks, the loop reads it as caught up (`LapUndetected`).
- CvScaling.CvScaler.Smooth: computes in unbounded integers; the int32_t intermediate is proved not to overflow only for 17-bit state and input and a window of at most 2^14 samples.
- The trigger-delay block under `#if 0` and the `DAC_TEST` branch are disabled code and are left out.
- UserInterface.EnterEditor: a marquee text without a NUL would make strlen and the marker write run past the buffer; the model leaves such a text unchanged.
- UserInterface.Ui.Poll: `sub_clock_` is an unbounded counter, and its increment is taken after the button and switch handling; nothing in between reads it.
- UserInterface.Ui.DoEvents: states the drained queue and the idle effects, but not the combined effect of the handled events; each handler states its own.
- UserInterface.Ui.Dispatch: states the switch routing and the gate and pot-mode effects, but for encoder events only that the interface stays well-formed; the encoder handlers carry their own contracts.
- `setting_index_` is an unbounded integer; its width is not part of this model.
- Presets.FlashWriteStream.Append: requires a length that is a multiple of 4, as all its callers pass (4, 96, k * 100). For other lengths the source programs a rounded-up word count and reads past the data.
- Presets.SaveWinsSelection: requires the source generation to be below 0xffffffff. At that generation the uint32_t increment wraps to 0, and the new page loses the selection. `Save` itself models the wrap.
- Braids.Parameter1: states the exact value only for pot values below 0x1000; above that only the bound, with the wrap exhibited by `Parameter1Wraps`.
- Braids.ControlsProperties: says nothing about the flattened pitch, which comes from the detune table outside this model.
- Braids.Firmware.Tick: the update flag's clearing is a register write and is not modelled.
