// The four-character 14-segment display driver: a character buffer and a
// decimal-point flag per position, multiplexed one position at a time and
// dimmed by skipping refreshes according to a PWM cycle counter.

module DisplayDriver {
  import opened FixedWidth

  /** One character-enable pin per position. */
  const DisplayWidth := 4
  const Space: uint8 := 0x20

  /** `chr |= 0x02` when the position's decimal point is on: bit 1 (the
      decimal-point segment) is set and every other bit of the glyph is
      kept; without the decimal point the glyph goes out as it is. */
  function SegmentWord(glyph: uint16, decimalPoint: bool): (w: uint16)
    ensures decimalPoint ==> w % 4 / 2 == 1 && w / 4 == glyph / 4 && w % 2 == glyph % 2
    ensures !decimalPoint ==> w == glyph
  {
    OrTwo(glyph);
    if decimalPoint then BitOr(glyph, 2) else glyph
  }

  /** The bits Shift14SegmentsWord clocks out, least significant first. */
  function SerialBits(data: nat, n: nat): (bits: seq<bool>)
    ensures |bits| == n
  {
    if n == 0 then [] else [data % 2 == 1] + SerialBits(data / 2, n - 1)
  }

  /** What the shift-register chain holds after receiving bits, the first
      one received ending up as the least significant bit. */
  function Received(bits: seq<bool>): nat
  {
    if |bits| == 0 then 0 else (if bits[0] then 1 else 0) + 2 * Received(bits[1..])
  }

  /** The serial transfer delivers the word: the i-th bit sent is bit i of
      the word, and the receiver reassembles exactly the word. */
  lemma {:induction false} SerialRoundTrip(data: nat, n: nat)
    requires data < Pow2(n)
    ensures Received(SerialBits(data, n)) == data
    ensures forall i :: 0 <= i < n ==> SerialBits(data, n)[i] == Bit(data, i)
  {
    if n > 0 {
      SerialRoundTrip(data / 2, n - 1);
      var bits := SerialBits(data, n);
      assert bits[1..] == SerialBits(data / 2, n - 1);
      forall i | 0 <= i < n
        ensures bits[i] == Bit(data, i)
      {
        if i > 0 {
          assert bits[i] == SerialBits(data / 2, n - 1)[i - 1];
        }
      }
    }
  }

  /** Shift14SegmentsWord: sixteen clock pulses, each putting the word's
      lowest remaining bit on the data pin before shifting it right. The
      GPIO writes become the returned sequence of data-pin levels. */
  method Shift14SegmentsWord(data: uint16) returns (sent: seq<bool>)
    ensures sent == SerialBits(data, 16)
  {
    var d: nat := data;
    sent := [];
    for i := 0 to 16
      invariant sent + SerialBits(d, 16 - i) == SerialBits(data, 16)
    {
      assert SerialBits(d, 16 - i) == [d % 2 == 1] + SerialBits(d / 2, 16 - i - 1);
      sent := sent + [d % 2 == 1];
      d := d / 2;
    }
  }

  /** strlen on a character sequence, reading past its end as the
      terminating NUL. */
  function CStrLen(s: seq<uint8>): (n: nat)
    ensures n <= |s| && (n < |s| ==> s[n] == 0)
    ensures forall i :: 0 <= i < n ==> s[i] != 0
  {
    if |s| == 0 || s[0] == 0 then 0 else 1 + CStrLen(s[1..])
  }

  /** strncpy(dst, s, n): the first n characters of s up to its NUL, the
      rest of the n filled with NUL. */
  function StrNCopy(s: seq<uint8>, n: nat): (r: seq<uint8>)
    ensures |r| == n
    ensures var m := if CStrLen(s) < n then CStrLen(s) else n;
      r[..m] == s[..m] && forall i :: m <= i < n ==> r[i] == 0
  {
    var len := CStrLen(s);
    seq(n, i requires 0 <= i < n => if i < len then s[i] else 0)
  }

  /** The number of refreshes that light a character among n refreshes
      starting at PWM cycle `cycle`. */
  function LitRefreshes(cycle: nat, brightness: nat, levels: nat, n: nat): nat
    requires levels > 0
    decreases n
  {
    if n == 0 then 0 else
      var lit := if cycle <= brightness then 1 else 0;
      lit + LitRefreshes((cycle + 1) % levels, brightness, levels, n - 1)
  }

  /** Over one full PWM period from cycle c, exactly the cycles c .. brightness
      light a character. */
  lemma {:induction false} LitRefreshesTail(c: nat, brightness: nat, levels: nat)
    requires c <= levels && levels > 0
    ensures LitRefreshes(c, brightness, levels, levels - c)
      == (if brightness + 1 <= c then 0 else if brightness + 1 <= levels then brightness + 1 - c else levels - c)
    decreases levels - c
  {
    if c < levels {
      if c + 1 < levels {
        assert (c + 1) % levels == c + 1;
      }
      LitRefreshesTail(c + 1, brightness, levels);
    }
  }

  /** Brightness is a duty cycle: in every period of kBrightnessLevels
      refreshes from cycle 0, min(brightness + 1, levels) of them light a
      position. */
  lemma DutyCycle(brightness: nat, levels: nat)
    requires levels > 0
    ensures LitRefreshes(0, brightness, levels, levels)
      == (if brightness + 1 <= levels then brightness + 1 else levels)
  {
    LitRefreshesTail(0, brightness, levels);
  }

  class Display {
    /** buffer_[kDisplayWidth]: the characters shown, as the unsigned bytes
        that index the font. */
    const buffer: array<uint8>
    /** decimal_[kDisplayWidth] */
    const decimal: array<bool>
    var activePosition: nat
    var brightnessPwmCycle: nat
    var brightness: nat
    /** kBrightnessLevels and the chr_characters font: display.h and
        resources.cc are not part of this model, so both are fixed when the
        driver is built. */
    const brightnessLevels: nat
    const font: seq<uint16>

    ghost predicate Valid()
      reads this
    {
      buffer.Length == DisplayWidth && decimal.Length == DisplayWidth
      && activePosition < DisplayWidth && brightnessLevels > 0
      && brightnessPwmCycle < brightnessLevels && |font| == 0x100
    }

    /** The driver is a zero-initialised global. */
    constructor (levels: nat, glyphs: seq<uint16>)
      requires levels > 0 && |glyphs| == 0x100
      ensures Valid() && fresh(buffer) && fresh(decimal)
      ensures brightnessLevels == levels && font == glyphs
      ensures activePosition == 0 && brightnessPwmCycle == 0 && brightness == 0
    {
      buffer := new uint8[DisplayWidth](_ => 0);
      decimal := new bool[DisplayWidth](_ => false);
      activePosition := 0;
      brightnessPwmCycle := 0;
      brightness := 0;
      brightnessLevels := levels;
      font := glyphs;
    }

    /** Init: blank buffer, no decimal points, position and PWM cycle 0,
        brightness 3. */
    method Init()
      requires Valid()
      modifies this, buffer, decimal
      ensures Valid()
      ensures activePosition == 0 && brightnessPwmCycle == 0 && brightness == 3
      ensures forall i :: 0 <= i < DisplayWidth ==> buffer[i] == Space && !decimal[i]
    {
      activePosition := 0;
      brightnessPwmCycle := 0;
      brightness := 3;
      forall i | 0 <= i < DisplayWidth {
        buffer[i] := Space;
      }
      ClearDecimals();
    }

    /** set_brightness (an inline setter of display.h): stores the level. */
    method SetBrightness(level: nat)
      requires Valid()
      modifies this`brightness
      ensures brightness == level
    {
      brightness := level;
    }

    /** Refresh: while the PWM cycle is at most the brightness, move to the
        next position and shift out its segment word (the data-pin levels
        are returned); otherwise keep the position dark and send nothing. The PWM
        cycle always advances. */
    method Refresh() returns (sent: seq<bool>)
      requires Valid()
      modifies this`activePosition, this`brightnessPwmCycle
      ensures Valid()
      ensures activePosition == (if old(brightnessPwmCycle) <= brightness
        then (old(activePosition) + 1) % DisplayWidth else old(activePosition))
      ensures brightnessPwmCycle == (old(brightnessPwmCycle) + 1) % brightnessLevels
      ensures sent == (if old(brightnessPwmCycle) <= brightness
        then SerialBits(SegmentWord(font[buffer[activePosition]], decimal[activePosition]), 16) else [])
    {
      if brightnessPwmCycle <= brightness {
        activePosition := (activePosition + 1) % DisplayWidth;
        var chr := font[buffer[activePosition]];
        if decimal[activePosition] {
          chr := SegmentWord(chr, true);
        }
        sent := Shift14SegmentsWord(chr);
      } else {
        sent := [];
      }
      brightnessPwmCycle := (brightnessPwmCycle + 1) % brightnessLevels;
    }

    /** Print: strncpy of the string into the buffer. */
    method Print(s: seq<uint8>)
      requires Valid()
      modifies buffer
      ensures buffer[..] == StrNCopy(s, DisplayWidth)
    {
      var text := StrNCopy(s, DisplayWidth);
      forall i | 0 <= i < DisplayWidth {
        buffer[i] := text[i];
      }
    }

    /** clear_decimals: every decimal point off. */
    method ClearDecimals()
      requires Valid()
      modifies decimal
      ensures forall i :: 0 <= i < DisplayWidth ==> !decimal[i]
    {
      forall i | 0 <= i < DisplayWidth {
        decimal[i] := false;
      }
    }

    /** set_decimal_hex: the decimal points show the low four bits of the
        value, bit 0 on the rightmost position. */
    method SetDecimalHex(value: uint16)
      requires Valid()
      modifies decimal
      ensures forall i :: 0 <= i < DisplayWidth ==> decimal[DisplayWidth - 1 - i] == Bit(value, i)
    {
      for i := 0 to DisplayWidth
        invariant forall j :: 0 <= j < i ==> decimal[DisplayWidth - 1 - j] == Bit(value, j)
      {
        AndPow2(value, i);
        decimal[DisplayWidth - 1 - i] := BitAnd(value, Pow2(i)) != 0;
      }
    }
  }
}
