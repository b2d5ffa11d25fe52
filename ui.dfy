// The user interface: Poll turns the encoder button, the encoder's rotation
// and the two switches into queued events (a held button becoming one long
// click), and DoEvents drains the queue through the mode state machine:
// editing a setting, browsing the menu, the marquee editor, the three
// calibration steps and the splash animation.

module UserInterface {
  import opened FixedWidth
  import opened DisplayDriver
  import opened SwitchesDriver
  import CvAdcDriver

  const EncoderLongPressTime: uint32 := 800
  /** POT_LAST: the six potentiometers of the pots ADC driver. */
  const PotLast := 6
  /** The CV debug page cycles through the four CV channels and the six pots. */
  const CvDebugChannels := CvAdcDriver.CvAdcChannelLast + PotLast
  const SplashFrames := 8
  /** Idle times (ms) after which DoEvents redraws. */
  const SlowRefreshTime := 1000
  const AnimationTime := 50

  /** The marquee editor's cursor never passes 61; a click there ends the
      text at 62. The end-of-text marker '\xA0' stands where the NUL was
      while the text is edited. */
  const MarqueeLastCharacter := 61
  const MarqueeEnd: uint8 := 0xA0

  datatype Mode = Edit | Menu | MarqueeEditor
    | CalibrationStep1 | CalibrationStep2 | CalibrationStep3 | Splash
  datatype PotMode = Normal | Ad
  datatype ControlType = EncoderClick | EncoderLongClick | EncoderTurn | SwitchControl
  datatype Event = Event(controlType: ControlType, controlId: nat, data: int)

  /** The calls the interface makes into the CV scaler and into the
      settings' persistence, whose effects lie outside the interface. */
  datatype Call = SaveState | SaveCalibration | CalibrateOffsets | Calibrate1V
    | Calibrate3V | LockPots(mask: uint16) | UnlockPots

  /** The enumerators of Setting and SwitchIndex the interface tests: ui.h
      and settings.h are not part of this model, so their values are fixed
      when the interface is built. `count` is SETTING_LAST. */
  datatype Identifiers = Identifiers(
    oscillatorShape: nat, brightness: nat, lastEditable: nat,
    calibration: nat, cvTester: nat, cvDebug: nat, marquee: nat, version: nat,
    count: nat, switchS1: nat, switchGate: nat)
  {
    predicate WellFormed()
    {
      oscillatorShape <= lastEditable && brightness <= lastEditable
      && lastEditable < calibration < count && lastEditable < cvTester < count
      && lastEditable < cvDebug < count && lastEditable < marquee < count
      && lastEditable < version < count
      && calibration != cvTester && calibration != cvDebug && calibration != marquee
      && calibration != version && cvTester != cvDebug && cvTester != marquee
      && cvTester != version && cvDebug != marquee && cvDebug != version
      && marquee != version
      && switchS1 < NumSwitches && switchGate < NumSwitches && switchS1 != switchGate
    }
  }

  // ---------------------------------------------------------------------
  // The encoder button: clicks and long clicks

  /** What the encoder driver reports on one poll: the three tests of its
      debounced button and the rotation since the previous poll. encoder.h
      is not part of this model; the readings are inputs. */
  datatype EncoderReading = EncoderReading(justPressed: bool, pressed: bool, released: bool, increment: int)

  /** A debounced button is in at most one of the three states at a time,
      as the switch histories are (0x80, 0x00 and 0x7f). */
  predicate Exclusive(x: EncoderReading)
  {
    !(x.justPressed && x.pressed) && !(x.justPressed && x.released) && !(x.pressed && x.released)
  }

  /** encoder_press_time_ and inhibit_further_switch_events_ */
  datatype PressTracker = PressTracker(pressTime: uint32, inhibit: bool)

  /** `now - since` on uint32_t: the time since `since`, across a wrap of
      the millisecond counter. */
  function Elapsed(now: uint32, since: uint32): (d: uint32)
    ensures since <= now ==> d == now - since
    ensures now < since ==> d == 0x1_0000_0000 - since + now
  {
    (now - since) % 0x1_0000_0000
  }

  /** One poll of the button: a press restarts the timer and lifts the
      inhibition; while not inhibited, a button held for 800 ms yields a
      long click and inhibits, and a release yields a click. */
  function ButtonStep(t: PressTracker, x: EncoderReading, now: uint32): (r: (PressTracker, seq<ControlType>))
    ensures r.0.pressTime == (if x.justPressed then now else t.pressTime)
    ensures r.0.inhibit <==> (if x.justPressed then false else t.inhibit) || r.1 == [EncoderLongClick]
    ensures r.1 == [] || r.1 == [EncoderLongClick] || r.1 == [EncoderClick]
  {
    var t := if x.justPressed then PressTracker(now, false) else t;
    if t.inhibit then (t, [])
    else if x.pressed then
      if Elapsed(now, t.pressTime) >= EncoderLongPressTime then (t.(inhibit := true), [EncoderLongClick])
      else (t, [])
    else if x.released then (t, [EncoderClick])
    else (t, [])
  }

  /** The controls a run of polls yields. */
  function ButtonControls(t: PressTracker, xs: seq<EncoderReading>, times: seq<uint32>): seq<ControlType>
    requires |xs| == |times|
    decreases |xs|
  {
    if |xs| == 0 then []
    else
      var r := ButtonStep(t, xs[0], times[0]);
      r.1 + ButtonControls(r.0, xs[1..], times[1..])
  }

  /** Some poll finds the button held for at least 800 ms since t0. */
  ghost predicate HeldLong(xs: seq<EncoderReading>, times: seq<uint32>, t0: uint32)
    requires |xs| == |times|
  {
    exists i :: 0 <= i < |xs| && xs[i].pressed && Elapsed(times[i], t0) >= EncoderLongPressTime
  }

  /** The polls of one press of the button: it is pressed at the first
      poll and not again, and released at most at the last. */
  ghost predicate OnePress(xs: seq<EncoderReading>)
  {
    |xs| > 0 && xs[0].justPressed
    && (forall i :: 0 <= i < |xs| ==> Exclusive(xs[i]))
    && (forall i :: 1 <= i < |xs| ==> !xs[i].justPressed)
    && (forall i :: 0 <= i < |xs| - 1 ==> !xs[i].released)
  }

  lemma {:induction false} HoldControls(t: PressTracker, xs: seq<EncoderReading>, times: seq<uint32>)
    requires |xs| == |times|
    requires forall i :: 0 <= i < |xs| ==> !xs[i].justPressed && !(xs[i].pressed && xs[i].released)
    requires forall i :: 0 <= i < |xs| - 1 ==> !xs[i].released
    ensures ButtonControls(t, xs, times) ==
      if t.inhibit then []
      else if HeldLong(xs, times, t.pressTime) then [EncoderLongClick]
      else if |xs| > 0 && xs[|xs| - 1].released then [EncoderClick]
      else []
    decreases |xs|
  {
    if |xs| > 0 {
      var r := ButtonStep(t, xs[0], times[0]);
      HoldControls(r.0, xs[1..], times[1..]);
      if !t.inhibit {
        var longNow := xs[0].pressed && Elapsed(times[0], t.pressTime) >= EncoderLongPressTime;
        if longNow {
          assert HeldLong(xs, times, t.pressTime);
        } else {
          assert r.0 == t;
          assert HeldLong(xs, times, t.pressTime) <==> HeldLong(xs[1..], times[1..], t.pressTime) by {
            if HeldLong(xs, times, t.pressTime) {
              var i :| 0 <= i < |xs| && xs[i].pressed && Elapsed(times[i], t.pressTime) >= EncoderLongPressTime;
              assert i > 0 && xs[1..][i - 1] == xs[i] && times[1..][i - 1] == times[i];
            }
            if HeldLong(xs[1..], times[1..], t.pressTime) {
              var i :| 0 <= i < |xs| - 1 && xs[1..][i].pressed && Elapsed(times[1..][i], t.pressTime) >= EncoderLongPressTime;
              assert xs[i + 1] == xs[1..][i];
            }
          }
          if |xs| > 1 {
            assert !xs[0].released;
            assert xs[1..][|xs| - 2] == xs[|xs| - 1];
          }
        }
      }
    }
  }

  /** One press yields exactly one control: a long click when the button
      is held for 800 ms, and then no click on its release; otherwise a
      click if it is released. Whatever the earlier presses left behind
      does not matter. */
  lemma PressControls(t: PressTracker, xs: seq<EncoderReading>, times: seq<uint32>)
    requires |xs| == |times| && OnePress(xs)
    ensures ButtonControls(t, xs, times) ==
      if HeldLong(xs, times, times[0]) then [EncoderLongClick]
      else if xs[|xs| - 1].released then [EncoderClick]
      else []
  {
    var r := ButtonStep(t, xs[0], times[0]);
    assert r == (PressTracker(times[0], false), []);
    assert Exclusive(xs[0]);
    forall i | 0 <= i < |xs| - 1
      ensures !xs[1..][i].justPressed && !(xs[1..][i].pressed && xs[1..][i].released)
    {
      assert xs[1..][i] == xs[i + 1] && Exclusive(xs[i + 1]);
    }
    forall i | 0 <= i < |xs| - 2
      ensures !xs[1..][i].released
    {
      assert xs[1..][i] == xs[i + 1];
    }
    HoldControls(r.0, xs[1..], times[1..]);
    assert HeldLong(xs, times, times[0]) <==> HeldLong(xs[1..], times[1..], times[0]) by {
      if HeldLong(xs, times, times[0]) {
        var i :| 0 <= i < |xs| && xs[i].pressed && Elapsed(times[i], times[0]) >= EncoderLongPressTime;
        assert i > 0 && xs[1..][i - 1] == xs[i] && times[1..][i - 1] == times[i];
      }
      if HeldLong(xs[1..], times[1..], times[0]) {
        var i :| 0 <= i < |xs| - 1 && xs[1..][i].pressed && Elapsed(times[1..][i], times[0]) >= EncoderLongPressTime;
        assert xs[i + 1] == xs[1..][i];
      }
    }
    if |xs| > 1 {
      assert xs[1..][|xs| - 2] == xs[|xs| - 1];
    }
  }

  function ButtonEvents(controls: seq<ControlType>): (es: seq<Event>)
    ensures |es| == |controls|
    ensures forall i :: 0 <= i < |es| ==> es[i] == Event(controls[i], 0, 0)
  {
    seq(|controls|, i requires 0 <= i < |controls| => Event(controls[i], 0, 0))
  }

  // ---------------------------------------------------------------------
  // The switches

  /** `milliseconds() - switch_press_time_[i] + 1` on uint32_t: the data of
      a release event. */
  function ReleaseData(now: uint32, pressTime: uint32): uint32
  {
    (Elapsed(now, pressTime) + 1) % 0x1_0000_0000
  }

  /** A release event's data is the press duration plus one, so DoEvents,
      which reads data 0 as a press, takes every release for a release -
      except after a press of 2^32 - 1 ms, whose count wraps to 0. */
  lemma ReleaseDataIsDuration(now: uint32, pressTime: uint32)
    ensures Elapsed(now, pressTime) < 0xffff_ffff ==> ReleaseData(now, pressTime) == Elapsed(now, pressTime) + 1
    ensures ReleaseData(now, pressTime) == 0 <==> Elapsed(now, pressTime) == 0xffff_ffff
  {
  }

  /** The events of switch i after debouncing: a press, with data 0, and a
      release, with the time it was held. */
  function SwitchEventsOf(i: nat, state: uint8, pressTime: uint32, now: uint32): seq<Event>
  {
    (if IsJustPressed(state) then [Event(SwitchControl, i, 0)] else [])
    + (if IsReleased(state) then [Event(SwitchControl, i, ReleaseData(now, pressTime))] else [])
  }

  /** The events of switches 0 .. n-1, in switch order. */
  function SwitchEvents(states: seq<uint8>, pressTimes: seq<uint32>, now: uint32, n: nat): seq<Event>
    requires n <= |states| && n <= |pressTimes|
  {
    if n == 0 then []
    else SwitchEvents(states, pressTimes, now, n - 1) + SwitchEventsOf(n - 1, states[n - 1], pressTimes[n - 1], now)
  }

  /** A switch's press time is the poll at which it was last pressed. */
  function PressTimes(states: seq<uint8>, pressTimes: seq<uint32>, now: uint32): (r: seq<uint32>)
    requires |states| == |pressTimes|
    ensures |r| == |pressTimes|
    ensures forall i :: 0 <= i < |r| ==> r[i] == if IsJustPressed(states[i]) then now else pressTimes[i]
  {
    seq(|pressTimes|, i requires 0 <= i < |pressTimes| => if IsJustPressed(states[i]) then now else pressTimes[i])
  }

  /** A switch pressed and let go yields a press event with data 0, then a
      release event whose data is the time between the two polls plus one. */
  lemma PressThenRelease(i: nat, pressTimes: seq<uint32>, t0: uint32, t1: uint32)
    requires i < |pressTimes|
    ensures var times := PressTimes([0x80], [pressTimes[i]], t0);
      SwitchEventsOf(i, 0x80, pressTimes[i], t0) == [Event(SwitchControl, i, 0)]
      && SwitchEventsOf(i, 0x7f, times[0], t1) == [Event(SwitchControl, i, ReleaseData(t1, t0))]
  {
  }

  // ---------------------------------------------------------------------
  // Pure parts of the event handlers

  /** The marquee editor: the text, the cursor and whether the character
      under the cursor was changed. */
  datatype Editor = Editor(text: seq<uint8>, cursor: nat, dirty: bool)

  /** While editing, the cursor is at most 61 and no character up to it is
      a NUL, so the text runs at least to the cursor. */
  ghost predicate Editing(e: Editor)
  {
    e.cursor <= MarqueeLastCharacter && MarqueeLastCharacter + 1 < |e.text|
    && forall i :: 0 <= i <= e.cursor ==> e.text[i] != 0
  }

  /** The edit ends when the cursor lands on a NUL. */
  predicate Finished(e: Editor)
    requires e.cursor < |e.text|
  {
    e.text[e.cursor] == 0
  }

  /** A long click on the marquee setting: the text's NUL becomes the
      end-of-text marker, and the cursor starts on the first character.
      A text without a NUL would send strlen and the marker past the
      buffer; the model leaves such a text as it is. */
  function EnterEditor(text: seq<uint8>): (e: Editor)
    ensures e.cursor == 0 && !e.dirty && |e.text| == |text|
    ensures var n := CStrLen(text);
      n < |text| ==> e.text[..n] == text[..n] && e.text[n] == MarqueeEnd && e.text[n + 1..] == text[n + 1..]
  {
    var n := CStrLen(text);
    Editor(if n < |text| then text[n := MarqueeEnd] else text, 0, false)
  }

  /** Entering the editor starts an edit. */
  lemma EnterEditorEditing(text: seq<uint8>)
    requires MarqueeLastCharacter + 1 < |text|
    ensures Editing(EnterEditor(text)) && !Finished(EnterEditor(text))
  {
  }

  /** The marker takes the place of the NUL and stays in the text until a
      click removes it: once the editor is entered, the string is longer by
      at least the marker, whatever follows. */
  lemma EnterEditorLengthens(text: seq<uint8>)
    requires CStrLen(text) < |text|
    ensures var e := EnterEditor(text); CStrLen(e.text) > CStrLen(text)
    ensures var e := EnterEditor(text); forall i :: 0 <= i <= CStrLen(text) ==> e.text[i] != 0
  {
    var n := CStrLen(text);
    var e := EnterEditor(text);
    assert forall i :: 0 <= i <= n ==> e.text[i] != 0;
    CStrLenAtLeast(e.text, n + 1);
  }

  lemma {:induction false} CStrLenAtLeast(s: seq<uint8>, n: nat)
    requires n <= |s| && forall i :: 0 <= i < n ==> s[i] != 0
    ensures CStrLen(s) >= n
  {
    if n > 0 {
      forall i | 0 <= i < n - 1
        ensures s[1..][i] != 0
      {
        assert s[1..][i] == s[i + 1];
      }
      CStrLenAtLeast(s[1..], n - 1);
    }
  }

  /** A click in the marquee editor: at the last position the text ends
      after it; on the end marker the text ends there; otherwise the cursor
      moves on, carrying a changed character along as the next one. */
  function EditorClick(e: Editor): (r: Editor)
    requires e.cursor <= MarqueeLastCharacter && |e.text| > MarqueeLastCharacter + 1
    ensures |r.text| == |e.text| && r.cursor < |r.text|
    ensures forall i :: MarqueeLastCharacter + 1 < i < |e.text| ==> r.text[i] == e.text[i]
  {
    if e.cursor == MarqueeLastCharacter then
      e.(cursor := e.cursor + 1, text := e.text[e.cursor + 1 := 0])
    else if e.text[e.cursor] == MarqueeEnd then
      e.(text := e.text[e.cursor := 0])
    else
      var text := if e.dirty then e.text[e.cursor + 1 := e.text[e.cursor]] else e.text;
      e.(text := text, cursor := e.cursor + 1, dirty := false)
  }

  lemma {:induction false} CStrLenAt(s: seq<uint8>, n: nat)
    requires n < |s| && s[n] == 0 && forall i :: 0 <= i < n ==> s[i] != 0
    ensures CStrLen(s) == n
  {
    if n > 0 {
      assert s[1..][n - 1] == s[n];
      forall i | 0 <= i < n - 1
        ensures s[1..][i] != 0
      {
        assert s[1..][i] == s[i + 1];
      }
      CStrLenAt(s[1..], n - 1);
    }
  }

  /** A click either keeps the edit going or ends it with the text
      NUL-terminated at the cursor, at most 62 characters long: the edit
      always leaves a proper string behind. */
  lemma EditorClickEnds(e: Editor)
    requires Editing(e)
    ensures var r := EditorClick(e);
      if Finished(r) then CStrLen(r.text) == r.cursor <= MarqueeLastCharacter + 1
      else Editing(r)
  {
    var r := EditorClick(e);
    forall i | 0 <= i < r.cursor
      ensures r.text[i] != 0
    {
      assert i <= e.cursor;
    }
    if Finished(r) {
      CStrLenAt(r.text, r.cursor);
    }
  }

  /** `c += e.data` on the (unsigned) char wraps modulo 256; the result is
      then clamped to the printable span ' ' .. '\xA0'. */
  function MarqueeCharacter(c: uint8, delta: int): (r: uint8)
    ensures Space <= r <= MarqueeEnd
    ensures Space < (c + delta) % 0x100 < MarqueeEnd ==> r == (c + delta) % 0x100
  {
    var w := (c + delta) % 0x100;
    if w <= Space then Space else if w >= MarqueeEnd then MarqueeEnd else w
  }

  /** One detent moves a printable character by one and stops at either
      end of the span: stepping a character never wraps around. */
  lemma MarqueeCharacterStep(c: uint8, delta: int)
    requires Space <= c <= MarqueeEnd && (delta == 1 || delta == -1)
    ensures MarqueeCharacter(c, delta) ==
      if c + delta < Space then Space else if c + delta > MarqueeEnd then MarqueeEnd else c + delta
  {
  }

  /** setting_index_ after an increment: moved by the rotation and clamped
      to the menu. */
  function MenuIndex(index: int, delta: int, count: nat): (r: int)
    requires count > 0
    ensures 0 <= r < count
    ensures 0 <= index + delta < count ==> r == index + delta
    ensures index + delta < 0 ==> r == 0
    ensures index + delta >= count ==> r == count - 1
  {
    var i := index + delta;
    if i < 0 then 0 else if i >= count then count - 1 else i
  }

  /** Clicking through the menu by a run of increments never leaves it:
      delta by delta or all at once, the index ends at the same place when
      no step is clamped. */
  lemma MenuIndexSteps(index: int, a: int, b: int, count: nat)
    requires count > 0 && 0 <= index + a < count && 0 <= index + a + b < count
    ensures MenuIndex(MenuIndex(index, a, count), b, count) == MenuIndex(index, a + b, count)
  {
  }

  /** A click on the CV debug page shows the next of the ten channels. */
  function NextCvIndex(i: nat): (r: nat)
    ensures r < CvDebugChannels
    ensures i + 1 < CvDebugChannels ==> r == i + 1
  {
    (i + 1) % CvDebugChannels
  }

  function CvIndexAfter(i: nat, clicks: nat): nat
  {
    if clicks == 0 then i else NextCvIndex(CvIndexAfter(i, clicks - 1))
  }

  /** n clicks move the page n channels on, cyclically: ten clicks come
      back to the same channel. */
  lemma {:induction false} CvIndexCycle(i: nat, clicks: nat)
    requires i < CvDebugChannels
    ensures CvIndexAfter(i, clicks) == (i + clicks) % CvDebugChannels
  {
    if clicks > 0 {
      CvIndexCycle(i, clicks - 1);
      var a := i + clicks - 1;
      var q, r := a / CvDebugChannels, a % CvDebugChannels;
      assert a == CvDebugChannels * q + r;
      if r + 1 < CvDebugChannels {
        DivUnique(a + 1, CvDebugChannels, q, r + 1);
        DivUnique(r + 1, CvDebugChannels, 0, r + 1);
      } else {
        DivUnique(a + 1, CvDebugChannels, q + 1, 0);
        DivUnique(r + 1, CvDebugChannels, 1, 0);
      }
    }
  }

  predicate Calibrating(m: Mode)
  {
    m == CalibrationStep1 || m == CalibrationStep2 || m == CalibrationStep3
  }

  /** A click during calibration: the offsets, then the 1 V point, then
      the 3 V point, which when accepted is saved and when rejected starts
      the procedure over. `accepted` is what Calibrate3V returns. */
  function CalibrationClick(m: Mode, accepted: bool): (r: (Mode, seq<Call>))
    requires Calibrating(m)
    ensures Calibrating(r.0) || r.0 == Menu
    ensures SaveCalibration in r.1 <==> m == CalibrationStep3 && accepted
    ensures r.0 == Menu <==> m == CalibrationStep3 && accepted
  {
    match m
    case CalibrationStep1 => (CalibrationStep2, [CalibrateOffsets])
    case CalibrationStep2 => (CalibrationStep3, [Calibrate1V])
    case CalibrationStep3 =>
      if accepted then (Menu, [Calibrate3V, SaveCalibration]) else (CalibrationStep1, [Calibrate3V])
  }

  /** Three clicks from the first step run the whole procedure in order;
      it ends in the menu with the calibration saved if the 3 V point is
      accepted, and back at the first step, with nothing saved, if not. */
  lemma CalibrationRun(accepted: bool)
    ensures var r1 := CalibrationClick(CalibrationStep1, accepted);
      var r2 := CalibrationClick(r1.0, accepted);
      var r3 := CalibrationClick(r2.0, accepted);
      r3.0 == (if accepted then Menu else CalibrationStep1)
      && r1.1 + r2.1 + r3.1 == [CalibrateOffsets, Calibrate1V, Calibrate3V]
        + (if accepted then [SaveCalibration] else [])
  {
  }

  /** LockedPotMask[pot_mode] */
  function LockedPotMask(m: PotMode): (mask: uint16)
    ensures m == Normal ==> mask == 0
    ensures m == Ad ==> mask < Pow2(PotLast) && forall p :: 0 <= p < PotLast ==> Bit(mask, p)
  {
    if m == Ad then
      assert Pow2(6) == 64 && forall p :: 0 <= p < PotLast ==> Bit(0x3f, p) by { Pow2Table(); }
      0x3f
    else 0
  }

  /** A press of S1 flips the pot mode; entering the AD mode locks all six
      pots, leaving it unlocks them. */
  function PotToggle(m: PotMode): (PotMode, Call)
  {
    if m == Normal then (Ad, LockPots(LockedPotMask(Ad))) else (Normal, UnlockPots)
  }

  /** Two presses of S1 restore the mode, one locking the pots and the
      other unlocking them. */
  lemma PotToggleTwice(m: PotMode)
    ensures PotToggle(PotToggle(m).0).0 == m
    ensures {PotToggle(m).1, PotToggle(PotToggle(m).0).1} == {LockPots(0x3f), UnlockPots}
  {
  }

  /** An idle refresh of the splash: the next frame, or at the eighth the
      end of the splash (true). */
  function SplashTick(frame: nat): (r: (nat, bool))
    requires frame < SplashFrames
    ensures r.0 < SplashFrames
    ensures r.1 <==> frame == SplashFrames - 1
    ensures !r.1 ==> r.0 == frame + 1
  {
    if frame + 1 == SplashFrames then (0, true) else (frame + 1, false)
  }

  /** The frame and whether the splash has ended after n idle refreshes. */
  function SplashAfter(frame: nat, n: nat): (nat, bool)
    requires frame < SplashFrames
    decreases n
  {
    if n == 0 then (frame, false)
    else
      var r := SplashTick(frame);
      if r.1 then r else SplashAfter(r.0, n - 1)
  }

  /** From frame f the splash runs for exactly 8 - f idle refreshes. */
  lemma {:induction false} SplashLength(frame: nat, n: nat)
    requires frame < SplashFrames
    ensures n < SplashFrames - frame ==> SplashAfter(frame, n) == (frame + n, false)
    ensures SplashAfter(frame, SplashFrames - frame) == (0, true)
    decreases SplashFrames - frame
  {
    if frame + 1 < SplashFrames {
      SplashLength(frame + 1, if n == 0 then 0 else n - 1);
      SplashLength(frame + 1, SplashFrames - frame - 1);
    }
  }

  // ---------------------------------------------------------------------
  // The interface

  class Ui {
    const display: Display
    const switches: Switches
    const ids: Identifiers
    /** settings.setting_at_index: the menu order. */
    const menu: seq<nat>
    /** settings.metadata(setting).Clip, per setting. */
    const clip: (nat, int) -> uint8
    /** What settings.Reset restores: kInitSettings is not part of this model. */
    const initialValues: seq<uint8>
    const initialMarquee: seq<uint8>

    /** The global settings' values and marquee text, as the interface
        reads and edits them. */
    var settingValues: seq<uint8>
    var marqueeText: seq<uint8>
    var calls: seq<Call>
    /** queue_: events in the order they were added. */
    var queue: seq<Event>

    var mode: Mode
    var setting: nat
    var settingIndex: int
    var cvIndex: nat
    var potMode: PotMode
    var splashFrame: nat
    var gate: bool
    var gateLedTime: nat
    var subClock: nat
    var refreshDisplay: bool
    var blink: bool
    var marqueeStep: nat
    var marqueeCharacter: nat
    var marqueeDirtyCharacter: bool
    var tracker: PressTracker
    var switchPressTime: seq<uint32>

    ghost predicate Valid()
      reads this`settingValues, this`marqueeText, this`switchPressTime, this`setting,
        this`settingIndex, this`cvIndex, this`splashFrame, this`mode, this`marqueeCharacter,
        this`marqueeDirtyCharacter, display, switches
    {
      display.Valid() && switches.Valid() && Configured() && StateValid()
    }

    /** The fixed configuration: the identifiers, the menu order and the
        defaults. */
    ghost predicate Configured()
    {
      ids.WellFormed()
      && |menu| == ids.count && (forall i :: 0 <= i < |menu| ==> menu[i] < ids.count)
      && |initialValues| == ids.count && TextShape(initialMarquee)
    }

    /** The interface's own fields: the indices stay in range and the
        marquee editor is always in the middle of an edit. */
    ghost predicate StateValid()
      reads this`settingValues, this`marqueeText, this`switchPressTime, this`setting,
        this`settingIndex, this`cvIndex, this`splashFrame, this`mode, this`marqueeCharacter,
        this`marqueeDirtyCharacter
    {
      Sized() && InRange() && EditorValid()
    }

    /** The settings and the press times have one entry each. */
    ghost predicate Sized()
      reads this`settingValues, this`marqueeText, this`switchPressTime
    {
      |settingValues| == ids.count && TextShape(marqueeText) && |switchPressTime| == NumSwitches
    }

    /** The selected setting, the menu cursor, the CV channel and the
        splash frame are in range. */
    ghost predicate InRange()
      reads this`setting, this`settingIndex, this`cvIndex, this`splashFrame
    {
      setting < ids.count && 0 <= settingIndex < ids.count
      && cvIndex < CvDebugChannels && splashFrame < SplashFrames
    }

    /** The marquee editor is always in the middle of an edit. */
    ghost predicate EditorValid()
      reads this`mode, this`marqueeText, this`marqueeCharacter, this`marqueeDirtyCharacter
    {
      mode == MarqueeEditor ==> Editing(CurrentEditor())
    }

    /** The settings' marquee buffer: settings.h is not part of this model;
        it is taken to hold the 63 bytes the editor reaches and fewer than
        256, so the uint8_t that keeps its strlen never wraps. */
    static predicate TextShape(text: seq<uint8>)
    {
      MarqueeLastCharacter + 1 < |text| < 0x100
    }

    function CurrentEditor(): Editor
      reads this`marqueeText, this`marqueeCharacter, this`marqueeDirtyCharacter
    {
      Editor(marqueeText, marqueeCharacter, marqueeDirtyCharacter)
    }

    /** The zero-initialised global, on the settings loaded before the
        interface starts. Edit and setting 0 stand for the zero of their
        enumerations. */
    constructor (identifiers: Identifiers, order: seq<nat>, clipValue: (nat, int) -> uint8,
                 defaults: seq<uint8>, defaultMarquee: seq<uint8>,
                 values: seq<uint8>, text: seq<uint8>,
                 brightnessLevels: nat, font: seq<uint16>)
      requires identifiers.WellFormed()
      requires |order| == identifiers.count && forall i :: 0 <= i < |order| ==> order[i] < identifiers.count
      requires |defaults| == identifiers.count && |values| == identifiers.count
      requires TextShape(defaultMarquee) && TextShape(text)
      requires brightnessLevels > 0 && |font| == 0x100
      ensures Valid() && fresh(display) && fresh(display.buffer) && fresh(display.decimal)
      ensures fresh(switches) && fresh(switches.switchState)
      ensures settingValues == values && marqueeText == text && calls == [] && queue == []
    {
      display := new Display(brightnessLevels, font);
      switches := new Switches();
      ids := identifiers;
      menu := order;
      clip := clipValue;
      initialValues := defaults;
      initialMarquee := defaultMarquee;
      settingValues := values;
      marqueeText := text;
      calls := [];
      queue := [];
      mode := Edit;
      setting := 0;
      settingIndex := 0;
      cvIndex := 0;
      potMode := Normal;
      splashFrame := 0;
      gate := false;
      gateLedTime := 0;
      subClock := 0;
      refreshDisplay := false;
      blink := false;
      marqueeStep := 0;
      marqueeCharacter := 0;
      marqueeDirtyCharacter := false;
      tracker := PressTracker(0, false);
      switchPressTime := [0, 0];
    }

    /** Init: the drivers are initialised, the display dimmed to the
        brightness setting, and the interface starts on the splash with the
        oscillator shape selected and a redraw pending. */
    method Init()
      requires Valid()
      modifies display, display.buffer, display.decimal, switches.switchState
      modifies this`queue, this`subClock, this`refreshDisplay, this`mode, this`setting,
        this`settingIndex, this`cvIndex, this`gate, this`gateLedTime, this`potMode
      ensures Valid()
      ensures display.brightness == settingValues[ids.brightness] as int + 1
      ensures display.activePosition == 0 && display.brightnessPwmCycle == 0
      ensures forall i :: 0 <= i < DisplayWidth ==> display.buffer[i] == Space && !display.decimal[i]
      ensures forall i :: 0 <= i < NumSwitches ==> switches.switchState[i] == 0xff
      ensures queue == [] && subClock == 0 && refreshDisplay
      ensures mode == Splash && setting == ids.oscillatorShape && settingIndex == 0 && cvIndex == 0
      ensures !gate && gateLedTime == 0 && potMode == Normal
    {
      InitDrivers(settingValues[ids.brightness] as int + 1);
      InitEvents();
      InitPages();
      InitOutputs();
    }

    /** Init's event part: an empty queue, the tick count at 0 and a
        redraw pending. */
    method InitEvents()
      requires Valid()
      modifies this`queue, this`subClock, this`refreshDisplay
      ensures Valid()
      ensures queue == [] && subClock == 0 && refreshDisplay
    {
      queue, subClock, refreshDisplay := [], 0, true;
    }

    /** Init's page part: the splash, with the oscillator shape selected
        for when it ends. */
    method InitPages()
      requires Valid()
      modifies this`mode, this`setting, this`settingIndex, this`cvIndex
      ensures Valid()
      ensures mode == Splash && setting == ids.oscillatorShape && settingIndex == 0 && cvIndex == 0
    {
      mode, setting, settingIndex, cvIndex := Splash, ids.oscillatorShape, 0, 0;
    }

    /** Init's output part: the gate low, its LED off, the pots free. */
    method InitOutputs()
      requires Valid()
      modifies this`gate, this`gateLedTime, this`potMode
      ensures Valid()
      ensures !gate && gateLedTime == 0 && potMode == Normal
    {
      gate, gateLedTime, potMode := false, 0, Normal;
    }

    /** The drivers' part of Init: display and switches start over, the
        display at the given brightness. */
    method InitDrivers(brightness: nat)
      requires display.Valid() && switches.Valid()
      modifies display, display.buffer, display.decimal, switches.switchState
      ensures display.Valid() && switches.Valid()
      ensures display.brightness == brightness
      ensures display.activePosition == 0 && display.brightnessPwmCycle == 0
      ensures forall i :: 0 <= i < DisplayWidth ==> display.buffer[i] == Space && !display.decimal[i]
      ensures forall i :: 0 <= i < NumSwitches ==> switches.switchState[i] == 0xff
    {
      display.Init();
      display.SetBrightness(brightness);
      switches.Init();
    }

    /** Poll, once per millisecond tick (`now` is the clock after the
        tick): the button yields its click or long click, a rotation an
        increment event, each debounced switch its press and release
        events; every other tick the display is refreshed; the gate LED
        timer runs down. The LED levels are returned. */
    method Poll(now: uint32, encoder: EncoderReading, levels: seq<bool>)
      returns (gateLed: bool, statusLed: bool, sent: seq<bool>)
      requires Valid() && |levels| == NumSwitches
      modifies this`subClock, this`tracker, this`queue, this`switchPressTime, this`gateLedTime
      modifies display`activePosition, display`brightnessPwmCycle, switches.switchState
      ensures Valid()
      ensures subClock == old(subClock) + 1
      ensures forall i :: 0 <= i < NumSwitches ==> switches.switchState[i] == Shift(old(switches.switchState[i]), levels[i])
      ensures var step := ButtonStep(old(tracker), encoder, now);
        tracker == step.0
        && queue == old(queue) + ButtonEvents(step.1)
          + (if encoder.increment != 0 then [Event(EncoderTurn, 0, encoder.increment)] else [])
          + SwitchEvents(switches.switchState[..], old(switchPressTime), now, NumSwitches)
      ensures switchPressTime == PressTimes(switches.switchState[..], old(switchPressTime), now)
      ensures display.brightnessPwmCycle == if subClock % 2 == 0
        then (old(display.brightnessPwmCycle) + 1) % display.brightnessLevels else old(display.brightnessPwmCycle)
      ensures display.activePosition ==
        if subClock % 2 == 0 && old(display.brightnessPwmCycle) <= display.brightness
        then (old(display.activePosition) + 1) % DisplayWidth else old(display.activePosition)
      ensures sent ==
        if subClock % 2 == 0 && old(display.brightnessPwmCycle) <= display.brightness
        then SerialBits(SegmentWord(display.font[display.buffer[display.activePosition]],
                                    display.decimal[display.activePosition]), 16)
        else []
      ensures gateLedTime == if old(gateLedTime) > 0 then old(gateLedTime) - 1 else 0
      ensures gateLed == (gate || gateLedTime != 0)
      ensures statusLed == (mode != Edit || setting != ids.oscillatorShape)
    {
      PollButton(now, encoder);
      PollSwitches(now, levels);
      gateLed, statusLed, sent := PollOutputs();
    }

    /** The encoder part of Poll: the button's click or long click, then
        the rotation. */
    method PollButton(now: uint32, encoder: EncoderReading)
      modifies this`tracker, this`queue
      ensures tracker == ButtonStep(old(tracker), encoder, now).0
      ensures queue == old(queue) + ButtonEvents(ButtonStep(old(tracker), encoder, now).1)
        + (if encoder.increment != 0 then [Event(EncoderTurn, 0, encoder.increment)] else [])
    {
      if encoder.justPressed {
        tracker := PressTracker(now, false);
      }
      if !tracker.inhibit {
        if encoder.pressed {
          var duration := Elapsed(now, tracker.pressTime);
          if duration >= EncoderLongPressTime {
            queue := queue + [Event(EncoderLongClick, 0, 0)];
            tracker := tracker.(inhibit := true);
          }
        } else if encoder.released {
          queue := queue + [Event(EncoderClick, 0, 0)];
        }
      }
      if encoder.increment != 0 {
        queue := queue + [Event(EncoderTurn, 0, encoder.increment)];
      }
    }

    /** The output part of Poll: the tick is counted, the display refreshed
        on every other tick, the gate LED timer runs down and the LED levels
        are computed. Nothing before it reads the tick count. */
    method PollOutputs() returns (gateLed: bool, statusLed: bool, sent: seq<bool>)
      requires display.Valid()
      modifies this`subClock, this`gateLedTime, display`activePosition, display`brightnessPwmCycle
      ensures display.Valid()
      ensures subClock == old(subClock) + 1
      ensures display.brightnessPwmCycle == if subClock % 2 == 0
        then (old(display.brightnessPwmCycle) + 1) % display.brightnessLevels else old(display.brightnessPwmCycle)
      ensures display.activePosition ==
        if subClock % 2 == 0 && old(display.brightnessPwmCycle) <= display.brightness
        then (old(display.activePosition) + 1) % DisplayWidth else old(display.activePosition)
      ensures sent ==
        if subClock % 2 == 0 && old(display.brightnessPwmCycle) <= display.brightness
        then SerialBits(SegmentWord(display.font[display.buffer[display.activePosition]],
                                    display.decimal[display.activePosition]), 16)
        else []
      ensures gateLedTime == if old(gateLedTime) > 0 then old(gateLedTime) - 1 else 0
      ensures gateLed == (gate || gateLedTime != 0)
      ensures statusLed == (mode != Edit || setting != ids.oscillatorShape)
    {
      subClock := subClock + 1;
      sent := [];
      if subClock % 2 == 0 {
        sent := display.Refresh();
      }
      if gateLedTime > 0 {
        gateLedTime := gateLedTime - 1;
      }
      gateLed := gate || gateLedTime != 0;
      statusLed := mode != Edit || setting != ids.oscillatorShape;
    }

    /** The switch part of Poll: the histories take in the levels, then
        each switch yields its events. */
    method PollSwitches(now: uint32, levels: seq<bool>)
      requires switches.Valid() && |switchPressTime| == NumSwitches && |levels| == NumSwitches
      modifies this`queue, this`switchPressTime, switches.switchState
      ensures forall i :: 0 <= i < NumSwitches ==> switches.switchState[i] == Shift(old(switches.switchState[i]), levels[i])
      ensures queue == old(queue) + SwitchEvents(switches.switchState[..], old(switchPressTime), now, NumSwitches)
      ensures switchPressTime == PressTimes(switches.switchState[..], old(switchPressTime), now)
    {
      switches.Debounce(levels);
      ghost var states := switches.switchState[..];
      ghost var times := switchPressTime;
      for i := 0 to NumSwitches
        invariant |switchPressTime| == NumSwitches && switches.switchState[..] == states
        invariant queue == old(queue) + SwitchEvents(states, times, now, i)
        invariant forall j :: 0 <= j < i ==> switchPressTime[j] == PressTimes(states, times, now)[j]
        invariant forall j :: i <= j < NumSwitches ==> switchPressTime[j] == times[j]
      {
        PollSwitch(i, now);
      }
      assert switchPressTime == PressTimes(states, times, now);
    }

    /** One switch's turn in Poll: a press is queued with data 0 and
        restarts the switch's timer; a release is queued with the time held. */
    method PollSwitch(i: nat, now: uint32)
      requires switches.Valid() && i < NumSwitches && |switchPressTime| == NumSwitches
      modifies this`queue, this`switchPressTime
      ensures queue == old(queue) + SwitchEventsOf(i, switches.switchState[i], old(switchPressTime[i]), now)
      ensures switchPressTime == old(switchPressTime)[i :=
        if IsJustPressed(switches.switchState[i]) then now else old(switchPressTime[i])]
    {
      if switches.JustPressed(i) {
        queue := queue + [Event(SwitchControl, i, 0)];
        switchPressTime := switchPressTime[i := now];
      }
      if switches.Released(i) {
        queue := queue + [Event(SwitchControl, i, ReleaseData(now, switchPressTime[i]))];
      }
    }

    /** FlushEvents: every pending event is dropped. */
    method FlushEvents()
      modifies this`queue
      ensures queue == []
    {
      queue := [];
    }

    /** OnLongClick: in the marquee editor, save and return to the menu; in
        the menu, the calibration setting starts calibrating, the marquee
        setting opens the editor and the version setting restores and saves
        the defaults. */
    method OnLongClick()
      requires Valid()
      modifies this`mode, this`marqueeCharacter, this`marqueeDirtyCharacter, this`marqueeText,
        this`settingValues, this`calls
      ensures Valid()
      ensures old(mode) == MarqueeEditor ==>
        mode == Menu && calls == old(calls) + [SaveState]
        && CurrentEditor() == old(CurrentEditor()) && settingValues == old(settingValues)
      ensures old(mode) == Menu && setting == ids.calibration ==>
        mode == CalibrationStep1 && calls == old(calls)
        && CurrentEditor() == old(CurrentEditor()) && settingValues == old(settingValues)
      ensures old(mode) == Menu && setting == ids.marquee ==>
        mode == MarqueeEditor && calls == old(calls)
        && CurrentEditor() == EnterEditor(old(marqueeText)) && settingValues == old(settingValues)
      ensures old(mode) == Menu && setting == ids.version ==>
        mode == Menu && calls == old(calls) + [SaveState]
        && settingValues == initialValues && marqueeText == initialMarquee
        && marqueeCharacter == old(marqueeCharacter) && marqueeDirtyCharacter == old(marqueeDirtyCharacter)
      ensures (old(mode) != MarqueeEditor
        && (old(mode) != Menu || (setting != ids.calibration && setting != ids.marquee && setting != ids.version))) ==>
        mode == old(mode) && calls == old(calls)
        && CurrentEditor() == old(CurrentEditor()) && settingValues == old(settingValues)
    {
      match mode
      case MarqueeEditor =>
        calls := calls + [SaveState];
        mode := Menu;
      case Menu =>
        LongClickMenu();
      case _ =>
    }

    /** The menu's part of OnLongClick. */
    method LongClickMenu()
      requires Valid() && mode == Menu
      modifies this`mode, this`marqueeCharacter, this`marqueeDirtyCharacter, this`marqueeText,
        this`settingValues, this`calls
      ensures Valid()
      ensures setting == ids.calibration ==>
        mode == CalibrationStep1 && calls == old(calls)
        && CurrentEditor() == old(CurrentEditor()) && settingValues == old(settingValues)
      ensures setting == ids.marquee ==>
        mode == MarqueeEditor && calls == old(calls)
        && CurrentEditor() == EnterEditor(old(marqueeText)) && settingValues == old(settingValues)
      ensures setting == ids.version ==>
        mode == Menu && calls == old(calls) + [SaveState]
        && settingValues == initialValues && marqueeText == initialMarquee
        && marqueeCharacter == old(marqueeCharacter) && marqueeDirtyCharacter == old(marqueeDirtyCharacter)
      ensures setting != ids.calibration && setting != ids.marquee && setting != ids.version ==>
        mode == Menu && calls == old(calls)
        && CurrentEditor() == old(CurrentEditor()) && settingValues == old(settingValues)
    {
      if setting == ids.calibration {
        mode := CalibrationStep1;
      } else if setting == ids.marquee {
        EnterMarquee();
      } else if setting == ids.version {
        settingValues, marqueeText, calls := initialValues, initialMarquee, calls + [SaveState];
      }
    }

    /** Opening the marquee editor: the cursor on the first character and
        the end of the text marked. */
    method EnterMarquee()
      requires Valid()
      modifies this`mode, this`marqueeCharacter, this`marqueeDirtyCharacter, this`marqueeText
      ensures Valid()
      ensures mode == MarqueeEditor && CurrentEditor() == EnterEditor(old(marqueeText))
    {
      EnterEditorEditing(marqueeText);
      var length := CStrLen(marqueeText);
      var text := if length < |marqueeText| then marqueeText[length := MarqueeEnd] else marqueeText;
      mode, marqueeCharacter, marqueeDirtyCharacter, marqueeText := MarqueeEditor, 0, false, text;
    }

    /** OnClick: from editing back to the menu; in the marquee editor the
        cursor moves and the edit may end; in the menu an editable setting
        is opened (the oscillator shape is saved as it is), the version page
        shows the splash, and the CV pages reset or step their channel; in
        calibration the procedure advances. `accepted` is what Calibrate3V
        returns. */
    method OnClick(accepted: bool)
      requires Valid()
      modifies this`mode, this`marqueeCharacter, this`marqueeDirtyCharacter, this`marqueeText,
        this`cvIndex, this`calls
      ensures Valid()
      ensures old(mode) != MarqueeEditor ==> CurrentEditor() == old(CurrentEditor())
      ensures old(mode) != Menu ==> cvIndex == old(cvIndex)
      ensures old(mode) == Edit ==> mode == Menu && calls == old(calls)
      ensures old(mode) == MarqueeEditor ==>
        CurrentEditor() == EditorClick(old(CurrentEditor()))
        && (if Finished(CurrentEditor()) then mode == Menu && calls == old(calls) + [SaveState]
            else mode == MarqueeEditor && calls == old(calls))
      ensures old(mode) == Menu && setting <= ids.lastEditable ==>
        mode == Edit && cvIndex == old(cvIndex)
        && calls == old(calls) + (if setting == ids.oscillatorShape then [SaveState] else [])
      ensures old(mode) == Menu && setting > ids.lastEditable ==>
        calls == old(calls)
        && mode == (if setting == ids.version then Splash else Menu)
        && cvIndex == (if setting == ids.cvTester then 0
          else if setting == ids.cvDebug then NextCvIndex(old(cvIndex)) else old(cvIndex))
      ensures Calibrating(old(mode)) ==>
        var r := CalibrationClick(old(mode), accepted);
        mode == r.0 && calls == old(calls) + r.1
      ensures old(mode) == Splash ==> mode == Splash && calls == old(calls)
    {
      match mode
      case Edit =>
        mode := Menu;
      case MarqueeEditor =>
        ClickMarquee();
      case Menu =>
        ClickMenu();
      case CalibrationStep1 | CalibrationStep2 | CalibrationStep3 =>
        ClickCalibration(accepted);
      case Splash =>
    }

    /** The menu's part of OnClick. */
    method ClickMenu()
      requires Valid() && mode == Menu
      modifies this`mode, this`cvIndex, this`calls
      ensures Valid()
      ensures setting <= ids.lastEditable ==>
        mode == Edit && cvIndex == old(cvIndex)
        && calls == old(calls) + (if setting == ids.oscillatorShape then [SaveState] else [])
      ensures setting > ids.lastEditable ==>
        calls == old(calls)
        && mode == (if setting == ids.version then Splash else Menu)
        && cvIndex == (if setting == ids.cvTester then 0
          else if setting == ids.cvDebug then NextCvIndex(old(cvIndex)) else old(cvIndex))
    {
      if setting <= ids.lastEditable {
        mode := Edit;
        if setting == ids.oscillatorShape {
          calls := calls + [SaveState];
        }
      } else if setting == ids.version {
        mode := Splash;
      } else if setting == ids.cvTester {
        cvIndex := 0;
      } else if setting == ids.cvDebug {
        cvIndex := NextCvIndex(cvIndex);
      }
    }

    /** The calibration procedure's part of OnClick. */
    method ClickCalibration(accepted: bool)
      requires Valid() && Calibrating(mode)
      modifies this`mode, this`calls
      ensures Valid()
      ensures var r := CalibrationClick(old(mode), accepted);
        mode == r.0 && calls == old(calls) + r.1
    {
      var r := CalibrationClick(mode, accepted);
      mode, calls := r.0, calls + r.1;
    }

    /** The marquee editor's part of OnClick. */
    method ClickMarquee()
      requires Valid() && mode == MarqueeEditor
      modifies this`mode, this`marqueeCharacter, this`marqueeDirtyCharacter, this`marqueeText, this`calls
      ensures Valid()
      ensures CurrentEditor() == EditorClick(old(CurrentEditor()))
      ensures if Finished(CurrentEditor()) then mode == Menu && calls == old(calls) + [SaveState]
        else mode == MarqueeEditor && calls == old(calls)
    {
      EditorClickEnds(CurrentEditor());
      var r := EditorClick(CurrentEditor());
      marqueeText, marqueeCharacter, marqueeDirtyCharacter := r.text, r.cursor, r.dirty;
      if Finished(r) {
        calls, mode := calls + [SaveState], Menu;
      }
    }

    /** OnIncrement: in the marquee editor the character under the cursor
        turns; while editing, the setting's value moves within its range and
        the display brightness follows the brightness setting; in the menu
        the selection moves, clamped to the menu. */
    method OnIncrement(e: Event)
      requires Valid()
      modifies this`marqueeText, this`marqueeDirtyCharacter, this`settingValues, this`settingIndex,
        this`setting, this`marqueeStep, this`cvIndex, display`brightness
      ensures Valid()
      ensures marqueeText == if mode == MarqueeEditor
        then old(marqueeText)[marqueeCharacter := MarqueeCharacter(old(marqueeText)[marqueeCharacter], e.data)]
        else old(marqueeText)
      ensures marqueeDirtyCharacter == (mode == MarqueeEditor || old(marqueeDirtyCharacter))
      ensures settingValues == if mode == Edit
        then old(settingValues)[setting := clip(setting, old(settingValues)[setting] + e.data)]
        else old(settingValues)
      ensures display.brightness == if mode == Edit
        then settingValues[ids.brightness] as int + 1 else old(display.brightness)
      ensures settingIndex == if mode == Menu
        then MenuIndex(old(settingIndex), e.data, ids.count) else old(settingIndex)
      ensures setting == if mode == Menu then menu[settingIndex] else old(setting)
      ensures marqueeStep == if mode == Menu then 0 else old(marqueeStep)
      ensures cvIndex == if mode == Menu then 0 else old(cvIndex)
    {
      if mode == MarqueeEditor {
        IncrementCharacter(e.data);
      } else if mode == Edit {
        IncrementValue(e.data);
      } else if mode == Menu {
        IncrementMenu(e.data);
      }
    }

    /** The marquee editor's rotation: the character under the cursor
        steps through the printable range. */
    method IncrementCharacter(delta: int)
      requires mode == MarqueeEditor && Valid()
      modifies this`marqueeText, this`marqueeDirtyCharacter
      ensures Valid()
      ensures marqueeText == old(marqueeText)[marqueeCharacter := MarqueeCharacter(old(marqueeText)[marqueeCharacter], delta)]
      ensures marqueeDirtyCharacter
    {
      var c := MarqueeCharacter(marqueeText[marqueeCharacter], delta);
      marqueeText, marqueeDirtyCharacter := marqueeText[marqueeCharacter := c], true;
    }

    /** The edit mode's rotation: the selected setting takes the clipped
        new value, and the display follows the brightness setting. */
    method IncrementValue(delta: int)
      requires Valid()
      modifies this`settingValues, display`brightness
      ensures Valid()
      ensures settingValues == old(settingValues)[setting := clip(setting, old(settingValues)[setting] + delta)]
      ensures display.brightness == settingValues[ids.brightness] as int + 1
    {
      var value := clip(setting, settingValues[setting] + delta);
      settingValues := settingValues[setting := value];
      display.SetBrightness(settingValues[ids.brightness] as int + 1);
    }

    /** The menu's rotation: the cursor moves through the menu, clamped at
        both ends, and the submenus start over. */
    method IncrementMenu(delta: int)
      requires Valid()
      modifies this`settingIndex, this`setting, this`marqueeStep, this`cvIndex
      ensures Valid()
      ensures settingIndex == MenuIndex(old(settingIndex), delta, ids.count)
      ensures setting == menu[settingIndex] && marqueeStep == 0 && cvIndex == 0
    {
      var index := MenuIndex(settingIndex, delta, ids.count);
      settingIndex, setting, marqueeStep, cvIndex := index, menu[index], 0, 0;
    }

    /** OnSwitchPressed: S1 flips the pot mode, locking or unlocking the
        pots; the gate switch raises the gate. The values the locked pots
        take are computed in floating point and are not part of the call. */
    method OnSwitchPressed(e: Event)
      requires Valid()
      modifies this`potMode, this`gate, this`calls
      ensures Valid()
      ensures potMode == if e.controlId == ids.switchS1 then PotToggle(old(potMode)).0 else old(potMode)
      ensures calls == old(calls) + if e.controlId == ids.switchS1 then [PotToggle(old(potMode)).1] else []
      ensures gate == (e.controlId == ids.switchGate || old(gate))
    {
      if e.controlId == ids.switchS1 {
        if potMode == Normal {
          potMode := Ad;
          calls := calls + [LockPots(LockedPotMask(Ad))];
        } else {
          potMode := Normal;
          calls := calls + [UnlockPots];
        }
      } else if e.controlId == ids.switchGate {
        gate := true;
      }
    }

    /** OnSwitchReleased: releasing the gate switch lowers the gate. */
    method OnSwitchReleased(e: Event)
      requires Valid()
      modifies this`gate
      ensures Valid()
      ensures gate == (e.controlId != ids.switchGate && old(gate))
    {
      if e.controlId == ids.switchGate {
        gate := false;
      }
    }

    /** The handler an event goes to: a switch event with data 0 is a
        press, any other a release. */
    method Dispatch(e: Event, accepted: bool)
      requires Valid()
      modifies this`mode, this`marqueeCharacter, this`marqueeDirtyCharacter, this`marqueeText,
        this`settingValues, this`settingIndex, this`setting, this`marqueeStep, this`cvIndex,
        this`calls, this`potMode, this`gate, display`brightness
      ensures Valid()
      ensures e.controlType == SwitchControl && e.data == 0 ==>
        potMode == (if e.controlId == ids.switchS1 then PotToggle(old(potMode)).0 else old(potMode))
        && calls == old(calls) + (if e.controlId == ids.switchS1 then [PotToggle(old(potMode)).1] else [])
        && gate == (e.controlId == ids.switchGate || old(gate))
      ensures e.controlType == SwitchControl && e.data != 0 ==>
        gate == (e.controlId != ids.switchGate && old(gate))
        && potMode == old(potMode) && calls == old(calls)
      ensures e.controlType != SwitchControl ==> gate == old(gate) && potMode == old(potMode)
    {
      match e.controlType {
        case EncoderClick => OnClick(accepted);
        case EncoderLongClick => OnLongClick();
        case EncoderTurn => OnIncrement(e);
        case SwitchControl =>
          if e.data == 0 {
            OnSwitchPressed(e);
          } else {
            OnSwitchReleased(e);
          }
      }
    }

    /** Whether the idle checks of DoEvents call for a redraw. */
    function IdleRedraw(idleTime: nat, metaModulation: bool): bool
      reads this`mode, this`setting
    {
      idleTime > SlowRefreshTime
      || (idleTime >= AnimationTime && mode == Splash)
      || AnimationRedraw(idleTime, metaModulation)
    }

    /** The animated pages: the CV pages, the marquee and the oscillator
        shape's editor while the meta-modulation setting is on. */
    function AnimationRedraw(idleTime: nat, metaModulation: bool): bool
      reads this`mode, this`setting
    {
      (idleTime >= AnimationTime && (setting == ids.cvTester || setting == ids.cvDebug || setting == ids.marquee))
      || (idleTime >= AnimationTime && setting == ids.oscillatorShape && mode == Edit && metaModulation)
    }

    /** DoEvents: every pending event goes to its handler, in order; then
        idle time animates the splash (ending it on the eighth frame in the
        oscillator shape's editor) and asks for the redraws of the animated
        pages. A redraw clears the blink and the pending refresh; it is
        reported as `redrawn`. The idle time, the meta-modulation setting and
        Calibrate3V's verdict come from outside the interface. */
    method DoEvents(idleTime: nat, metaModulation: bool, accepted: bool) returns (redrawn: bool)
      requires Valid()
      modifies this`queue, this`refreshDisplay, this`splashFrame, this`blink,
        this`mode, this`marqueeCharacter, this`marqueeDirtyCharacter, this`marqueeText,
        this`settingValues, this`settingIndex, this`setting, this`marqueeStep, this`cvIndex,
        this`calls, this`potMode, this`gate, display`brightness
      ensures Valid()
      ensures queue == [] && !refreshDisplay
      ensures old(queue) != [] || old(refreshDisplay) || idleTime > SlowRefreshTime ==> redrawn
      ensures redrawn ==> !blink
      ensures !redrawn ==> blink == old(blink)
      ensures old(queue) == [] ==>
        (redrawn <==> old(refreshDisplay) || old(IdleRedraw(idleTime, metaModulation)))
      ensures old(queue) == [] && idleTime >= AnimationTime && old(mode) == Splash ==>
        var r := SplashTick(old(splashFrame));
        splashFrame == r.0 && mode == (if r.1 then Edit else Splash)
        && setting == (if r.1 then ids.oscillatorShape else old(setting))
      ensures old(queue) == [] && (idleTime < AnimationTime || old(mode) != Splash) ==>
        splashFrame == old(splashFrame) && mode == old(mode) && setting == old(setting)
    {
      while queue != []
        invariant Valid() && blink == old(blink) && splashFrame == old(splashFrame)
        invariant |queue| <= |old(queue)|
        invariant refreshDisplay == (old(refreshDisplay) || |queue| < |old(queue)|)
        invariant |queue| == |old(queue)| ==> mode == old(mode) && setting == old(setting)
        decreases |queue|
      {
        HandleEvent(accepted);
      }
      redrawn := IdleEvents(idleTime, metaModulation);
    }

    /** One turn of DoEvents' loop: the oldest event is pulled from the
        queue and handled, and a redraw is asked for. */
    method HandleEvent(accepted: bool)
      requires Valid() && queue != []
      modifies this`queue, this`refreshDisplay,
        this`mode, this`marqueeCharacter, this`marqueeDirtyCharacter, this`marqueeText,
        this`settingValues, this`settingIndex, this`setting, this`marqueeStep, this`cvIndex,
        this`calls, this`potMode, this`gate, display`brightness
      ensures Valid() && queue == old(queue[1..]) && refreshDisplay
    {
      var e := queue[0];
      queue := queue[1..];
      Dispatch(e, accepted);
      refreshDisplay := true;
    }

    /** The part of DoEvents after the queue is drained: the idle checks
        and the redraw. */
    method IdleEvents(idleTime: nat, metaModulation: bool) returns (redrawn: bool)
      requires Valid()
      modifies this`refreshDisplay, this`splashFrame, this`mode, this`setting, this`blink
      ensures Valid()
      ensures !refreshDisplay
      ensures redrawn <==> old(refreshDisplay) || old(IdleRedraw(idleTime, metaModulation))
      ensures blink == (old(blink) && !redrawn)
      ensures idleTime >= AnimationTime && old(mode) == Splash ==>
        var r := SplashTick(old(splashFrame));
        splashFrame == r.0 && mode == (if r.1 then Edit else Splash)
        && setting == (if r.1 then ids.oscillatorShape else old(setting))
      ensures idleTime < AnimationTime || old(mode) != Splash ==>
        splashFrame == old(splashFrame) && mode == old(mode) && setting == old(setting)
    {
      var refresh := refreshDisplay || idleTime > SlowRefreshTime;
      if idleTime >= AnimationTime && mode == Splash {
        AdvanceSplash();
        refresh := true;
      }
      refresh := refresh || AnimationRedraw(idleTime, metaModulation);
      redrawn := refresh;
      blink, refreshDisplay := blink && !refresh, false;
    }

    /** The splash's next frame; after the last one the oscillator shape's
        editor opens. */
    method AdvanceSplash()
      requires Valid() && mode == Splash
      modifies this`splashFrame, this`mode, this`setting
      ensures Valid()
      ensures var r := SplashTick(old(splashFrame));
        splashFrame == r.0 && mode == (if r.1 then Edit else Splash)
        && setting == (if r.1 then ids.oscillatorShape else old(setting))
    {
      var frame := splashFrame + 1;
      if frame == SplashFrames {
        splashFrame, mode, setting := 0, Edit, ids.oscillatorShape;
      } else {
        splashFrame := frame;
      }
    }
  }
}
