// The switch driver: every Debounce shifts each switch's pin level into an
// 8-bit history, and the pressed / just-pressed / released tests compare
// that history with fixed patterns. The switches pull their pins low when
// pressed, so a low level (false) is a pressed reading.

module SwitchesDriver {
  import opened FixedWidth

  const NumSwitches := 2

  /** pressed(): the last eight readings were all low. */
  predicate IsPressed(state: uint8) { state == 0x00 }
  /** just_pressed(): one high reading followed by seven low ones. */
  predicate IsJustPressed(state: uint8) { state == 0x80 }
  /** released(): one low reading followed by seven high ones. */
  predicate IsReleased(state: uint8) { state == 0x7f }

  function LevelBit(high: bool): nat { if high then 1 else 0 }

  /** `a | b` on a doubled value and a single bit is their sum. */
  lemma OrLowBit(a: nat, high: bool)
    ensures BitOr(2 * a, LevelBit(high)) == 2 * a + LevelBit(high)
  {
    if high && a > 0 {
      assert BitOr(2 * a, 1) == 2 * BitOr(a, 0) + 1;
    }
  }

  /** One Debounce step of one switch, `(state << 1) | level` stored back
      into a uint8_t: the new low bit is the reading and the old bits move
      up by one, the top one dropping out. */
  function Shift(state: uint8, high: bool): (r: uint8)
    ensures r % 2 == LevelBit(high) && r / 2 == state % 128
  {
    var b := LevelBit(high);
    OrLowBit(state, high);
    DivUnique(2 * state + b, 0x100, state / 128, 2 * (state % 128) + b);
    BitOr(state * 2, b) % 0x100
  }

  /** The history after shifting in `levels`, oldest first, from `state`. */
  function History(state: uint8, levels: seq<bool>): uint8
    decreases |levels|
  {
    if |levels| == 0 then state
    else Shift(History(state, levels[..|levels| - 1]), levels[|levels| - 1])
  }

  /** The readings as a binary number, the most recent one as bit 0. */
  function Pack(levels: seq<bool>): nat
    decreases |levels|
  {
    if |levels| == 0 then 0
    else 2 * Pack(levels[..|levels| - 1]) + LevelBit(levels[|levels| - 1])
  }

  lemma {:induction false} PackBound(levels: seq<bool>)
    ensures Pack(levels) < Pow2(|levels|)
  {
    if |levels| > 0 {
      PackBound(levels[..|levels| - 1]);
    }
  }

  lemma {:induction false} PackInjective(a: seq<bool>, b: seq<bool>)
    requires |a| == |b| && Pack(a) == Pack(b)
    ensures a == b
  {
    if |a| > 0 {
      var n := |a| - 1;
      PackInjective(a[..n], b[..n]);
      assert a == a[..n] + [a[n]] && b == b[..n] + [b[n]];
    }
  }

  lemma {:induction false} HistoryAppend(state: uint8, a: seq<bool>, b: seq<bool>)
    ensures History(state, a + b) == History(History(state, a), b)
    decreases |b|
  {
    if |b| == 0 {
      assert a + b == a;
    } else {
      var n := |b| - 1;
      var ab := a + b;
      assert ab[..|ab| - 1] == a + b[..n] && ab[|ab| - 1] == b[n];
      HistoryAppend(state, a, b[..n]);
    }
  }

  /** The history is the old state shifted up by the number of readings,
      with the readings packed below it, cut to eight bits. */
  lemma {:induction false} HistoryPacks(state: uint8, levels: seq<bool>)
    ensures History(state, levels) == (state * Pow2(|levels|) + Pack(levels)) % 0x100
    decreases |levels|
  {
    if |levels| > 0 {
      var n := |levels| - 1;
      var init, b := levels[..n], LevelBit(levels[n]);
      HistoryPacks(state, init);
      var p := Pow2(n);
      var x := state * p + Pack(init);
      var h := History(state, init);
      assert h == x % 0x100;
      var r := History(state, levels);
      assert r == 2 * (h % 128) + b;
      ShiftMod(h, x, b);
      Pow2Succ(n);
      MulRotate(state, 2, p);
    }
  }

  /** Doubling and adding a bit commutes with the reduction modulo 256. */
  lemma ShiftMod(h: int, x: int, b: int)
    requires 0 <= b <= 1 && h == x % 0x100
    ensures 2 * (h % 128) + b == (2 * x + b) % 0x100
  {
    var q := x / 0x100;
    DivUnique(x, 0x100, q, h);
    DivUnique(x, 128, 2 * q + h / 128, h % 128);
    DivUnique(2 * x + b, 0x100, x / 128, 2 * (x % 128) + b);
  }

  /** After eight or more readings the history is exactly the last eight
      readings: whatever came before has been shifted out. */
  lemma LastEight(state: uint8, levels: seq<bool>)
    requires |levels| >= 8
    ensures History(state, levels) == Pack(levels[|levels| - 8..])
  {
    var n := |levels| - 8;
    var w := levels[n..];
    assert levels == levels[..n] + w;
    HistoryAppend(state, levels[..n], w);
    var h := History(state, levels[..n]);
    HistoryPacks(h, w);
    assert Pow2(8) == 0x100 by { Pow2Table(); }
    PackBound(w);
    DivUnique(h * 0x100 + Pack(w), 0x100, h, Pack(w));
  }

  /** The three tests read the last eight readings: pressed after eight
      low ones, just pressed after a high one and seven low ones, released
      after a low one and seven high ones; at most one of them holds. */
  lemma DebounceWindows(state: uint8, levels: seq<bool>)
    requires |levels| >= 8
    ensures var s, w := History(state, levels), levels[|levels| - 8..];
      (IsPressed(s) <==> w == Lows(8))
      && (IsJustPressed(s) <==> w == [true] + Lows(7))
      && (IsReleased(s) <==> w == [false] + Highs(7))
      && !(IsPressed(s) && IsJustPressed(s)) && !(IsPressed(s) && IsReleased(s))
      && !(IsJustPressed(s) && IsReleased(s))
  {
    var w := levels[|levels| - 8..];
    LastEight(state, levels);
    PackLows(8);
    PackLows(7);
    PackHighs(7);
    PackLeading(true, Lows(7));
    PackLeading(false, Highs(7));
    assert Pow2(7) == 0x80 by { Pow2Table(); }
    if Pack(w) == 0 { PackInjective(w, Lows(8)); }
    if Pack(w) == 0x80 { PackInjective(w, [true] + Lows(7)); }
    if Pack(w) == 0x7f { PackInjective(w, [false] + Highs(7)); }
  }

  function Lows(k: nat): (s: seq<bool>)
    ensures |s| == k && forall i :: 0 <= i < k ==> !s[i]
  {
    seq(k, _ => false)
  }

  function Highs(k: nat): (s: seq<bool>)
    ensures |s| == k && forall i :: 0 <= i < k ==> s[i]
  {
    seq(k, _ => true)
  }

  lemma {:induction false} PackLows(k: nat)
    ensures Pack(Lows(k)) == 0
  {
    if k > 0 {
      assert Lows(k)[..k - 1] == Lows(k - 1);
      PackLows(k - 1);
    }
  }

  lemma {:induction false} PackHighs(k: nat)
    ensures Pack(Highs(k)) == Pow2(k) - 1
  {
    if k > 0 {
      assert Highs(k)[..k - 1] == Highs(k - 1);
      PackHighs(k - 1);
    }
  }

  /** A reading in front of `w` counts 2^|w|. */
  lemma {:induction false} PackLeading(high: bool, w: seq<bool>)
    ensures Pack([high] + w) == LevelBit(high) * Pow2(|w|) + Pack(w)
    decreases |w|
  {
    var v := [high] + w;
    if |w| == 0 {
      assert v[..0] == [];
    } else {
      var n := |w| - 1;
      assert v[..|v| - 1] == [high] + w[..n] && v[|v| - 1] == w[n];
      PackLeading(high, w[..n]);
      Pow2Succ(n);
      MulRotate(LevelBit(high), 2, Pow2(n));
    }
  }

  /** Holding a switch down after a high reading: just_pressed holds on
      exactly the seventh low reading and pressed from the eighth on, and
      nothing reads as released once a low reading has come in. */
  lemma PressTimeline(state: uint8, before: seq<bool>, k: nat)
    ensures var s := History(state, before + [true] + Lows(k));
      (IsJustPressed(s) <==> k == 7) && (IsPressed(s) <==> k >= 8)
      && (k >= 1 ==> !IsReleased(s))
  {
    var s1 := History(state, before + [true]);
    assert (before + [true])[..|before|] == before;
    assert s1 % 2 == 1;
    HistoryAppend(state, before + [true], Lows(k));
    HistoryPacks(s1, Lows(k));
    PackLows(k);
    var s := History(s1, Lows(k));
    assert s == s1 * Pow2(k) % 0x100;
    if k >= 8 {
      LowRunFromEight(s1, k);
    } else {
      LowRunBelowEight(s1, k);
    }
  }

  /** Eight or more low readings clear the whole history. */
  lemma LowRunFromEight(s1: uint8, k: nat)
    requires k >= 8
    ensures s1 * Pow2(k) % 0x100 == 0
  {
    var r := Pow2(k - 8);
    Pow2Split(k, 8);
    assert Pow2(8) == 0x100 by { Pow2Table(); }
    MulRotate(s1, 0x100, r);
    DivUnique(s1 * Pow2(k), 0x100, s1 * r, 0);
  }

  /** The history of an odd state after fewer than eight low readings. */
  lemma LowRunBelowEight(s1: uint8, k: nat)
    requires s1 % 2 == 1 && k < 8
    ensures var s := s1 * Pow2(k) % 0x100;
      (s == 0x80 <==> k == 7) && s != 0 && (k >= 1 ==> s != 0x7f)
  {
    var j := s1 / 2;
    assert s1 == 2 * j + 1;
    if k == 0 {
    } else if k == 1 {
      assert Pow2(1) == 2;
      DivUnique(s1 * 2, 0x100, j / 64, 4 * (j % 64) + 2);
    } else if k == 2 {
      assert Pow2(2) == 4;
      DivUnique(s1 * 4, 0x100, j / 32, 8 * (j % 32) + 4);
    } else if k == 3 {
      assert Pow2(3) == 8;
      DivUnique(s1 * 8, 0x100, j / 16, 16 * (j % 16) + 8);
    } else if k == 4 {
      assert Pow2(4) == 16;
      DivUnique(s1 * 16, 0x100, j / 8, 32 * (j % 8) + 16);
    } else if k == 5 {
      assert Pow2(5) == 32;
      DivUnique(s1 * 32, 0x100, j / 4, 64 * (j % 4) + 32);
    } else if k == 6 {
      assert Pow2(6) == 64;
      DivUnique(s1 * 64, 0x100, j / 2, 128 * (j % 2) + 64);
    } else {
      assert Pow2(7) == 128;
      DivUnique(s1 * 128, 0x100, j, 128);
    }
  }

  class Switches {
    /** switch_state_[kNumSwitches] */
    const switchState: array<uint8>

    ghost predicate Valid()
      reads this
    {
      switchState.Length == NumSwitches
    }

    /** The driver is a zero-initialised global. */
    constructor ()
      ensures Valid() && fresh(switchState)
      ensures forall i :: 0 <= i < NumSwitches ==> switchState[i] == 0
    {
      switchState := new uint8[NumSwitches](_ => 0);
    }

    predicate Released(index: nat)
      requires Valid() && index < NumSwitches
      reads this, switchState
    {
      IsReleased(switchState[index])
    }

    predicate JustPressed(index: nat)
      requires Valid() && index < NumSwitches
      reads this, switchState
    {
      IsJustPressed(switchState[index])
    }

    predicate Pressed(index: nat)
      requires Valid() && index < NumSwitches
      reads this, switchState
    {
      IsPressed(switchState[index])
    }

    /** Init fills every history with 0xff, as if the switches had long been
        up: none of the three tests holds. */
    method Init()
      requires Valid()
      modifies switchState
      ensures forall i :: 0 <= i < NumSwitches ==> switchState[i] == 0xff
      ensures forall i :: 0 <= i < NumSwitches ==> !Pressed(i) && !JustPressed(i) && !Released(i)
    {
      for i := 0 to NumSwitches
        invariant forall j :: 0 <= j < i ==> switchState[j] == 0xff
      {
        switchState[i] := 0xff;
      }
    }

    /** Debounce: each switch's history takes in its pin's level (an input,
        read from the GPIO in the firmware); each entry depends only on its
        own old value. */
    method Debounce(levels: seq<bool>)
      requires Valid() && |levels| == NumSwitches
      modifies switchState
      ensures forall i :: 0 <= i < NumSwitches ==> switchState[i] == Shift(old(switchState[i]), levels[i])
    {
      for i := 0 to NumSwitches
        invariant forall j :: 0 <= j < i ==> switchState[j] == Shift(old(switchState[j]), levels[j])
        invariant forall j :: i <= j < NumSwitches ==> switchState[j] == old(switchState[j])
      {
        switchState[i] := Shift(switchState[i], levels[i]);
      }
    }
  }
}
