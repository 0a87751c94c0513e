/** The fault-signalling LED: one steady mode colour, overlaid by at most one
    two-phase blink animation per fault, which ends by itself after two
    complete colour-A/colour-B cycles. Faults requested while an animation
    runs are dropped, never queued. */
module Led {
  import opened Common

  /** The fault kinds, numbered as in the `ErrorCode` enumeration. */
  datatype ErrorCode = RtcAccess | GpsAccess | SensorAccess | SensorIncoherent | SdFull | SdAccess

  /** `ERROR_COUNT`: identifiers at or above it name no fault. */
  const ErrorCount: nat := 6

  /** `MAX_CYCLES`: complete A/B cycles after which an animation clears. */
  const MaxCycles: nat := 2

  function Code(id: nat): (e: Option<ErrorCode>)
    ensures e.Some? <==> id < ErrorCount
    ensures e.Some? ==> Index(e.value) == id
  {
    if id == 0 then Some(RtcAccess)
    else if id == 1 then Some(GpsAccess)
    else if id == 2 then Some(SensorAccess)
    else if id == 3 then Some(SensorIncoherent)
    else if id == 4 then Some(SdFull)
    else if id == 5 then Some(SdAccess)
    else None
  }

  function Index(e: ErrorCode): nat
  {
    match e
    case RtcAccess => 0
    case GpsAccess => 1
    case SensorAccess => 2
    case SensorIncoherent => 3
    case SdFull => 4
    case SdAccess => 5
  }

  /** One row of `error_patterns`: colour A, colour B, blink frequency (Hz)
      and the B/A duration ratio. */
  datatype Pattern = Pattern(a: Color, b: Color, frequency: real, ratio: real)

  const Red: Color := Color(255, 0, 0)

  function PatternOf(e: ErrorCode): (p: Pattern)
    ensures p.frequency == 1.0 && (p.ratio == 1.0 || p.ratio == 2.0)
    ensures p.a == Red
  {
    match e
    case RtcAccess => Pattern(Red, Color(0, 0, 255), 1.0, 1.0)
    case GpsAccess => Pattern(Red, Color(255, 255, 0), 1.0, 1.0)
    case SensorAccess => Pattern(Red, Color(0, 255, 0), 1.0, 1.0)
    case SensorIncoherent => Pattern(Red, Color(0, 255, 0), 1.0, 2.0)
    case SdFull => Pattern(Red, Color(255, 255, 255), 1.0, 1.0)
    case SdAccess => Pattern(Red, Color(255, 255, 255), 1.0, 2.0)
  }

  /** Duration of colour A in ms: the period `1000 / frequency` split in the
      proportion 1 : ratio, truncated to an integer as the `unsigned long`
      cast does. */
  function PhaseA(e: ErrorCode): int
  {
    var p := PatternOf(e);
    (1000.0 / p.frequency / (1.0 + p.ratio)).Floor
  }

  /** Duration of colour B in ms: `ratio` times the untruncated A duration,
      then truncated. */
  function PhaseB(e: ErrorCode): int
  {
    var p := PatternOf(e);
    (1000.0 / p.frequency / (1.0 + p.ratio) * p.ratio).Floor
  }

  /** With the table's constants every fault blinks 500/500 ms (ratio 1) or
      333/666 ms (ratio 2). */
  lemma PhaseDurations(e: ErrorCode)
    ensures PatternOf(e).ratio == 1.0 ==> PhaseA(e) == 500 && PhaseB(e) == 500
    ensures PatternOf(e).ratio == 2.0 ==> PhaseA(e) == 333 && PhaseB(e) == 666
  {
    var p := PatternOf(e);
    if p.ratio == 2.0 {
      assert 1000.0 / p.frequency / (1.0 + p.ratio) == 1000.0 / 3.0;
      assert 333.0 <= 1000.0 / 3.0 < 334.0;
      assert 666.0 <= 1000.0 / 3.0 * 2.0 < 667.0;
    } else {
      assert 1000.0 / p.frequency / (1.0 + p.ratio) == 500.0;
    }
  }

  /** The engine's static state: the active fault (`current_error`, with
      `-1` as `None`), the colour being shown, the start of the current
      phase, the completed cycles, the stored mode colour, and the colour
      the LED is driven with. */
  datatype LedState = LedState(
    current: Option<ErrorCode>,
    showingFirst: bool,
    lastUpdate: U32,
    cyclesDone: nat,
    modeColor: Color,
    shown: Color)

  predicate Busy(s: LedState)
  {
    s.current.Some?
  }

  /** The engine's invariant: an idle engine has no cycle count, and an
      active animation has not yet reached `MaxCycles`. */
  predicate Inv(s: LedState)
  {
    (!Busy(s) ==> s.cyclesDone == 0) && (Busy(s) ==> s.cyclesDone < MaxCycles)
  }

  /** While an animation runs the LED shows its pattern's colour for the
      current phase (which `SetModeColor` may override). */
  predicate Coherent(s: LedState)
  {
    Busy(s) ==> s.shown == (if s.showingFirst then PatternOf(s.current.value).a else PatternOf(s.current.value).b)
  }

  const Initial: LedState := LedState(None, true, 0, 0, Black, Black)

  /** `Led_SetModeColor`: remember the mode colour and show it at once,
      even over a running animation. */
  function SetModeColorStep(s: LedState, c: Color): (r: LedState)
    ensures r.modeColor == c && r.shown == c
    ensures r.current == s.current && r.showingFirst == s.showingFirst
    ensures r.lastUpdate == s.lastUpdate && r.cyclesDone == s.cyclesDone
    ensures Inv(s) ==> Inv(r)
  {
    s.(modeColor := c, shown := c)
  }

  /** `Led_Clear`: stop the animation and go back to the mode colour. */
  function ClearStep(s: LedState): (r: LedState)
    ensures !Busy(r) && Inv(r) && Coherent(r)
    ensures r.shown == s.modeColor && r.modeColor == s.modeColor
  {
    s.(current := None, cyclesDone := 0, shown := s.modeColor)
  }

  /** `Led_Feedback(id)` at time `now`. */
  function FeedbackStep(s: LedState, id: nat, now: U32): (r: LedState)
    ensures Busy(s) || id >= ErrorCount ==> r == s
    ensures Busy(r) <==> Busy(s) || id < ErrorCount
    ensures !Busy(s) && id < ErrorCount ==>
      r.current == Code(id) && r.showingFirst && r.cyclesDone == 0 && r.lastUpdate == now
    ensures r.modeColor == s.modeColor
    ensures Inv(s) ==> Inv(r)
    ensures Coherent(s) ==> Coherent(r)
  {
    match Code(id)
    case None => s
    case Some(e) =>
      if Busy(s) then s
      else LedState(Some(e), true, now, 0, s.modeColor, PatternOf(e).a)
  }

  /** `Led_Update` polled at time `now`. */
  function UpdateStep(s: LedState, now: U32): (r: LedState)
    ensures !Busy(s) ==> r == s
    ensures r.modeColor == s.modeColor
    ensures Inv(s) ==> Inv(r)
    ensures Coherent(s) ==> Coherent(r)
    ensures Busy(s) && !Busy(r) ==> r.shown == s.modeColor && s.cyclesDone + 1 >= MaxCycles && !s.showingFirst
  {
    match s.current
    case None => s
    case Some(e) =>
      var p := PatternOf(e);
      if s.showingFirst then
        if Elapsed(now, s.lastUpdate) >= PhaseA(e) then
          s.(shown := p.b, showingFirst := false, lastUpdate := now)
        else s
      else if Elapsed(now, s.lastUpdate) >= PhaseB(e) then
        var next := s.(shown := p.a, showingFirst := true, lastUpdate := now, cyclesDone := s.cyclesDone + 1);
        if next.cyclesDone >= MaxCycles then ClearStep(next) else next
      else s
  }

  /** The duration of the phase an animation is in. */
  function PhaseLength(s: LedState): int
    requires Busy(s)
  {
    if s.showingFirst then PhaseA(s.current.value) else PhaseB(s.current.value)
  }

  /** A poll that comes before the current phase is over changes nothing. */
  lemma UpdateBeforeDue(s: LedState, now: U32)
    requires Busy(s)
    requires Elapsed(now, s.lastUpdate) < PhaseLength(s)
    ensures UpdateStep(s, now) == s
  {
  }

  /** A poll that comes when the current phase is over, however late:
      the other colour is shown from `now` on, and the end of phase B
      completes a cycle, the second of which ends the animation on the
      mode colour. */
  lemma UpdateWhenDue(s: LedState, now: U32)
    requires Inv(s) && Busy(s)
    requires Elapsed(now, s.lastUpdate) >= PhaseLength(s)
    ensures var r, p := UpdateStep(s, now), PatternOf(s.current.value);
      && r.lastUpdate == now && r.showingFirst == !s.showingFirst && r.modeColor == s.modeColor
      && (s.showingFirst ==> r.current == s.current && r.shown == p.b && r.cyclesDone == s.cyclesDone)
      && (!s.showingFirst && s.cyclesDone + 1 < MaxCycles ==>
            r.current == s.current && r.shown == p.a && r.cyclesDone == s.cyclesDone + 1)
      && (!s.showingFirst && s.cyclesDone + 1 >= MaxCycles ==>
            r.current.None? && r.shown == s.modeColor && r.cyclesDone == 0)
  {
  }

  /** Starting from an idle engine, a fault shows colour A, then B, A, B, and
      with the fourth on-time poll the animation ends and the mode colour is
      back: exactly two complete cycles, however the clock wraps. */
  lemma AnimationRunsTwoCycles(s: LedState, id: nat, t0: U32)
    requires Inv(s) && !Busy(s) && id < ErrorCount
    ensures
      var e := Code(id).value;
      var s1 := FeedbackStep(s, id, t0);
      var t1 := After(t0, PhaseA(e));
      var s2 := UpdateStep(s1, t1);
      var t2 := After(t1, PhaseB(e));
      var s3 := UpdateStep(s2, t2);
      var t3 := After(t2, PhaseA(e));
      var s4 := UpdateStep(s3, t3);
      var t4 := After(t3, PhaseB(e));
      var s5 := UpdateStep(s4, t4);
      && Busy(s1) && s1.shown == PatternOf(e).a
      && Busy(s2) && s2.shown == PatternOf(e).b
      && Busy(s3) && s3.shown == PatternOf(e).a && s3.cyclesDone == 1
      && Busy(s4) && s4.shown == PatternOf(e).b
      && !Busy(s5) && s5.shown == s.modeColor && s5.cyclesDone == 0
  {
    var e := Code(id).value;
    PhaseDurations(e);
    var t1 := After(t0, PhaseA(e));
    var t2 := After(t1, PhaseB(e));
    var t3 := After(t2, PhaseA(e));
    var t4 := After(t3, PhaseB(e));
    ElapsedAfter(t0, PhaseA(e));
    ElapsedAfter(t1, PhaseB(e));
    ElapsedAfter(t2, PhaseA(e));
    ElapsedAfter(t3, PhaseB(e));
  }

  /** The LED engine of `LedManager.cpp`, whose static variables become the
      fields of one object. */
  class LedEngine {
    var currentError: Option<ErrorCode>
    var showingFirstColor: bool
    var lastUpdateTime: U32
    var cyclesDone: nat
    var modeColor: Color
    /** the colour the chainable LED is currently driven with */
    var shown: Color

    ghost function State(): LedState
      reads this
    {
      LedState(currentError, showingFirstColor, lastUpdateTime, cyclesDone, modeColor, shown)
    }

    /** `Led_Init`: the static initial values, with the LED switched off. */
    constructor ()
      ensures State() == Initial
    {
      currentError := None;
      showingFirstColor := true;
      lastUpdateTime := 0;
      cyclesDone := 0;
      modeColor := Black;
      shown := Black;
    }

    /** `Led_IsBusy` */
    function IsBusy(): (b: bool)
      reads this
      ensures b <==> Busy(State())
    {
      currentError.Some?
    }

    /** `Led_SetColor`: drive the LED. */
    method SetColor(c: Color)
      modifies this
      ensures State() == old(State()).(shown := c)
    {
      shown := c;
    }

    method SetModeColor(c: Color)
      modifies this
      ensures State() == SetModeColorStep(old(State()), c)
    {
      modeColor := c;
      SetColor(c);
    }

    /** `Led_RestoreModeColor` */
    method RestoreModeColor()
      modifies this
      ensures State() == old(State()).(shown := old(modeColor))
    {
      SetColor(modeColor);
    }

    method Feedback(id: nat, now: U32)
      modifies this
      ensures State() == FeedbackStep(old(State()), id, now)
    {
      if id >= ErrorCount {
        return;
      }
      if IsBusy() {
        return;
      }
      var e := Code(id).value;
      currentError := Some(e);
      showingFirstColor := true;
      lastUpdateTime := now;
      cyclesDone := 0;
      var pattern := PatternOf(e);
      SetColor(pattern.a);
    }

    method Clear()
      modifies this
      ensures State() == ClearStep(old(State()))
    {
      currentError := None;
      cyclesDone := 0;
      RestoreModeColor();
    }

    method Update(now: U32)
      modifies this
      ensures State() == UpdateStep(old(State()), now)
    {
      if !IsBusy() {
        return;
      }
      var e := currentError.value;
      var pattern := PatternOf(e);
      if showingFirstColor {
        if Elapsed(now, lastUpdateTime) >= PhaseA(e) {
          SetColor(pattern.b);
          showingFirstColor := false;
          lastUpdateTime := now;
        }
      } else {
        if Elapsed(now, lastUpdateTime) >= PhaseB(e) {
          SetColor(pattern.a);
          showingFirstColor := true;
          lastUpdateTime := now;
          cyclesDone := cyclesDone + 1;
          if cyclesDone >= MaxCycles {
            Clear();
          }
        }
      }
    }
  }
}
