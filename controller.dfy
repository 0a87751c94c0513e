/** The main program (`main.cpp`): the operating-mode state machine driven
    by the red and green buttons, the once-per-second timer tick that counts
    towards data acquisition or towards leaving Config mode, and the main
    loop that ties the LED engine, the console and the sensors together. */
module Controller {
  import opened Common
  import Led
  import Sensors
  import Config

  /** `Mode`, in the order that indexes `modeInfo`. */
  datatype Mode = Off | Standard | Configuration | Maintenance | Eco

  /** The colour `modeInfo` gives each mode. */
  function ModeColor(m: Mode): Color
  {
    match m
    case Off => Color(0, 0, 0)
    case Standard => Color(0, 255, 0)
    case Configuration => Color(255, 255, 0)
    case Maintenance => Color(255, 80, 0)
    case Eco => Color(0, 0, 255)
  }

  /** No two modes share a colour, so the LED tells the mode. */
  lemma ColorsDistinct(m: Mode, n: Mode)
    requires m != n
    ensures ModeColor(m) != ModeColor(n)
  {
  }

  /** A button must be held strictly longer than this many milliseconds. */
  const HoldMs: nat := 5000

  /** `LOG_INTERVAL` of the main program: ticks between acquisitions. */
  const LogInterval: nat := 10

  /** The globals of `main.cpp`, except `secondesEcoulees`, which belongs to
      the console. A start time of 0 means "not pressed". */
  datatype Ctl = Ctl(
    mode: Mode, previousMode: Mode,
    timerRouge: U32, timerVert: U32,
    rougeHeldDone: bool, vertHeldDone: bool,
    retourAutoFlag: bool, aquireDataFlag: bool,
    secondesData: nat)

  const InitialCtl: Ctl := Ctl(Off, Standard, 0, 0, false, false, false, false, 0)

  /** One run of `handleDataAcquisition`: whether it printed (Maintenance)
      rather than saved, the reading, and the GPS line. */
  datatype Record = Record(printed: bool, data: Sensors.SensorData, gps: string)

  /** Everything one iteration of `loop` can change: the globals, the LED
      engine, the console, the lines waiting on the GPS port, and the
      acquisitions made so far. */
  datatype World = World(
    ctl: Ctl, led: Led.LedState, console: Config.ConsoleState,
    gps: seq<string>, log: seq<Record>)

  /** The console's line never outgrows its buffer. */
  predicate Good(w: World)
  {
    |w.console.line| <= Config.CmdBuffer - 1
  }

  /** `setMode`: the new mode, both second counters at zero, and the
      mode's colour on the LED. */
  function SetModeW(w: World, m: Mode): (r: World)
    ensures r.ctl == w.ctl.(mode := m, secondesData := 0)
    ensures r.console == w.console.(secs := 0)
    ensures r.led == Led.SetModeColorStep(w.led, ModeColor(m))
    ensures r.gps == w.gps && r.log == w.log
  {
    w.(ctl := w.ctl.(mode := m, secondesData := 0),
       console := w.console.(secs := 0),
       led := Led.SetModeColorStep(w.led, ModeColor(m)))
  }

  /** `setup`: the parameters loaded from EEPROM (defaults, saved back, if
      the stored interval is out of range), mode Off, and the sensor
      started; `initOk` is what the BME280 driver answers, and a sensor
      that does not come up starts its fault animation unless one is
      already running. */
  function SetupW(w: World, initOk: bool, now: U32): (r: World)
    ensures r.ctl == w.ctl.(mode := Off, secondesData := 0)
    ensures r.console == w.console.(params := Config.Loaded(w.console.eeprom), eeprom := r.console.params, secs := 0)
    ensures 1 <= r.console.params.logInterval <= 3600
    ensures r.gps == w.gps && r.log == w.log
    ensures r.led.modeColor == ModeColor(Off)
    ensures initOk ==> r.led == Led.SetModeColorStep(w.led, ModeColor(Off))
    ensures Led.Busy(r.led) <==> Led.Busy(w.led) || !initOk
    ensures !initOk && !Led.Busy(w.led) ==>
      r.led.current == Some(Led.SensorAccess) && r.led.shown == Led.PatternOf(Led.SensorAccess).a
    ensures Led.Busy(w.led) ==> r.led == Led.SetModeColorStep(w.led, ModeColor(Off))
  {
    var p := Config.Loaded(w.console.eeprom);
    var w1 := SetModeW(w.(console := w.console.(params := p, eeprom := p)), Off);
    if initOk then w1
    else w1.(led := Led.FeedbackStep(w1.led, Led.Index(Led.SensorAccess), now))
  }

  /** The red button's half of `handleButtons`. */
  function RedW(w: World, pressed: bool, now: U32): (r: World)
    ensures r.console == w.console || r.console == w.console.(secs := 0)
    ensures r.gps == w.gps && r.log == w.log
  {
    if !pressed then w.(ctl := w.ctl.(timerRouge := 0, rougeHeldDone := false))
    else
      var start := if w.ctl.timerRouge == 0 then now else w.ctl.timerRouge;
      var c := w.ctl.(timerRouge := start);
      if !c.rougeHeldDone && Elapsed(now, start) > HoldMs then
        if c.mode == Maintenance then SetModeW(w.(ctl := c.(rougeHeldDone := true)), c.previousMode)
        else SetModeW(w.(ctl := c.(rougeHeldDone := true, previousMode := c.mode)), Maintenance)
      else w.(ctl := c)
  }

  /** The green button's half of `handleButtons`. */
  function GreenW(w: World, pressed: bool, now: U32): (r: World)
    ensures r.console == w.console || r.console == w.console.(secs := 0)
    ensures r.gps == w.gps && r.log == w.log
  {
    if !pressed then w.(ctl := w.ctl.(timerVert := 0, vertHeldDone := false))
    else
      var start := if w.ctl.timerVert == 0 then now else w.ctl.timerVert;
      var c := w.ctl.(timerVert := start);
      if !c.vertHeldDone && Elapsed(now, start) > HoldMs then
        var w' := w.(ctl := c.(vertHeldDone := true));
        if c.mode == Eco then SetModeW(w', Standard)
        else if c.mode == Standard then SetModeW(w', Eco)
        else w'
      else w.(ctl := c)
  }

  /** `handleButtons`: the red button first, then the green one. */
  function ButtonsW(w: World, red: bool, green: bool, now: U32): (r: World)
    ensures Good(w) ==> Good(r)
  {
    GreenW(RedW(w, red, now), green, now)
  }

  /** The start of the current red press, as `handleButtons` records it. */
  function RedStart(c: Ctl, now: U32): U32
  {
    if c.timerRouge == 0 then now else c.timerRouge
  }

  /** A red hold fires exactly when the button is down, has not fired
      during this press, and has been down strictly longer than 5000 ms.
      It then leaves Maintenance for the mode remembered on entry, or
      remembers the current mode and enters Maintenance; either way the
      counters restart and the LED takes the new mode's colour. */
  lemma RedHold(w: World, now: U32)
    ensures var r := RedW(w, true, now);
      var fires := !w.ctl.rougeHeldDone && Elapsed(now, RedStart(w.ctl, now)) > HoldMs;
      && r.ctl.timerRouge == RedStart(w.ctl, now)
      && r.ctl.rougeHeldDone
         == (w.ctl.rougeHeldDone || Elapsed(now, RedStart(w.ctl, now)) > HoldMs)
      && (!fires ==> r.ctl.mode == w.ctl.mode && r.led == w.led && r.console == w.console)
      && (fires && w.ctl.mode == Maintenance ==>
            r.ctl.mode == w.ctl.previousMode && r.ctl.previousMode == w.ctl.previousMode)
      && (fires && w.ctl.mode != Maintenance ==>
            r.ctl.mode == Maintenance && r.ctl.previousMode == w.ctl.mode)
      && (fires ==> r.ctl.secondesData == 0 && r.console.secs == 0
                    && r.led.modeColor == ModeColor(r.ctl.mode))
  {
  }

  /** A green hold swaps Standard and Eco and does nothing in any other mode. */
  lemma GreenHold(w: World, now: U32)
    requires !w.ctl.vertHeldDone
    requires w.ctl.timerVert != 0 && Elapsed(now, w.ctl.timerVert) > HoldMs
    ensures var r := GreenW(w, true, now);
      && r.ctl.vertHeldDone
      && (w.ctl.mode == Standard ==> r.ctl.mode == Eco)
      && (w.ctl.mode == Eco ==> r.ctl.mode == Standard)
      && (w.ctl.mode != Standard && w.ctl.mode != Eco ==>
            r.ctl.mode == w.ctl.mode && r.led == w.led && r.console == w.console)
  {
  }

  /** Releasing a button clears its timer and its latch and nothing else. */
  lemma ReleaseClears(w: World, now: U32)
    ensures RedW(w, false, now) == w.(ctl := w.ctl.(timerRouge := 0, rougeHeldDone := false))
    ensures GreenW(w, false, now) == w.(ctl := w.ctl.(timerVert := 0, vertHeldDone := false))
  {
  }

  /** The red button sampled down at each of the times `ts`. */
  function RedHeld(w: World, ts: seq<U32>): World
    decreases |ts|
  {
    if ts == [] then w else RedHeld(RedW(w, true, ts[0]), ts[1..])
  }

  /** A red hold fires at most once per press: once it has fired, keeping
      the button down changes neither the mode nor the LED nor the latch. */
  lemma {:induction false} RedFiresOnce(w: World, ts: seq<U32>)
    requires w.ctl.rougeHeldDone
    decreases |ts|
    ensures var r := RedHeld(w, ts);
      r.ctl.rougeHeldDone && r.ctl.mode == w.ctl.mode && r.ctl.previousMode == w.ctl.previousMode
      && r.led == w.led && r.console == w.console
  {
    if ts != [] {
      RedFiresOnce(RedW(w, true, ts[0]), ts[1..]);
    }
  }

  /** The green button sampled down at each of the times `ts`. */
  function GreenHeld(w: World, ts: seq<U32>): World
    decreases |ts|
  {
    if ts == [] then w else GreenHeld(GreenW(w, true, ts[0]), ts[1..])
  }

  /** A green hold fires at most once per press. */
  lemma {:induction false} GreenFiresOnce(w: World, ts: seq<U32>)
    requires w.ctl.vertHeldDone
    decreases |ts|
    ensures var r := GreenHeld(w, ts);
      r.ctl.vertHeldDone && r.ctl.mode == w.ctl.mode && r.led == w.led && r.console == w.console
  {
    if ts != [] {
      GreenFiresOnce(GreenW(w, true, ts[0]), ts[1..]);
    }
  }

  /** Ticks between acquisitions: twice `LOG_INTERVAL` in Eco and in a
      Maintenance entered from Eco. */
  function WaitValue(c: Ctl): (n: nat)
    ensures n == LogInterval || n == 2 * LogInterval
    ensures n == 2 * LogInterval <==> c.mode == Eco || (c.mode == Maintenance && c.previousMode == Eco)
  {
    if c.mode == Eco || (c.mode == Maintenance && c.previousMode == Eco) then LogInterval * 2 else LogInterval
  }

  /** The body of the one-second timer interrupt. */
  function TickW(w: World): (r: World)
    ensures r.ctl.mode == w.ctl.mode && r.ctl.previousMode == w.ctl.previousMode
    ensures r.led == w.led && r.gps == w.gps && r.log == w.log
    ensures r.console.line == w.console.line && r.console.params == w.console.params
    ensures w.ctl.mode == Off ==> r == w
    ensures w.ctl.mode == Configuration ==> r.console.secs < Config.TempRetourAuto && r.ctl.secondesData == w.ctl.secondesData
    ensures w.ctl.mode != Off && w.ctl.mode != Configuration ==>
      r.ctl.secondesData < WaitValue(r.ctl) && r.console.secs == w.console.secs
  {
    if w.ctl.mode == Off then w
    else if w.ctl.mode == Configuration then
      var s := w.console.secs + 1;
      if s >= Config.TempRetourAuto then
        w.(console := w.console.(secs := 0), ctl := w.ctl.(retourAutoFlag := true))
      else w.(console := w.console.(secs := s))
    else
      var d := w.ctl.secondesData + 1;
      if d >= WaitValue(w.ctl) then w.(ctl := w.ctl.(secondesData := 0, aquireDataFlag := true))
      else w.(ctl := w.ctl.(secondesData := d))
  }

  /** `n` ticks in a row. */
  function Ticks(w: World, n: nat): World
  {
    if n == 0 then w else TickW(Ticks(w, n - 1))
  }

  /** Outside Off and Config, counting from zero, the acquisition flag is
      raised by the `WaitValue`-th tick and not before. */
  lemma {:induction false} TicksReachAcquisition(w: World, n: nat)
    requires w.ctl.mode != Off && w.ctl.mode != Configuration
    requires w.ctl.secondesData == 0 && !w.ctl.aquireDataFlag
    requires n <= WaitValue(w.ctl)
    ensures Ticks(w, n).ctl.mode == w.ctl.mode && Ticks(w, n).ctl.previousMode == w.ctl.previousMode
    ensures n < WaitValue(w.ctl) ==> Ticks(w, n).ctl.secondesData == n && !Ticks(w, n).ctl.aquireDataFlag
    ensures n == WaitValue(w.ctl) ==> Ticks(w, n).ctl.secondesData == 0 && Ticks(w, n).ctl.aquireDataFlag
  {
    if n > 0 {
      TicksReachAcquisition(w, n - 1);
    }
  }

  /** In Config, counting from zero, the return flag is raised by the
      `TEMP_RETOUR_AUTO`-th tick and not before. */
  lemma {:induction false} TicksReachTimeout(w: World, n: nat)
    requires w.ctl.mode == Configuration
    requires w.console.secs == 0 && !w.ctl.retourAutoFlag
    requires n <= Config.TempRetourAuto
    ensures Ticks(w, n).ctl.mode == Configuration
    ensures n < Config.TempRetourAuto ==> Ticks(w, n).console.secs == n && !Ticks(w, n).ctl.retourAutoFlag
    ensures n == Config.TempRetourAuto ==> Ticks(w, n).console.secs == 0 && Ticks(w, n).ctl.retourAutoFlag
  {
    if n > 0 {
      TicksReachTimeout(w, n - 1);
    }
  }

  /** `handleDataAcquisition`: clear the flag, read the sensors, then the
      GPS; each may request a fault, and a fault requested while another
      animation runs is dropped. */
  function AcquireW(w: World, bmeOK: bool, sp: Sensors.SensorParams, raw: Sensors.Raw, now: U32): (r: World)
    ensures !r.ctl.aquireDataFlag && r.ctl == w.ctl.(aquireDataFlag := false)
    ensures r.console == w.console
    ensures |r.log| == |w.log| + 1 && r.log[..|w.log|] == w.log
    ensures r.log[|w.log|].printed <==> w.ctl.mode == Maintenance
    ensures r.log[|w.log|].data == Sensors.ReadOutcome(bmeOK, sp, raw).0
  {
    var out := Sensors.ReadOutcome(bmeOK, sp, raw);
    var led1 := match out.1
      case None => w.led
      case Some(e) => Led.FeedbackStep(w.led, Led.Index(e), now);
    var c := w.ctl.(aquireDataFlag := false);
    var printed := w.ctl.mode == Maintenance;
    match Sensors.FirstGga(w.gps)
    case Some(i) =>
      w.(ctl := c, led := led1, gps := w.gps[i + 1..], log := w.log + [Record(printed, out.0, w.gps[i])])
    case None =>
      w.(ctl := c, led := Led.FeedbackStep(led1, Led.Index(Led.GpsAccess), now), gps := [],
         log := w.log + [Record(printed, out.0, Sensors.NoGpsData)])
  }

  /** The guard in `loop`: acquisition runs only when its flag is up and the
      mode is neither Config nor Off. */
  function AcquireIfDue(w: World, bmeOK: bool, sp: Sensors.SensorParams, raw: Sensors.Raw, now: U32): World
  {
    if w.ctl.aquireDataFlag && w.ctl.mode != Configuration && w.ctl.mode != Off then AcquireW(w, bmeOK, sp, raw, now)
    else w
  }

  /** An acquisition happens exactly when it is due, and then lowers the
      flag; otherwise nothing changes. */
  lemma AcquisitionGuard(w: World, bmeOK: bool, sp: Sensors.SensorParams, raw: Sensors.Raw, now: U32)
    ensures var r := AcquireIfDue(w, bmeOK, sp, raw, now);
      var due := w.ctl.aquireDataFlag && w.ctl.mode != Configuration && w.ctl.mode != Off;
      && (|r.log| > |w.log| <==> due)
      && (due ==> !r.ctl.aquireDataFlag && r.ctl.mode == w.ctl.mode)
      && (!due ==> r == w)
  {
  }

  /** With the sensor failing and the LED idle, the sensor-access fault is
      shown and a GPS fault of the same acquisition is dropped. */
  lemma OneFaultAtATime(w: World, sp: Sensors.SensorParams, raw: Sensors.Raw, now: U32)
    requires !Led.Busy(w.led)
    ensures AcquireW(w, false, sp, raw, now).led.current == Some(Led.SensorAccess)
  {
    assert Led.Code(Led.Index(Led.SensorAccess)) == Some(Led.SensorAccess);
  }

  /** What one sample of the inputs feeds to `loop`: the buttons (down =
      `LOW`), the millisecond clock, the bytes waiting on the serial line,
      and what the transducers would deliver. */
  datatype Inputs = Inputs(red: bool, green: bool, now: U32, serial: seq<char>, raw: Sensors.Raw)

  /** `loop` after `handleButtons`: the Off branch that only watches for a
      press, the Config branch that times out or serves the console, and
      the acquisition guard. */
  function ModesW(w: World, bmeOK: bool, sp: Sensors.SensorParams, inp: Inputs): World
    requires Good(w)
  {
    if w.ctl.mode == Off then
      if inp.red then SetModeW(w, Configuration)
      else if inp.green then SetModeW(w, Standard)
      else w
    else
      var w1 :=
        if w.ctl.mode != Configuration then w
        else if w.ctl.retourAutoFlag then SetModeW(w.(ctl := w.ctl.(retourAutoFlag := false)), Standard)
        else w.(console := Config.FeedAll(w.console, inp.serial));
      AcquireIfDue(w1, bmeOK, sp, inp.raw, inp.now)
  }

  /** One iteration of `loop`: the LED animation, the buttons, then the
      mode logic. */
  function LoopW(w: World, bmeOK: bool, sp: Sensors.SensorParams, inp: Inputs): World
    requires Good(w)
  {
    var w0 := w.(led := Led.UpdateStep(w.led, inp.now));
    ModesW(ButtonsW(w0, inp.red, inp.green, inp.now), bmeOK, sp, inp)
  }

  /** In Off, after the buttons, a red press enters Config, otherwise a
      green press enters Standard; nothing else of the loop runs. */
  lemma OffPressEdge(w: World, bmeOK: bool, sp: Sensors.SensorParams, inp: Inputs)
    requires Good(w) && w.ctl.mode == Off
    ensures var r := ModesW(w, bmeOK, sp, inp);
      && r.ctl.mode == (if inp.red then Configuration else if inp.green then Standard else Off)
      && r.console.line == w.console.line && r.console.params == w.console.params
      && r.log == w.log && r.gps == w.gps
  {
  }

  /** In Config, once the return flag is up, the flag is lowered and the
      mode becomes Standard instead of serving the console. */
  lemma ConfigTimesOut(w: World, bmeOK: bool, sp: Sensors.SensorParams, inp: Inputs)
    requires Good(w) && w.ctl.mode == Configuration && w.ctl.retourAutoFlag
    ensures var r := ModesW(w, bmeOK, sp, inp);
      && r.ctl.mode == Standard && !r.ctl.retourAutoFlag
      && r.console.line == w.console.line && r.console.params == w.console.params
      && r.console.secs == 0 && r.ctl.secondesData == 0
  {
  }

  /** In Config without the return flag, the console consumes the serial
      bytes and no acquisition runs. */
  lemma ConfigServesConsole(w: World, bmeOK: bool, sp: Sensors.SensorParams, inp: Inputs)
    requires Good(w) && w.ctl.mode == Configuration && !w.ctl.retourAutoFlag
    ensures ModesW(w, bmeOK, sp, inp) == w.(console := Config.FeedAll(w.console, inp.serial))
  {
  }

  /** The main program's state: the globals of `main.cpp`, and the LED
      engine, console and sensor manager it drives. */
  class Controller {
    var mode: Mode
    var previousMode: Mode
    var timerRougeStart: U32
    var timerVertStart: U32
    var rougeHeldDone: bool
    var vertHeldDone: bool
    var retourAutoFlag: bool
    var aquireDataFlag: bool
    var secondesData: nat
    /** the acquisitions made so far */
    var log: seq<Record>
    const led: Led.LedEngine
    const console: Config.Console
    const sensors: Sensors.CapteurManager

    ghost predicate Valid()
      reads this, console, sensors
    {
      console.Valid() && sensors.led == led
    }

    ghost function Globals(): Ctl
      reads this
    {
      Ctl(mode, previousMode, timerRougeStart, timerVertStart, rougeHeldDone, vertHeldDone,
          retourAutoFlag, aquireDataFlag, secondesData)
    }

    ghost function W(): World
      reads this, led, console, console.cmdBuffer, sensors
      requires Valid()
    {
      World(Globals(), led.State(), console.State(), sensors.gpsLines, log)
    }

    /** The globals' static initial values. */
    constructor (led: Led.LedEngine, console: Config.Console, sensors: Sensors.CapteurManager)
      requires console.Valid() && sensors.led == led
      ensures Valid() && Globals() == InitialCtl && log == []
      ensures this.led == led && this.console == console && this.sensors == sensors
    {
      mode := Off;
      previousMode := Standard;
      timerRougeStart := 0;
      timerVertStart := 0;
      rougeHeldDone := false;
      vertHeldDone := false;
      retourAutoFlag := false;
      aquireDataFlag := false;
      secondesData := 0;
      log := [];
      this.led := led;
      this.console := console;
      this.sensors := sensors;
    }

    /** `setup`: load the parameters, enter Off, start the sensor.
        `initOk` is what the BME280 driver answers. */
    method Setup(initOk: bool, now: U32)
      requires Valid()
      modifies this, console, led, sensors
      ensures Valid() && W() == SetupW(old(W()), initOk, now)
      ensures sensors.bmeOK == initOk && sensors.params == old(sensors.params)
    {
      console.Load();
      SetMode(Off);
      var _ := sensors.Begin(initOk, now);
    }

    method SetMode(m: Mode)
      requires Valid()
      modifies this, console, led
      ensures Valid() && W() == SetModeW(old(W()), m)
    {
      mode := m;
      console.secondesEcoulees := 0;
      secondesData := 0;
      led.SetModeColor(ModeColor(m));
    }

    /** The red button's half of `handleButtons`. */
    method RedButton(pressed: bool, now: U32)
      requires Valid()
      modifies this, console, led
      ensures Valid() && W() == RedW(old(W()), pressed, now)
    {
      if pressed {
        if timerRougeStart == 0 {
          timerRougeStart := now;
        }
        if !rougeHeldDone && Elapsed(now, timerRougeStart) > HoldMs {
          rougeHeldDone := true;
          if mode == Maintenance {
            SetMode(previousMode);
          } else {
            previousMode := mode;
            SetMode(Maintenance);
          }
        }
      } else {
        timerRougeStart := 0;
        rougeHeldDone := false;
      }
    }

    /** The green button's half of `handleButtons`. */
    method GreenButton(pressed: bool, now: U32)
      requires Valid()
      modifies this, console, led
      ensures Valid() && W() == GreenW(old(W()), pressed, now)
    {
      if pressed {
        if timerVertStart == 0 {
          timerVertStart := now;
        }
        if !vertHeldDone && Elapsed(now, timerVertStart) > HoldMs {
          vertHeldDone := true;
          if mode == Eco {
            SetMode(Standard);
          } else if mode == Standard {
            SetMode(Eco);
          }
        }
      } else {
        timerVertStart := 0;
        vertHeldDone := false;
      }
    }

    /** `handleButtons`: `red` and `green` are the buttons sampled at `now`. */
    method HandleButtons(red: bool, green: bool, now: U32)
      requires Valid()
      modifies this, console, led
      ensures Valid() && W() == ButtonsW(old(W()), red, green, now)
    {
      RedButton(red, now);
      GreenButton(green, now);
    }

    /** The body of `ISR(TIMER1_COMPA_vect)`. */
    method Tick()
      requires Valid()
      modifies this, console
      ensures Valid() && W() == TickW(old(W()))
    {
      if mode == Off {
        return;
      }
      if mode == Configuration {
        console.secondesEcoulees := console.secondesEcoulees + 1;
        if console.secondesEcoulees >= Config.TempRetourAuto {
          console.secondesEcoulees := 0;
          retourAutoFlag := true;
        }
      } else {
        var waitValue := if mode == Eco || (mode == Maintenance && previousMode == Eco) then LogInterval * 2 else LogInterval;
        secondesData := secondesData + 1;
        if secondesData >= waitValue {
          secondesData := 0;
          aquireDataFlag := true;
        }
      }
    }

    /** `handleDataAcquisition`; printing and saving are recorded in `log`. */
    method Acquire(raw: Sensors.Raw, now: U32)
      requires Valid()
      modifies this, led, sensors
      ensures Valid() && W() == AcquireW(old(W()), sensors.bmeOK, sensors.params, raw, now)
      ensures sensors.bmeOK == old(sensors.bmeOK) && sensors.params == old(sensors.params)
    {
      aquireDataFlag := false;
      var data := sensors.ReadSensors(raw, now);
      var line := sensors.ReadGPS(now);
      log := log + [Record(mode == Maintenance, data, line)];
    }

    /** The Config branch of `loop`. */
    method ConfigBranch(serial: seq<char>)
      requires Valid() && mode == Configuration
      modifies this, console, console.cmdBuffer, led
      ensures Valid()
      ensures W() == if old(retourAutoFlag) then SetModeW(old(W()).(ctl := old(Globals()).(retourAutoFlag := false)), Standard)
                     else old(W()).(console := Config.FeedAll(old(console.State()), serial))
    {
      if retourAutoFlag {
        retourAutoFlag := false;
        SetMode(Standard);
      } else {
        console.Update(serial);
      }
    }

    /** `loop` after `handleButtons`. */
    method Modes(inp: Inputs)
      requires Valid()
      modifies this, console, console.cmdBuffer, led, sensors
      ensures Valid() && W() == ModesW(old(W()), sensors.bmeOK, sensors.params, inp)
      ensures sensors.bmeOK == old(sensors.bmeOK) && sensors.params == old(sensors.params)
    {
      if mode == Off {
        if inp.red {
          SetMode(Configuration);
        } else if inp.green {
          SetMode(Standard);
        }
        return;
      }
      if mode == Configuration {
        ConfigBranch(inp.serial);
      }
      if aquireDataFlag && mode != Configuration && mode != Off {
        Acquire(inp.raw, inp.now);
      }
    }

    /** `loop`, with `inp` standing for what the hardware would answer. */
    method Loop(inp: Inputs)
      requires Valid()
      modifies this, console, console.cmdBuffer, led, sensors
      ensures Valid() && W() == LoopW(old(W()), sensors.bmeOK, sensors.params, inp)
      ensures sensors.bmeOK == old(sensors.bmeOK) && sensors.params == old(sensors.params)
    {
      led.Update(inp.now);
      HandleButtons(inp.red, inp.green, inp.now);
      Modes(inp);
    }
  }
}
