/** The sensor manager (`CapteurManager`): range checking of one reading
    against inclusive bounds, the temperature/pressure plausibility fault,
    and selection of the first `$GPGGA` sentence from the GPS serial line. */
module Sensors {
  import opened Common
  import Led

  /** A 10-bit `analogRead` result. */
  type Adc = x: int | 0 <= x < 1024

  /** `SensorParams`: an enable flag and inclusive bounds per channel. */
  datatype SensorParams = SensorParams(
    tempAir: bool, minTempAir: int, maxTempAir: int,
    hygr: bool, hygrMinT: int, hygrMaxT: int,
    pressure: bool, pressureMin: real, pressureMax: real,
    lumin: bool, luminLow: int, luminHigh: int)

  /** The bounds the constructor installs. */
  const DefaultParams: SensorParams :=
    SensorParams(true, -10, 60, true, 0, 50, true, 850.0, 1080.0, true, 200, 700)

  /** What the transducers deliver: BME280 temperature (°C), humidity (%),
      pressure already in hPa, and the light sensor's ADC count. */
  datatype Raw = Raw(temperature: real, humidity: real, pressure: real, luminosity: Adc)

  /** `SensorData`: the values and one out-of-range flag per channel. */
  datatype SensorData = SensorData(
    temperature: real, humidity: real, pressure: real, luminosity: int,
    tempError: bool, hygrError: bool, pressError: bool, luminError: bool)

  /** `SensorData d = {}`: everything zero, no flag raised. */
  const Zero: SensorData := SensorData(0.0, 0.0, 0.0, 0, false, false, false, false)

  /** A value is accepted iff it lies within its bounds, both included. */
  predicate Within(v: real, lo: real, hi: real)
  {
    lo <= v <= hi
  }

  /** The flags `readSensors` computes for a successful read. The enable
      flags of `p` are not consulted. */
  function Validate(p: SensorParams, raw: Raw): (d: SensorData)
    ensures d.temperature == raw.temperature && d.humidity == raw.humidity
    ensures d.pressure == raw.pressure && d.luminosity == raw.luminosity
    ensures d.tempError <==> !Within(raw.temperature, p.minTempAir as real, p.maxTempAir as real)
    ensures d.hygrError <==> !Within(raw.humidity, p.hygrMinT as real, p.hygrMaxT as real)
    ensures d.pressError <==> !Within(raw.pressure, p.pressureMin, p.pressureMax)
    ensures d.luminError <==> !Within(raw.luminosity as real, p.luminLow as real, p.luminHigh as real)
  {
    SensorData(
      raw.temperature, raw.humidity, raw.pressure, raw.luminosity,
      raw.temperature < p.minTempAir as real || raw.temperature > p.maxTempAir as real,
      raw.humidity < p.hygrMinT as real || raw.humidity > p.hygrMaxT as real,
      raw.pressure < p.pressureMin || raw.pressure > p.pressureMax,
      raw.luminosity < p.luminLow || raw.luminosity > p.luminHigh)
  }

  /** Temperature and pressure serve as a joint plausibility check. */
  predicate Incoherent(d: SensorData)
  {
    d.tempError || d.pressError
  }

  /** The whole of `readSensors`: the reading and the fault it requests. */
  function ReadOutcome(bmeOK: bool, p: SensorParams, raw: Raw): (r: (SensorData, Option<Led.ErrorCode>))
    ensures !bmeOK ==> r == (Zero, Some(Led.SensorAccess))
    ensures bmeOK ==> r.0 == Validate(p, raw)
    ensures bmeOK ==> (r.1 == Some(Led.SensorIncoherent) <==> Incoherent(r.0))
    ensures bmeOK ==> (r.1.None? <==> !Incoherent(r.0))
  {
    if !bmeOK then (Zero, Some(Led.SensorAccess))
    else
      var d := Validate(p, raw);
      (d, if Incoherent(d) then Some(Led.SensorIncoherent) else None)
  }

  /** Values lying exactly on a bound raise no flag. */
  lemma BoundsAreInclusive(p: SensorParams, raw: Raw)
    requires raw.temperature == p.minTempAir as real || raw.temperature == p.maxTempAir as real
    requires raw.pressure == p.pressureMin || raw.pressure == p.pressureMax
    requires p.minTempAir <= p.maxTempAir && p.pressureMin <= p.pressureMax
    ensures !Validate(p, raw).tempError && !Validate(p, raw).pressError
    ensures !Incoherent(Validate(p, raw))
  {
  }

  /** Switching a channel's enable flag changes no flag: the flags are
      computed for every channel. */
  lemma EnableFlagsIgnored(p: SensorParams, raw: Raw, t: bool, h: bool, pr: bool, l: bool)
    ensures Validate(p.(tempAir := t, hygr := h, pressure := pr, lumin := l), raw) == Validate(p, raw)
  {
  }

  /** A humidity or luminosity fault alone requests nothing; a temperature
      or pressure fault requests the incoherence fault whatever the other
      two channels say. */
  lemma IncoherenceIgnoresHumidityAndLight(p: SensorParams, raw: Raw, h: real, l: Adc)
    ensures ReadOutcome(true, p, raw).1 == ReadOutcome(true, p, raw.(humidity := h, luminosity := l)).1
  {
  }

  /** With the default bounds, the ranges are temperature [-10, 60],
      humidity [0, 50], pressure [850, 1080] and light [200, 700]. */
  lemma DefaultBounds(raw: Raw)
    ensures !Validate(DefaultParams, raw).tempError <==> -10.0 <= raw.temperature <= 60.0
    ensures !Validate(DefaultParams, raw).hygrError <==> 0.0 <= raw.humidity <= 50.0
    ensures !Validate(DefaultParams, raw).pressError <==> 850.0 <= raw.pressure <= 1080.0
    ensures !Validate(DefaultParams, raw).luminError <==> 200 <= raw.luminosity <= 700
  {
  }

  /** The sentence header `readGPS` looks for. */
  const Gga: string := "$GPGGA"

  /** `readGPS`'s answer when no sentence was found. */
  const NoGpsData: string := "No GPS data"

  predicate StartsWith(s: string, prefix: string)
  {
    |prefix| <= |s| && s[..|prefix|] == prefix
  }

  /** The position of the first `$GPGGA` line, if any. */
  function FirstGga(lines: seq<string>): (r: Option<nat>)
    ensures r.Some? ==> r.value < |lines| && StartsWith(lines[r.value], Gga)
    ensures r.Some? ==> forall k :: 0 <= k < r.value ==> !StartsWith(lines[k], Gga)
    ensures r.None? ==> forall k :: 0 <= k < |lines| ==> !StartsWith(lines[k], Gga)
  {
    if lines == [] then None
    else if StartsWith(lines[0], Gga) then Some(0)
    else match FirstGga(lines[1..])
      case None => None
      case Some(i) => Some(i + 1)
  }

  /** The sensor manager object: whether the BME280 came up, the bounds,
      the fault LED it reports to, and the lines waiting on the GPS serial
      port. */
  class CapteurManager {
    var bmeOK: bool
    var params: SensorParams
    const led: Led.LedEngine
    var gpsLines: seq<string>

    constructor (led: Led.LedEngine, gpsLines: seq<string>)
      ensures this.led == led && this.gpsLines == gpsLines
      ensures !bmeOK && params == DefaultParams
    {
      this.led := led;
      this.gpsLines := gpsLines;
      bmeOK := false;
      params := DefaultParams;
    }

    /** `begin`: `initOk` is what the BME280 driver answered. */
    method Begin(initOk: bool, now: U32) returns (ok: bool)
      modifies this, led
      ensures ok == initOk && bmeOK == initOk
      ensures params == old(params) && gpsLines == old(gpsLines)
      ensures led.State() == if initOk then old(led.State())
                             else Led.FeedbackStep(old(led.State()), Led.Index(Led.SensorAccess), now)
    {
      bmeOK := initOk;
      if !bmeOK {
        led.Feedback(Led.Index(Led.SensorAccess), now);
        return false;
      }
      return true;
    }

    /** `readSensors`: `raw` is what the transducers would deliver. */
    method ReadSensors(raw: Raw, now: U32) returns (d: SensorData)
      modifies led
      ensures d == ReadOutcome(bmeOK, params, raw).0
      ensures led.State() == match ReadOutcome(bmeOK, params, raw).1
        case None => old(led.State())
        case Some(e) => Led.FeedbackStep(old(led.State()), Led.Index(e), now)
    {
      d := Zero;
      if !bmeOK {
        led.Feedback(Led.Index(Led.SensorAccess), now);
        return;
      }
      d := Validate(params, raw);
      if d.tempError || d.pressError {
        led.Feedback(Led.Index(Led.SensorIncoherent), now);
      }
    }

    /** `readGPS`: read lines while some are available and return the first
        `$GPGGA` one; the lines before it are consumed with it. */
    method ReadGPS(now: U32) returns (line: string)
      modifies this, led
      ensures bmeOK == old(bmeOK) && params == old(params)
      ensures match FirstGga(old(gpsLines))
        case Some(i) =>
          line == old(gpsLines)[i] && gpsLines == old(gpsLines)[i + 1..]
          && led.State() == old(led.State())
        case None =>
          line == NoGpsData && gpsLines == []
          && led.State() == Led.FeedbackStep(old(led.State()), Led.Index(Led.GpsAccess), now)
    {
      ghost var consumed := 0;
      while gpsLines != []
        invariant 0 <= consumed <= |old(gpsLines)|
        invariant gpsLines == old(gpsLines)[consumed..]
        invariant forall k :: 0 <= k < consumed ==> !StartsWith(old(gpsLines)[k], Gga)
        invariant led.State() == old(led.State())
        invariant bmeOK == old(bmeOK) && params == old(params)
        decreases |gpsLines|
      {
        var next := gpsLines[0];
        gpsLines := gpsLines[1..];
        consumed := consumed + 1;
        if StartsWith(next, Gga) {
          return next;
        }
      }
      led.Feedback(Led.Index(Led.GpsAccess), now);
      line := NoGpsData;
    }
  }
}
