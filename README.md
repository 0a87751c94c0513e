# Environmental data logger — verified model of its control core

This project models and verifies the control logic of an Arduino environmental logger (Projet_www). The logger reads a BME280 sensor, a light sensor and a GPS receiver. It signals faults on a chainable RGB LED and is configured over a serial console.

The model covers four parts of the firmware:

- **`controller.dfy`, module `Controller`** (`src/main.cpp`). The operating-mode state machine: Off, Standard, Config, Maintenance and Eco.
  - The buttons: a press leaves Off, and a red or green hold longer than 5 s switches mode, once per press.
  - `setMode` and its colour table.
  - The body of the one-second timer interrupt, which counts towards an acquisition or towards the automatic return from Config.
  - The main `loop`, which drives the LED engine, the console and the sensors.
- **`led.dfy`, module `Led`** (`lib/ledManager`). The fault-animation engine: one active fault at a time; requests made while busy are dropped; the A/B blink ends by itself after two cycles and gives back the stored mode colour.
- **`sensors.dfy`, module `Sensors`** (`lib/capteurManager`). The range flags of a reading, the "incoherent" fault (temperature or pressure), the zeroed reading when the BME280 never came up, and the choice of the first `$GPGGA` line.
- **`config.dfy`, module `Config`** (`lib/configManager`). The fifteen parameters and their EEPROM copy, the bounded line buffer, the command interpreter (SET, GET, RESET, VERSION, PARAMS, EXIT) and load-time validation.
- **`ctext.dfy`, module `CText`**. The console's C-string scanners: `up`, `iequals_P`, `toIntFast`, `nextToken` and `parseClockSpec`. They work in place on a character array holding NUL-terminated strings.
- **`common.dfy`, module `Common`**. `Option`, 32-bit `millis()` arithmetic with wrap-around, and colours.

Each part that updates state in place is a class:

- `Led.LedEngine`, `Sensors.CapteurManager`, `Config.Console` and `Controller.Controller`.
- Each method is proved against a pure step function on a state value, for example `State() == UpdateStep(old(State()), now)`.
- Lemmas about those step functions state what the firmware promises.

`nextToken` and `parseClockSpec` write NULs into the real buffer (`array<char>`), and their loops are proved directly.

Hardware is replaced by parameters:

- button levels, `millis()`, serial bytes, BME280 values and GPS lines are inputs;
- the LED colour is a field;
- EEPROM is a stored `Params` record;
- the clock chip is a log of the dates passed to `setupTime`;
- serial output is a log of abstract replies.

Where the prose documentation of the project and the code disagree, the model follows the code:

- Maintenance is shown as (255, 80, 0).
- A hold must last strictly more than 5000 ms.
- `TEMP_RETOUR_AUTO` is 10 s, not the 3 minutes the Config message announces.
- `main.cpp` uses its own `LOG_INTERVAL` of 10 ticks, not the configurable parameter.
- The sensor enable flags are never consulted.
- `readGPS` only selects a line.
- `Led_SetModeColor` drives the LED even during an animation.
- EXIT has no lasting effect on the inactivity count: `ConfigManager_Update` zeroes it right after the command returns.

## Model

| member | source | states |
|---|---|---|
| Common.Elapsed | Projet_www/lib/ledManager/LedManager.cpp:78 | `now - last` on `unsigned long` is the true elapsed time, also across a wrap of the clock |
| Common.ElapsedAfter | Projet_www/src/main.cpp:104 | the time elapsed since `since`, read `d` ms later, is `d` whether or not `millis()` wrapped |
| Led.Code | Projet_www/lib/ledManager/LedManager.h:15-23 | an identifier names a fault iff it is below `ERROR_COUNT`, and then its enumeration index is the identifier |
| Led.PatternOf | Projet_www/lib/ledManager/LedManager.cpp:13-20 | every pattern starts red, blinks at 1 Hz and has ratio 1 or 2 |
| Led.PhaseDurations | Projet_www/lib/ledManager/LedManager.cpp:73-75 | the truncated phase lengths are 500/500 ms for ratio 1 and 333/666 ms for ratio 2 |
| Led.SetModeColorStep | Projet_www/lib/ledManager/LedManager.cpp:35-40 | the mode colour is stored and shown at once, even over an animation; the animation state and the engine invariant are kept |
| Led.ClearStep | Projet_www/lib/ledManager/LedManager.cpp:60-64 | after a clear the engine is idle with no cycle count and shows the stored mode colour |
| Led.FeedbackStep | Projet_www/lib/ledManager/LedManager.cpp:46-58 | a request is ignored when the id is at least `ERROR_COUNT` or an animation runs (no queueing); otherwise the fault is recorded, colour A is shown, the phase clock starts at `now` with zero cycles; invariant and coherence are kept |
| Led.UpdateStep | Projet_www/lib/ledManager/LedManager.cpp:66-91 | nothing happens when idle; the engine invariant (`cycles_done < MAX_CYCLES` while busy) and the shown colour being the current phase's colour are kept; an animation ends only on a B-to-A switch that completes the second cycle, and then shows the mode colour |
| Led.UpdateBeforeDue | Projet_www/lib/ledManager/LedManager.cpp:77-90 | a poll before the current phase's duration has elapsed changes nothing |
| Led.UpdateWhenDue | Projet_www/lib/ledManager/LedManager.cpp:77-90 | a poll at or after the end of the current phase (however late, across wrap-around) switches phase and restarts its timer at `now`: A to B shows colour B with the cycle count unchanged; B to A shows colour A and counts a cycle, unless that was the second cycle, in which case the animation ends on the mode colour with the count at zero |
| Led.AnimationRunsTwoCycles | Projet_www/lib/ledManager/LedManager.cpp:9 | from idle, a fault shows A, B, A, B and ends with the mode colour after exactly two cycles, polled on time, whatever the clock value |
| Led.LedEngine.IsBusy | Projet_www/lib/ledManager/LedManager.cpp:31-33 | busy iff a fault is recorded |
| Led.LedEngine.SetModeColor | Projet_www/lib/ledManager/LedManager.cpp:35-40 | the engine's new state is `SetModeColorStep` of the old one |
| Led.LedEngine.RestoreModeColor | Projet_www/lib/ledManager/LedManager.cpp:42-44 | only the shown colour changes, to the stored mode colour |
| Led.LedEngine.Feedback | Projet_www/lib/ledManager/LedManager.cpp:46-58 | the engine's new state is `FeedbackStep` of the old one |
| Led.LedEngine.Clear | Projet_www/lib/ledManager/LedManager.cpp:60-64 | the engine's new state is `ClearStep` of the old one |
| Led.LedEngine.Update | Projet_www/lib/ledManager/LedManager.cpp:66-91 | the engine's new state is `UpdateStep` of the old one |
| Sensors.Validate | Projet_www/lib/capteurManager/CapteurManager.cpp:29-37 | each channel's flag is raised iff its value lies outside its inclusive bounds; the values are passed through |
| Sensors.ReadOutcome | Projet_www/lib/capteurManager/CapteurManager.cpp:22-43 | without a BME280 the reading is all zero with no flag and the sensor-access fault is requested; otherwise the incoherent fault is requested iff the temperature or the pressure flag is up, and no fault otherwise |
| Sensors.BoundsAreInclusive | Projet_www/lib/capteurManager/CapteurManager.cpp:34-36 | values exactly on a bound raise no flag and no incoherence |
| Sensors.EnableFlagsIgnored | Projet_www/lib/capteurManager/CapteurManager.cpp:6 | the enable flags do not influence any flag |
| Sensors.IncoherenceIgnoresHumidityAndLight | Projet_www/lib/capteurManager/CapteurManager.cpp:39-40 | humidity and light never decide whether a fault is requested |
| Sensors.DefaultBounds | Projet_www/lib/capteurManager/CapteurManager.cpp:6 | the constructor's bounds accept temperature [-10, 60], humidity [0, 50], pressure [850, 1080] and light [200, 700] |
| Sensors.FirstGga | Projet_www/lib/capteurManager/CapteurManager.cpp:45-52 | the index found holds a `$GPGGA` line and no earlier line does; none found means no line does |
| Sensors.CapteurManager.constructor | Projet_www/lib/capteurManager/CapteurManager.cpp:3-7 | the sensor starts not ready, with the default bounds |
| Sensors.CapteurManager.Begin | Projet_www/lib/capteurManager/CapteurManager.cpp:9-20 | `bmeOK` and the result are the driver's answer; on failure the sensor-access fault is requested |
| Sensors.CapteurManager.ReadSensors | Projet_www/lib/capteurManager/CapteurManager.cpp:22-43 | returns `ReadOutcome`'s reading and requests its fault on the LED engine |
| Sensors.CapteurManager.ReadGPS | Projet_www/lib/capteurManager/CapteurManager.cpp:45-52 | returns the first `$GPGGA` line and consumes the lines up to it; with none, consumes everything, requests the GPS fault and returns "No GPS data" |
| CText.FirstNul | Projet_www/lib/configManager/ConfigManager.cpp:63 | the terminator of a C string is the first NUL at or after its start |
| CText.CStrFrame | Projet_www/lib/configManager/ConfigManager.cpp:87 | a C string is unaffected by writes outside its characters and terminator |
| CText.Up | Projet_www/lib/configManager/ConfigManager.cpp:54-57 | `up` maps 'a'..'z' to 'A'..'Z' and leaves every other character alone |
| CText.UpEqual | Projet_www/lib/configManager/ConfigManager.cpp:54-57 | two characters agree after `up` iff they are equal or are the two cases of one letter |
| CText.IEqualsP | Projet_www/lib/configManager/ConfigManager.cpp:60-67 | true iff the C string and the literal have the same length and agree after `up` |
| CText.DigitRun | Projet_www/lib/configManager/ConfigManager.cpp:74 | the digit run is the longest prefix of digits |
| CText.ToIntFast | Projet_www/lib/configManager/ConfigManager.cpp:70-79 | the result is `ParseInt` of the C string: optional '-', then the value of the longest digit run, 0 without digits, the rest ignored |
| CText.DecimalValue | Projet_www/lib/configManager/ConfigManager.cpp:74-76 | the digits of the decimal rendering of `n` have value `n` |
| CText.ParseDecimal | Projet_www/lib/configManager/ConfigManager.cpp:70-79 | parsing the decimal rendering of `n`, with or without '-', gives `n` or `-n`, whatever non-digit follows |
| CText.NoWordsIffBlank | Projet_www/lib/configManager/ConfigManager.cpp:82-85 | a text has no token iff it is all spaces |
| CText.NextToken | Projet_www/lib/configManager/ConfigManager.cpp:82-90 | no token iff only spaces remain, and then nothing changes; otherwise the token is the first word (non-empty, no space), a NUL replaces only the single space that ends it, and the cursor stands past that space (or on the end) on the remaining words |
| CText.Fields | Projet_www/lib/configManager/ConfigManager.cpp:96-101 | a spec splits into exactly the requested number of fields, none containing '-' |
| CText.FieldsOfJoin | Projet_www/lib/configManager/ConfigManager.cpp:96-101 | splitting fields joined by '-' gives them back, padded with empty fields, and text after the last '-' is dropped |
| CText.ClockRoundTrip | Projet_www/lib/configManager/ConfigManager.cpp:93-112 | `YYYY-MM-DD-HH-MM-SS` written in decimal reads back as that date and time, also with text after a sixth '-' |
| CText.ClockMissingFields | Projet_www/lib/configManager/ConfigManager.cpp:96-111 | a spec with only a date reads with hour, minute and second 0 |
| CText.ParseClockSpec | Projet_www/lib/configManager/ConfigManager.cpp:93-112 | fails only for a null spec; otherwise yields `ClockOf` of the spec text (six '-'-separated fields read by `toIntFast`) and leaves the buffer before the spec untouched |
| Config.With | Projet_www/lib/configManager/ConfigManager.cpp:186-200 | setting one parameter changes exactly that parameter |
| Config.LookupFrom | Projet_www/lib/configManager/ConfigManager.cpp:186-203 | the chain of name tests selects the first name equal ignoring case, and none when no name matches |
| Config.LookupParam | Projet_www/lib/configManager/ConfigManager.cpp:186-203 | the `iequals_P` chain over the fifteen names returns `Lookup` of the argument |
| Config.LookupFindsName | Projet_www/lib/configManager/ConfigManager.cpp:186-200 | a name typed in any case selects its own parameter (no two names clash) |
| Config.Classify | Projet_www/lib/configManager/ConfigManager.cpp:163-248 | the command is SET, GET, RESET, VERSION, PARAMS or EXIT iff the first word equals that keyword ignoring case |
| Config.CommandOf | Projet_www/lib/configManager/ConfigManager.cpp:163-248 | the `iequals_P` chain on the first argument returns `Classify` of it |
| Config.SetEffect | Projet_www/lib/configManager/ConfigManager.cpp:163-211 | SET never exits, and changes the parameters only with three words and a known name |
| Config.GetEffect | Projet_www/lib/configManager/ConfigManager.cpp:213-236 | GET changes nothing, saves nothing and sets no clock |
| Config.Execute | Projet_www/lib/configManager/ConfigManager.cpp:153-249 | a line requests the return from Config iff its first word is EXIT |
| Config.SetChangesOneField | Projet_www/lib/configManager/ConfigManager.cpp:184-209 | SET with a known name sets exactly that parameter to `toIntFast` of the value, and saves |
| Config.OnlySetAndResetChangeParams | Projet_www/lib/configManager/ConfigManager.cpp:153-249 | missing arguments, unknown names, SET CLOCK, GET, VERSION, PARAMS, EXIT and unknown commands leave the parameters unchanged |
| Config.ResetRestoresDefaults | Projet_www/lib/configManager/ConfigManager.cpp:238 | RESET restores the defaults and saves them |
| Config.SetThenGet | Projet_www/lib/configManager/ConfigManager.cpp:184-233 | GET after SET of a known name reads back `toIntFast` of the value |
| Config.Loaded | Projet_www/lib/configManager/ConfigManager.cpp:259-267 | after loading, `1 <= LOG_INTERVAL <= 3600`; a valid record is kept whole, an invalid one is replaced whole by the defaults |
| Config.Text | Projet_www/lib/configManager/ConfigManager.cpp:134-135 | the text dispatched for a line is the line up to its first NUL (the whole line if it has none) |
| Config.FeedStep | Projet_www/lib/configManager/ConfigManager.cpp:126-148 | CR changes nothing at all; LF empties the line and zeroes the inactivity count; any other byte is appended only while fewer than 47 are held, and every byte but LF leaves everything except the line (parameters, EEPROM, inactivity count, clock settings, replies) as it was |
| Config.FeedChars | Projet_www/lib/configManager/ConfigManager.cpp:140-146 | ordinary bytes fill the line up to 47 characters and the excess is lost |
| Config.NewlineZeroesSeconds | Projet_www/lib/configManager/ConfigManager.cpp:135-139 | after any dispatched line the inactivity count is 0, EXIT included |
| Config.Tokens | Projet_www/lib/configManager/ConfigManager.cpp:156-161 | the three arguments exist exactly as far as the line has words, and each is the C string of the word of its rank |
| Config.Console.constructor | Projet_www/lib/configManager/ConfigManager.cpp:14-21 | an empty line, the zero parameter record and the stored EEPROM record |
| Config.Console.Save | Projet_www/lib/configManager/ConfigManager.cpp:254-257 | EEPROM receives the parameters |
| Config.Console.Load | Projet_www/lib/configManager/ConfigManager.cpp:259-267 | the parameters become `Loaded` of EEPROM, and the defaults are written back when the record was invalid |
| Config.Console.Reset | Projet_www/lib/configManager/ConfigManager.cpp:269-273 | parameters and EEPROM both hold the defaults |
| Config.Console.SetCommand | Projet_www/lib/configManager/ConfigManager.cpp:163-211 | state changes as `SetEffect` says, including the clock setting and the save |
| Config.Console.SetClock | Projet_www/lib/configManager/ConfigManager.cpp:172-181 | the clock is set to `ClockOf` of the third word, the change is logged, the parameters are saved and `ClockUpdated` is replied, as `SetEffect` says |
| Config.Console.SetValue | Projet_www/lib/configManager/ConfigManager.cpp:183-209 | a known name gets the parsed value and the parameters are saved; an unknown name changes nothing and is reported, as `SetEffect` says |
| Config.Console.GetCommand | Projet_www/lib/configManager/ConfigManager.cpp:213-236 | only the reply changes, as `GetEffect` says |
| Config.Console.Dispatch | Projet_www/lib/configManager/ConfigManager.cpp:153-249 | the parameters, EEPROM, clock log, reply and EXIT's count are those of `Execute` on the words of the buffer's string |
| Config.Console.Feed | Projet_www/lib/configManager/ConfigManager.cpp:128-146 | the console's new state is `FeedStep` of the old one |
| Config.Console.Update | Projet_www/lib/configManager/ConfigManager.cpp:126-148 | the console's new state is `FeedAll` of the old one over the available bytes |
| Controller.ColorsDistinct | Projet_www/src/main.cpp:28-34 | no two modes share a colour |
| Controller.SetModeW | Projet_www/src/main.cpp:136-144 | `setMode` sets the mode, zeroes both second counters and stores and shows the mode's colour, and changes nothing else |
| Controller.SetupW | Projet_www/src/main.cpp:56-67 | `setup` loads the parameters (an out-of-range stored interval gives the defaults, which are also saved, so EEPROM then holds what is in use, with an interval in 1..3600), enters Off with its colour and zeroed counters, and leaves the other globals, the command line, the GPS input and the log alone; the LED state is given exactly: a sensor that comes up, or an animation already running, only changes the mode colour, and a sensor that fails on an idle LED starts the sensor-access animation on its first colour |
| Controller.RedW | Projet_www/src/main.cpp:102-118 | the red button never touches the line, the parameters, the GPS lines or the acquisitions |
| Controller.ButtonsW | Projet_www/src/main.cpp:99-134 | `handleButtons` keeps the line within its buffer |
| Controller.RedHold | Projet_www/src/main.cpp:102-113 | the red hold fires iff not yet fired in this press and held strictly over 5000 ms; it returns from Maintenance to `previousMode`, or stores the mode in `previousMode` and enters Maintenance |
| Controller.GreenHold | Projet_www/src/main.cpp:120-128 | a green hold swaps Standard and Eco and changes nothing in the other modes |
| Controller.ReleaseClears | Projet_www/src/main.cpp:114-118 | releasing a button clears its timer and latch only |
| Controller.RedFiresOnce | Projet_www/src/main.cpp:103-106 | once the red hold has fired, keeping the button down never changes the mode again |
| Controller.GreenFiresOnce | Projet_www/src/main.cpp:122-125 | once the green hold has fired, keeping the button down never changes the mode again |
| Controller.WaitValue | Projet_www/src/main.cpp:171 | the acquisition interval is doubled exactly in Eco and in a Maintenance entered from Eco |
| Controller.TickW | Projet_www/src/main.cpp:161-177 | a tick changes nothing in Off; afterwards the counter of the current mode is below its threshold; the mode never changes |
| Controller.TicksReachAcquisition | Projet_www/src/main.cpp:170-176 | counting from zero, the acquisition flag rises at the `wait_value`-th tick and not before |
| Controller.TicksReachTimeout | Projet_www/src/main.cpp:164-169 | counting from zero in Config, the return flag rises at the tenth tick and not before |
| Controller.AcquireW | Projet_www/src/main.cpp:179-221 | an acquisition lowers the flag, records one reading (printed in Maintenance, saved otherwise) and leaves the console alone |
| Controller.AcquisitionGuard | Projet_www/src/main.cpp:95-96 | an acquisition runs iff its flag is up and the mode is neither Config nor Off, and it clears the flag; otherwise nothing changes |
| Controller.OneFaultAtATime | Projet_www/src/main.cpp:181-183 | with the sensor down and the LED idle, the sensor fault is shown and the GPS fault of the same acquisition is dropped |
| Controller.OffPressEdge | Projet_www/src/main.cpp:73-77 | in Off a red press enters Config, otherwise a green press enters Standard, and no other mode logic runs |
| Controller.ConfigTimesOut | Projet_www/src/main.cpp:79-85 | in Config a raised return flag is cleared and Standard is entered instead of serving the console |
| Controller.ConfigServesConsole | Projet_www/src/main.cpp:86-91 | in Config without the flag, the console consumes the serial bytes and nothing else happens |
| Controller.Controller.constructor | Projet_www/src/main.cpp:37-47 | the globals' initial values: Off, previous mode Standard, no timers, latches or flags |
| Controller.Controller.Setup | Projet_www/src/main.cpp:56-67 | the new state is `SetupW` of the old one, the sensor flag is the driver's answer and the sensor parameters are unchanged |
| Controller.Controller.SetMode | Projet_www/src/main.cpp:136-144 | the new state is `SetModeW` of the old one |
| Controller.Controller.RedButton | Projet_www/src/main.cpp:102-118 | the new state is `RedW` of the old one |
| Controller.Controller.GreenButton | Projet_www/src/main.cpp:120-133 | the new state is `GreenW` of the old one |
| Controller.Controller.HandleButtons | Projet_www/src/main.cpp:99-134 | the new state is `ButtonsW` of the old one |
| Controller.Controller.Tick | Projet_www/src/main.cpp:161-177 | the new state is `TickW` of the old one |
| Controller.Controller.Acquire | Projet_www/src/main.cpp:179-183 | the new state is `AcquireW` of the old one, reading through the sensor manager |
| Controller.Controller.ConfigBranch | Projet_www/src/main.cpp:79-91 | timeout to Standard, or the console consumes the serial bytes |
| Controller.Controller.Modes | Projet_www/src/main.cpp:73-96 | the new state is `ModesW` of the old one |
| Controller.Controller.Loop | Projet_www/src/main.cpp:69-97 | the new state is `LoopW` of the old one: LED update, buttons, then the mode logic |

## Left out

- Hardware drivers: `Serial`, `digitalRead`, `analogRead`, `millis`, `ChainableLED`, `Adafruit_BME280`, `SoftwareSerial` and `EEPROM`. They are inputs or plain fields. Serial output is an abstract `Reply`; the prompt, message texts and `ConfigManager_printParams` formatting are not modelled.
- `lib/fileManager` (SD card) is not part of this model. `handleDataAcquisition`'s `dtostrf`/`strcpy` formatting and `saveData` are left out; each acquisition is recorded as a `Record`.
- `lib/clockManager` is not part of this model. `setupTime` is recorded as the date passed to it; `printTime` is not modelled.
- `configTimer1` and the interrupt's concurrency with `loop` (`volatile` globals) are left out. The tick is a separate sequential method.
- The pressure `* 0.01F` conversion and all float rounding are left out: sensor values are `real` and already in hPa. The LED phase lengths are the exact quotients, truncated.
- `CapteurManager::dataToCSV` and the `SensorParams` field widths (`int8_t`, `uint16_t`) are left out.
- `main.cpp` calls `readSensors()`/`readGPS(lat, lon)` and `LedManager_*`, which differ from the library's `CapteurManager` and `Led_*` interfaces. The model calls the library's operations and drops `lat`/`lon`.
- `loop` reads the buttons again after `handleButtons`. The model uses one sample per iteration for both reads.
- `Led_Update` and `Led_Feedback` read `millis()` themselves. The model passes the loop's `now`.
- CText.ToIntFast: integers are unbounded, so the 16-bit `int` overflow of long digit runs is not modelled.
- Config.Params: the `Parametres` declaration (`ConfigManager.h`) is not part of this model; fifteen `int` fields are assumed.
- Config.LookupParam: the fifteen-way `if` chain of `traiterCommande` is a loop over the name table. It makes the same tests in the same order.
- CText.ParseClockSpec: the check that all six field pointers are non-null can never fail, so it is not modelled.
- Controller.Controller.Setup: `LedManager_Init`, `configTimer1`, `ConfigManager_printParams` and the messages are not modelled; the LED engine is taken in whatever state it is given rather than reset.
- Config.Console.constructor: the global `params` is taken to be zero before `ConfigManager_load` runs.
