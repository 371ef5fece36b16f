# Fuzzy DHT irrigation controller, modelled in Dafny

The controller samples a DHT temperature/humidity sensor and derives a watering duration
with a Mamdani fuzzy engine (eFLL). On a fixed daily schedule it switches a relay on for
that duration, and it shows date, time, reading and duration on a 16x2 LCD. The model covers:

- the knowledge base as constant data (`fuzzy_sets.dfy`, `fuzzy_dht.dfy`). This is the three
  variables and their ids, the nine trapezoidal sets, and the 3 x 3 rule table. It also covers
  the `FuzzyDHT` object whose `update` overwrites `duration_out`;
- the sensor latch `get_dht_data` (`dht_util.dfy`). A good read overwrites the record and sets
  `status_ok`; a failed one leaves the record as it was, so `status_ok` is sticky;
- the date line of `lcd_print_data` and the values its second line prints (`lcd_print.dfy`);
- two cooperative schedulers, kept apart because they differ on purpose:
  - `MainUtil.ClockScheduler` (`src/main_util.h`). The relay is timed on RTC unix seconds and
    the duration is in minutes. Every good sample is run through the engine for the display.
  - `MainFuzzy.TickScheduler` (`test/main-fuzzy.cpp`). The relay arms lazily on `millis()` and
    the duration is in seconds. The engine runs only in the window.

  Each scheduler is a class with the C globals as fields, one method per `process*`
  function, and a `Tick` for one pass of the loop. Clock readings and sensor values are
  parameters; the relay level is returned as a `bool`.
- shared definitions: the `Option` wrapper and the fixed-width integer types (`common.dfy`),
  the DS3231 `Time` record (`rtc.dfy`), and the sensor loop's `SampleOutcome` beside the
  latch (`dht_util.dfy`);
- shared helpers (`timing.dfy`): wrap-around `uint32_t` subtraction, the interval gates, the
  relay timer test and the inference-window predicate.

The eFLL engine is not part of this model. Each scheduler takes it as an opaque function
`infer: (real, real) -> real`. The float-to-`uint32_t` casts `(uint32_t)(d * 60.0)` and
`(uint32_t)(d * 1000.0)` are opaque functions `real -> u32` too. Floats are `real`, and a
NaN reading is the `NaN` case of `DhtUtil.Reading`. `status_ok` is a `uint8_t` that only
ever holds 0 or 1, so it is modelled as a `bool`.

`test/main-fuzzy.cpp` repeats several parts of the library and of `src/main_util.h`:
- the sets and rules: modelled again as `FuzzyInitShape` and `FuzzyInitRules`, and proved equal
  to the library's;
- `createNewFuzzyRule` (lines 89-98): the same function as `FuzzyDht.CreateNewFuzzyRule`;
- `lcd_print_data` (lines 195-216): the same as `LcdPrint.LcdPrintData`;
- the window test (lines 226-228): the same as `Timing.InWindow`.

Behaviour worth knowing, all proved below:
- `status_ok` is never cleared. Once one read succeeds, the window admits seconds 0 to 10
  (11 seconds, `sec <= 10`) for good, and the display keeps showing the last good reading.
- The narrower window before any good read (seconds 0 to 5, 6 seconds, `sec <= 5`) is
  never observable: with
  `status_ok` clear, the inner `if (status_ok)` makes the window do nothing (the
  `ProcessFuzzySystem` of either scheduler changes no state then).
- In `src/main_util.h`, `processDHTSensor` tests the sticky flag, not the return value of
  `get_dht_data`. After the first success a failed read re-runs the engine on the stored
  values, leaving `duration_out` unchanged, and never reports `DhtError` again. This rests on
  the invariant `MainUtil.ClockScheduler.Coherent`: while `status_ok` is set, `duration_out`
  is the engine's output for the stored reading. The constructor establishes it and every
  state-changing step keeps it. For the same reason the `update` in `processFuzzySystem`
  never changes `duration_out`.
- While the clock is inside the window, every pass re-arms the relay timer at that pass's
  unix time (`MainUtil.ClockScheduler.Tick`), so the timer counts from the last pass made
  inside the window.
- On AVR `int` is 16 bits, so the `uint16_t` year is printed by `%04d` as a signed number: a
  year of 32768 or more shows with a minus sign (`LcdPrint.WideYearPrintsNegative`).
- In the millis variant, 0 also means "disarmed". A timer armed while `millis()` reads 0 is
  armed again on the next pass (`MainFuzzy.ZeroArmTimeRearms`).

## Model

| member | source | states |
|---|---|---|
| `Timing.Sub32` | src/main_util.h:155 | `uint32_t` subtraction equals a - b when a >= b and a - b + 2^32 otherwise |
| `Timing.ElapsedAfterAdvance` | src/main_util.h:146 | a counter advanced by k < 2^32 ticks gives back exactly k through wrap-around subtraction |
| `Timing.GateOpensAfterInterval` | src/main_util.h:170-171 | the sampling and display gates open exactly when at least `interval` ticks have passed since the last reset, across the counter's wrap too |
| `Timing.TimerLapsesAtLimit` | test/main-fuzzy.cpp:253-254 | the relay timer holds for k <= limit ticks after arming and lapses at tick limit + 1 |
| `Timing.WindowHours` | src/main_util.h:118-120 | the window holds iff hour is one of 7, 9, 11, 13, 15, minute is 0 and second <= 10 (status ok) or <= 5 (not ok) |
| `Timing.InWindow` | src/main_util.h:118-120 | the scheduled window: an odd hour from 7 to 15, minute 0 (`min <= 0` on a `uint8_t`), and second <= 5 + 5 * status_ok; the same test as test/main-fuzzy.cpp:226-228 |
| `Timing.GateOpen` | src/main_util.h:170 | the interval gate `t_now - t_last >= interval` on `uint32_t`; the same test gates the display at line 155 and test/main-fuzzy.cpp:268 and 280 |
| `Timing.TimerOn` | test/main-fuzzy.cpp:253-254 | the relay timer `now - start <= limit` on `uint32_t`; src/main_util.h:146 uses the same test |
| `Timing.WindowWidens` | test/main-fuzzy.cpp:228 | the narrow window before any good read is contained in the wide one |
| `FuzzySets.VariableId` | lib/FuzzyDHT/FuzzyDHT.h:24-26 | the variable ids are 1, 2 and 3 |
| `FuzzySets.VariableIdsDistinct` | lib/FuzzyDHT/FuzzyDHT.h:24-26 | two variables share an id iff they are the same variable |
| `FuzzySets.Shape` | lib/FuzzyDHT/FuzzyDHT.h:43-55 | every set's breakpoints are sorted, a <= b <= c <= d, and lie within [0, 100] |
| `FuzzySets.Sets` | lib/FuzzyDHT/FuzzyDHT.cpp:9-28 | each variable has three distinct sets of its own, added in order, and every set of the variable is among them |
| `FuzzySets.Domains` | lib/FuzzyDHT/FuzzyDHT.h:43-55 | the domains are [0,50] for temperature, [0,100] for humidity and [0,15] for the output |
| `FuzzySets.MiddleSetsAreTriangles` | lib/FuzzyDHT/FuzzyDHT.h:44-54 | suhu_normal, hum_normal and siram_cukup are triangles (b = c) |
| `FuzzySets.OuterSetsAreShoulders` | lib/FuzzyDHT/FuzzyDHT.h:43-55 | the first set of each variable has a = b = 0 and the last has c = d at the domain's high end |
| `FuzzySets.DomainIsSpanOfSupports` | lib/FuzzyDHT/FuzzyDHT.h:53-55 | every set's support lies within [Low, High], so the output universe [min a, max d] is [0,15] |
| `FuzzySets.AdjacentSetsOverlap` | lib/FuzzyDHT/FuzzyDHT.h:43-55 | each set starts before the previous one ends, so two adjacent sets can hold at once |
| `FuzzySets.SupportsCoverDomain` | lib/FuzzyDHT/FuzzyDHT.h:43-55 | every value of a variable's domain lies in the support [a,d] of one of its sets |
| `FuzzyDht.CreateNewFuzzyRule` | lib/FuzzyDHT/FuzzyDHT.cpp:71-80 | the rule carries its id, the AND of in1 and in2 and the single consequent out1; it is well formed iff in1 is a temperature set, in2 a humidity set and out1 an output set |
| `FuzzyDht.Rules` | lib/FuzzyDHT/FuzzyDHT.cpp:31-56 | exactly nine rules, the i-th with id i + 1, each well formed |
| `FuzzyDht.RuleIdsAscending` | lib/FuzzyDHT/FuzzyDHT.cpp:31-56 | rule ids strictly ascend in table order, hence are distinct |
| `FuzzyDht.AntecedentsDistinct` | lib/FuzzyDHT/FuzzyDHT.cpp:31-56 | no two rules have the same antecedent |
| `FuzzyDht.RuleGridTotal` | lib/FuzzyDHT/FuzzyDHT.cpp:31-56 | a pair of sets has a rule iff it is (temperature set, humidity set) |
| `FuzzyDht.RuleForPairUnique` | lib/FuzzyDHT/FuzzyDHT.cpp:31-56 | each grid pair has only one rule |
| `FuzzyDht.Consequent` | lib/FuzzyDHT/FuzzyDHT.cpp:31-56 | the table's output for a grid pair is an output set, given by the rule at some position i with id i + 1 |
| `FuzzyDht.ConsequentOfRule` | lib/FuzzyDHT/FuzzyDHT.cpp:31-56 | the output for the antecedent pair of any rule in the table is that rule's consequent |
| `FuzzyDht.ConsequentMonotoneInTemperature` | lib/FuzzyDHT/FuzzyDHT.cpp:31-56 | humidity held fixed, dingin -> normal -> panas never selects a shorter output set (sebentar < cukup < lama) |
| `FuzzyDht.NormalHumidityIsModerate` | lib/FuzzyDHT/FuzzyDHT.cpp:34-53 | rules 2, 5 and 8 (normal humidity) all map to siram_cukup |
| `FuzzyDht.FuzzyDHT.constructor` | lib/FuzzyDHT/FuzzyDHT.cpp:5-7 | a new object has duration_out = 0 |
| `FuzzyDht.FuzzyDHT.Update` | lib/FuzzyDHT/FuzzyDHT.cpp:89-96 | duration_out becomes the engine's output for (t, h), and nothing else of the object changes |
| `DhtUtil.ReadOk` | lib/DHT_Util/dht_util.h:29 | a read succeeds iff neither humidity nor temperature is NaN |
| `DhtUtil.Latch` | lib/DHT_Util/dht_util.h:29-35 | a good read sets status_ok and stores exactly the two values; a failed read leaves the record unchanged |
| `DhtUtil.DhtData.constructor` | src/main_util.h:33 | the record starts zeroed: status_ok = 0, both readings 0 |
| `DhtUtil.GetDhtData` | lib/DHT_Util/dht_util.h:23-37 | returns true iff neither value is NaN; the record becomes Latch of the old record; a true result equals the stored status_ok |
| `DhtUtil.StatusOkSticky` | lib/DHT_Util/dht_util.h:31-35 | once status_ok is set, it stays set after any later reads, good or bad |
| `DhtUtil.StatusOkIffSomeGoodRead` | lib/DHT_Util/dht_util.h:29-35 | after a series of reads, status_ok is set iff it was set before or some read was good |
| `DhtUtil.LastGoodReadWins` | lib/DHT_Util/dht_util.h:31-35 | after a series of reads the record holds exactly the values of the last good read |
| `DhtUtil.NoGoodReadKeepsRecord` | lib/DHT_Util/dht_util.h:31-35 | reads that all fail leave the record entirely unchanged |
| `LcdPrint.Decimal` | src/main_util.h:87 | `%d` of a non-negative number is a non-empty string of digits |
| `LcdPrint.ZeroPad` | src/main_util.h:87 | `%0Nd` prints only digits |
| `LcdPrint.DecimalRoundTrip` | src/main_util.h:87-89 | reading back the digits `%d` printed gives the number |
| `LcdPrint.DecimalLength` | src/main_util.h:87 | `%d` prints at most w >= 1 digits iff the number is below 10^w |
| `LcdPrint.ZeroPadFits` | src/main_util.h:87 | a number below 10^w is printed by `%0wd` in exactly w digits that read back to it |
| `LcdPrint.AsInt16` | src/main_util.h:87-88 | a `uint16_t` read back as a 16-bit `int` keeps values below 32768 and is negative (value - 65536) from there on |
| `LcdPrint.SignedZeroPad` | src/main_util.h:87 | `%0Nd` of a non-negative number is ZeroPad; of a negative one it starts with a minus sign |
| `LcdPrint.SignedZeroPadFits` | src/main_util.h:87 | a negative number whose magnitude is below 10^(w-1) prints in exactly w characters, the digits after the sign reading back as the magnitude |
| `LcdPrint.WideYearPrintsNegative` | src/main_util.h:87-88 | the year 65535 is passed as -1 and printed as "-001" |
| `LcdPrint.Separator` | src/main_util.h:89 | the hour/minute separator is ' ' on an odd second and ':' on an even one |
| `LcdPrint.DateText` | src/main_util.h:87-89 | the untruncated text of `"%02d-%02d-%04d %02d%c%02d"`: day, month, the year as a 16-bit signed `int`, hour, separator, minute |
| `LcdPrint.FormatDateLine` | src/main_util.h:86-89 | the line is the formatted text when that has at most 17 characters (the 18-byte buffer less its NUL), and otherwise exactly its first 17 characters |
| `LcdPrint.ColumnLayout` | src/main_util.h:87 | fields of widths 2, 2, 4, 2, 2 lay out as `DD-MM-YYYY HH?MM`, each in its own columns |
| `LcdPrint.DateLineLayout` | src/main_util.h:87-89 | for fields that fit their widths the line is exactly 16 characters `DD-MM-YYYY HH?MM`, and day, month, year, hour and minute read back from their columns |
| `LcdPrint.DateLineBlinks` | src/main_util.h:89 | column 13 is ':' iff the second is even and ' ' iff it is odd |
| `LcdPrint.LcdPrintData` | src/main_util.h:83-100 | the date line is FormatDateLine of the time; temperature and humidity are the stored values when status_ok and -1.0 otherwise; the duration is passed through |
| `MainUtil.ClockRelayRunsForDuration` | src/main_util.h:143-147 | armed at start, the relay is on k seconds later iff the duration is positive and k <= the limit in seconds; it is never on with a zero duration |
| `MainUtil.ClockRelayOn` | src/main_util.h:145-147 | the relay level: the active duration is positive and no more than the duration in seconds have passed since arming |
| `MainUtil.ClockScheduler.constructor` | src/main_util.h:33-46 | all timestamps start at the set-up millis (the assignment at src/main_util.h:251), the arm time and active duration at 0, the record zeroed and duration_out 0; the coherence invariant holds |
| `MainUtil.ClockScheduler.ProcessLcdDisplayData` | src/main_util.h:154-163 | when 1000 ms have passed, it resets the display timestamp and shows time, record and duration_out * 60; otherwise nothing changes and nothing is shown |
| `MainUtil.ClockScheduler.ProcessDhtSensor` | src/main_util.h:169-187 | when 5000 ms have passed, it resets the sample timestamp and latches the read; with status_ok it refreshes duration_out from the record; a failed read leaves duration_out unchanged, and once status_ok is set no DhtError is reported; coherence is kept |
| `MainUtil.ClockScheduler.ProcessFuzzySystem` | src/main_util.h:110-136 | in the window with status_ok the active duration becomes the engine's output and the arm time the current unix time; otherwise neither changes; duration_out itself never changes, and coherence is kept |
| `MainUtil.ClockScheduler.ProcessRelayOnOff` | src/main_util.h:142-148 | the relay is on iff the active duration is positive and unix_now - arm time mod 2^32 <= (uint32_t)(duration * 60); always off with duration 0 |
| `MainUtil.ClockScheduler.Tick` | src/main_util.h:261-276 | one pass runs display, sensor, window and relay in that order: the display shows the old state, and the relay uses the duration committed in the same pass; every field's new value is stated; a failed read leaves duration_out unchanged; coherence is kept |
| `MainFuzzy.FuzzyInitShape` | test/main-fuzzy.cpp:49-61 | this file's sets have sorted breakpoints |
| `MainFuzzy.FuzzyInitRules` | test/main-fuzzy.cpp:127-152 | fuzzyInit adds nine rules |
| `MainFuzzy.KnowledgeBaseMatchesLibrary` | test/main-fuzzy.cpp:49-152 | this file's breakpoints and rule table are identical to the library's |
| `MainFuzzy.LazyRelay` | test/main-fuzzy.cpp:247-261 | positive duration: arm at millis() only if disarmed (0) and be on iff millis - arm mod 2^32 <= limit; non-positive: disarm to 0 and off |
| `MainFuzzy.ArmTimeStable` | test/main-fuzzy.cpp:249-251 | under the relay rule of `processRelayOnOff` alone, a non-zero arm time never changes while the duration stays positive; on a whole pass the window's disarm (lines 231-234) resets it |
| `MainFuzzy.RelayRunsAfterRearm` | test/main-fuzzy.cpp:248-254 | after a disarm the next tick arms and is on; from then on the relay is on k ms later iff k <= limit |
| `MainFuzzy.ZeroArmTimeRearms` | test/main-fuzzy.cpp:249-250 | a timer armed at millis() = 0 is armed again on the next tick |
| `MainFuzzy.TickScheduler.constructor` | test/main-fuzzy.cpp:63-72 | timestamps start at the set-up millis (the assignment at test/main-fuzzy.cpp:355), arm time and duration at 0, the record zeroed |
| `MainFuzzy.TickScheduler.FuzzyProcessInput` | test/main-fuzzy.cpp:162-169 | the result is the engine's output for the two inputs |
| `MainFuzzy.TickScheduler.ProcessFuzzySystem` | test/main-fuzzy.cpp:222-241 | in the window with status_ok the duration becomes the engine's output and the arm time 0 (disarm); otherwise neither changes |
| `MainFuzzy.TickScheduler.ProcessRelayOnOff` | test/main-fuzzy.cpp:247-261 | the new arm time and relay level are LazyRelay of the old arm time |
| `MainFuzzy.TickScheduler.ProcessLcdDisplayData` | test/main-fuzzy.cpp:267-273 | when 1000 ms have passed, it resets the display timestamp and shows time, record and duration; otherwise nothing |
| `MainFuzzy.TickScheduler.ProcessDhtSensor` | test/main-fuzzy.cpp:279-288 | when 5000 ms have passed, it resets the sample timestamp and latches the read; a failure is only reported, and duration and arm time are untouched |
| `MainFuzzy.TickScheduler.DebugTest` | test/main-fuzzy.cpp:294-323 | reports INVALID iff an input is negative, and otherwise the engine's output as (uint32_t)(d * 1000); it changes no state |
| `MainFuzzy.TickScheduler.Tick` | test/main-fuzzy.cpp:371-386 | one pass runs display, sensor, relay and window in that order: the relay uses the previous pass's duration, and the window's disarm takes effect on the next pass; outside the window a positive duration keeps a non-zero arm time |

## Left out

- The eFLL engine: fuzzification, `FuzzySet::getPertinence`, min/max aggregation and centroid defuzzification. The library is not in the repository and is floating point, so the engine is the opaque `infer` function. The set degrees that `debugTest` prints are not modelled either.
- Floating point: `(uint32_t)(d * 60.0)` and `(uint32_t)(d * 1000.0)` are opaque functions; `dtostrf` on line 1 of the display is kept as the three values it would print; `duration_out * 60.0` is exact real multiplication.
- `MainFuzzy.TickScheduler.DebugTest`: its inputs are assumed to be numbers. `toFloat` of the console line (test/main-fuzzy.cpp:301-303) can give NaN, which fails `>= 0.0` and prints INVALID VALUE; a `real` parameter cannot express that case.
- Drivers and I/O: the serial console (`APP_DEBUG_PRINT`, `readStringUntil`, `toFloat`), the LCD, DS3231 and DHT drivers, `pinMode`/`digitalWrite`, `delay`, `lcd_init` and `relayInit`. Their readings are parameters and the relay level is a return value. Log lines show up only as `SampleOutcome`.
- The blocking debug loops. `while (1)` in the `debugTest` of `src/main_util.h` (lines 193-219) is not modelled, nor is its Y/N prompt. `for (;;) debugTest();` in the `setup` of `test/main-fuzzy.cpp` would make `loop` unreachable; `loop` is modelled anyway, and `debugTest` as a single step.
- `FuzzyDHT::begin` has an empty body. `t_last_fuzzy` is set at set-up and never read.
- `test/fztest.cpp` is not part of this model. It is a harness that reads the sensor and calls `update` every 5 s through `delay`.
- Heap allocation and the object graph of `FuzzyInput`, `FuzzyRule`, antecedents and consequents: the rules are a constant sequence of values.
