/** The millis-based control loop of `test/main-fuzzy.cpp`: the sensor is only sampled
    every 5 s; the engine runs only inside the scheduled window, disarming the relay
    timer; the relay arms itself lazily on the `millis()` counter and stays on for the
    duration in seconds. The file builds its own copy of the knowledge base. */
module MainFuzzy {
  import opened Common
  import opened Rtc
  import opened Timing
  import opened FuzzySets
  import opened DhtUtil
  import opened FuzzyDht
  import opened LcdPrint

  /** The breakpoints this file gives its nine sets. */
  function FuzzyInitShape(s: SetName): (t: Trapezoid)
    ensures Sorted(t)
  {
    match s
    case SuhuDingin => Trapezoid(0.0, 0.0, 19.0, 25.0)
    case SuhuNormal => Trapezoid(20.0, 25.0, 25.0, 30.0)
    case SuhuPanas => Trapezoid(25.0, 30.0, 50.0, 50.0)
    case HumKering => Trapezoid(0.0, 0.0, 50.0, 70.0)
    case HumNormal => Trapezoid(50.0, 70.0, 70.0, 90.0)
    case HumLembab => Trapezoid(70.0, 90.0, 100.0, 100.0)
    case SiramSebentar => Trapezoid(0.0, 0.0, 7.0, 10.0)
    case SiramCukup => Trapezoid(7.0, 10.0, 10.0, 12.0)
    case SiramLama => Trapezoid(10.0, 12.0, 15.0, 15.0)
  }

  /** The rules `fuzzyInit` adds, in order. */
  function FuzzyInitRules(): (rs: seq<Rule>)
    ensures |rs| == 9
  {
    [ CreateNewFuzzyRule(1, SuhuDingin, HumKering, SiramSebentar),
      CreateNewFuzzyRule(2, SuhuDingin, HumNormal, SiramCukup),
      CreateNewFuzzyRule(3, SuhuDingin, HumLembab, SiramSebentar),
      CreateNewFuzzyRule(4, SuhuNormal, HumKering, SiramSebentar),
      CreateNewFuzzyRule(5, SuhuNormal, HumNormal, SiramCukup),
      CreateNewFuzzyRule(6, SuhuNormal, HumLembab, SiramCukup),
      CreateNewFuzzyRule(7, SuhuPanas, HumKering, SiramLama),
      CreateNewFuzzyRule(8, SuhuPanas, HumNormal, SiramCukup),
      CreateNewFuzzyRule(9, SuhuPanas, HumLembab, SiramLama) ]
  }

  /** The copy of the knowledge base is identical to the library's: same breakpoints,
      same rules in the same order. */
  lemma KnowledgeBaseMatchesLibrary(s: SetName)
    ensures FuzzyInitShape(s) == Shape(s)
    ensures FuzzyInitRules() == Rules()
  {
  }

  /** What `debugTest` reports: the inferred duration in milliseconds, or
      `INVALID VALUE` for a negative input. */
  datatype DebugReport = InvalidValue | DurationMs(ms: u32)

  /** What the hardware returns during one pass of `loop`, one field per read:
      `millis()` at the top, the RTC time read for the display, the DHT sample, the two
      `millis()` reads of `processRelayOnOff` (arming, then comparing) and the RTC time
      read by `processFuzzySystem`. */
  datatype TickReadings = TickReadings(
    millis: u32, lcdTime: Time, sample: Sample, armMillis: u32, relayMillis: u32,
    fuzzyTime: Time)

  /** The relay rule: with a positive duration, arm at `armMillis` unless already
      armed (0 means disarmed) and stay on while no more than `limit` ms have passed;
      otherwise disarm and switch off. The result is the new arm time and the level. */
  function LazyRelay(start: u32, duration: real, armMillis: u32, nowMillis: u32, limit: u32):
    (r: (u32, bool))
    ensures duration > 0.0 ==> r.0 == (if start == 0 then armMillis else start)
    ensures duration > 0.0 ==> (r.1 <==> TimerOn(r.0, nowMillis, limit))
    ensures duration <= 0.0 ==> r.0 == 0 && !r.1
  {
    if duration > 0.0 then
      var s := if start == 0 then armMillis else start;
      (s, Sub32(nowMillis, s) <= limit)
    else
      (0, false)
  }

  /** The one-step rule of `LazyRelay` iterated: under the relay rule of
      `processRelayOnOff` alone, a timer armed at a non-zero time keeps its arm time while
      the duration stays positive. The whole-pass fact, where the window's disarm can
      still reset it, is an ensures of `TickScheduler.Tick`. */
  lemma {:induction false} ArmTimeStable(start: u32, duration: real, arms: seq<u32>, limit: u32)
    requires duration > 0.0 && start != 0
    ensures RelayAfter(start, duration, arms, limit) == start
    decreases |arms|
  {
    if arms != [] {
      ArmTimeStable(LazyRelay(start, duration, arms[0], arms[0], limit).0, duration, arms[1..], limit);
    }
  }

  /** The arm time after the relay rule has run at each of `arms` in turn, each entry
      serving as both `millis()` reads of that run. */
  function RelayAfter(start: u32, duration: real, arms: seq<u32>, limit: u32): u32
    decreases |arms|
  {
    if arms == [] then start
    else RelayAfter(LazyRelay(start, duration, arms[0], arms[0], limit).0, duration, arms[1..], limit)
  }

  /** After the window disarms the timer, the first tick with a positive duration arms
      it; from then the relay is on for that tick and the `limit` ms after it, and off
      from tick `limit + 1` on. */
  lemma RelayRunsAfterRearm(duration: real, armMillis: u32, later: u32, k: nat, limit: u32)
    requires duration > 0.0 && armMillis != 0 && k < TWO_POW_32
    ensures LazyRelay(0, duration, armMillis, armMillis, limit) == (armMillis, true)
    ensures LazyRelay(armMillis, duration, later, Add32(armMillis, k), limit) == (armMillis, k <= limit)
  {
    ElapsedAfterAdvance(armMillis, 0);
    TimerLapsesAtLimit(armMillis, k, limit);
  }

  /** 0 doubles as "disarmed": a timer armed while `millis()` reads 0 is armed again
      on the next tick. */
  lemma ZeroArmTimeRearms(duration: real, later: u32, now: u32, limit: u32)
    requires duration > 0.0
    ensures LazyRelay(LazyRelay(0, duration, 0, 0, limit).0, duration, later, now, limit).0 == later
  {
  }

  /** The globals of `main-fuzzy.cpp` that the loop updates. */
  class TickScheduler {
    var tNow: u32
    var tLastDhtAcquired: u32
    var tLastLcdDisplay: u32
    var tRelayStartOn: u32
    var fuzzyDurationOut: real
    const sensorOutput: DhtData
    /** The engine `fuzzyInit` builds: setInput, fuzzify, defuzzify. */
    const infer: (real, real) -> real
    /** `(uint32_t)(d * 1000.0)`: a duration in seconds as whole milliseconds. */
    const toMillis: real -> u32

    /** The global initialisers and the timing set-up of `setup`. */
    constructor (millisAtSetup: u32, engine: (real, real) -> real, toMillis: real -> u32)
      ensures tNow == millisAtSetup && tLastDhtAcquired == millisAtSetup
      ensures tLastLcdDisplay == millisAtSetup
      ensures tRelayStartOn == 0 && fuzzyDurationOut == 0.0
      ensures fresh(sensorOutput) && sensorOutput.Value() == EMPTY
      ensures infer == engine && this.toMillis == toMillis
    {
      sensorOutput := new DhtData();
      infer := engine;
      this.toMillis := toMillis;
      fuzzyDurationOut := 0.0;
      tRelayStartOn := 0;
      tNow, tLastDhtAcquired, tLastLcdDisplay := millisAtSetup, millisAtSetup, millisAtSetup;
    }

    /** `fuzzyProcessInput`: run the engine on the two inputs. */
    method FuzzyProcessInput(tempx: real, humx: real) returns (durationOut: real)
      ensures durationOut == infer(tempx, humx)
    {
      durationOut := infer(tempx, humx);
    }

    /** `processFuzzySystem`: inside the scheduled window, with a good reading latched,
      run the engine and disarm the relay timer so that it re-arms on the next tick. */
    method ProcessFuzzySystem(now: Time)
      modifies this`fuzzyDurationOut, this`tRelayStartOn
      ensures InWindow(now, sensorOutput.statusOk) && sensorOutput.statusOk ==>
        fuzzyDurationOut == infer(sensorOutput.temperature, sensorOutput.humidity)
        && tRelayStartOn == 0
      ensures !(InWindow(now, sensorOutput.statusOk) && sensorOutput.statusOk) ==>
        fuzzyDurationOut == old(fuzzyDurationOut) && tRelayStartOn == old(tRelayStartOn)
    {
      if now.hour >= 7 && now.hour <= 15 && now.hour % 2 == 1 {
        if now.min <= 0 {
          if now.sec <= 5 + (if sensorOutput.statusOk then 5 else 0) {
            if sensorOutput.statusOk {
              fuzzyDurationOut := FuzzyProcessInput(sensorOutput.temperature, sensorOutput.humidity);
              tRelayStartOn := 0;
            }
          }
        }
      }
    }

    /** `processRelayOnOff`: arm lazily and return the level written to the relay pin;
      `armMillis` and `nowMillis` are its two `millis()` reads. */
    method ProcessRelayOnOff(armMillis: u32, nowMillis: u32) returns (relay: bool)
      modifies this`tRelayStartOn
      ensures (tRelayStartOn, relay) ==
        LazyRelay(old(tRelayStartOn), fuzzyDurationOut, armMillis, nowMillis, toMillis(fuzzyDurationOut))
    {
      if fuzzyDurationOut > 0.0 {
        if tRelayStartOn == 0 {
          tRelayStartOn := armMillis;
        }
        relay := Sub32(nowMillis, tRelayStartOn) <= toMillis(fuzzyDurationOut);
      } else {
        if tRelayStartOn != 0 {
          tRelayStartOn := 0;
        }
        relay := false;
      }
    }

    /** `processLCDDisplayData`: once a second, show the time, the latched reading and
      the current duration. */
    method ProcessLcdDisplayData(now: Time) returns (screen: Option<Screen>)
      modifies this`tLastLcdDisplay
      ensures GateOpen(tNow, old(tLastLcdDisplay), DISPLAY_INTERVAL_MS) ==>
        tLastLcdDisplay == tNow
        && screen == Some(LcdPrintData(now, sensorOutput.Value(), fuzzyDurationOut))
      ensures !GateOpen(tNow, old(tLastLcdDisplay), DISPLAY_INTERVAL_MS) ==>
        tLastLcdDisplay == old(tLastLcdDisplay) && screen == None
    {
      if Sub32(tNow, tLastLcdDisplay) >= DISPLAY_INTERVAL_MS {
        tLastLcdDisplay := tNow;
        screen := Some(LcdPrintData(now, sensorOutput.Value(), fuzzyDurationOut));
      } else {
        screen := None;
      }
    }

    /** `processDHTSensor`: every 5 s, read the sensor into the record; a failure is
      only logged. */
    method ProcessDhtSensor(sample: Sample) returns (outcome: SampleOutcome)
      modifies this`tLastDhtAcquired, sensorOutput
      ensures GateOpen(tNow, old(tLastDhtAcquired), SAMPLE_INTERVAL_MS) ==>
        tLastDhtAcquired == tNow
        && sensorOutput.Value() == Latch(old(sensorOutput.Value()), sample.hum, sample.tempx)
        && outcome == (if sensorOutput.statusOk then Sampled else DhtError)
      ensures !GateOpen(tNow, old(tLastDhtAcquired), SAMPLE_INTERVAL_MS) ==>
        tLastDhtAcquired == old(tLastDhtAcquired)
        && sensorOutput.Value() == old(sensorOutput.Value()) && outcome == NotDue
    {
      if Sub32(tNow, tLastDhtAcquired) >= SAMPLE_INTERVAL_MS {
        tLastDhtAcquired := tNow;
        var _ := GetDhtData(sample.hum, sample.tempx, sensorOutput);
        outcome := if sensorOutput.statusOk then Sampled else DhtError;
      } else {
        outcome := NotDue;
      }
    }

    /** `debugTest` for one pair of console inputs: the engine runs only when both are
      non-negative, and nothing the loop uses changes either way. */
    method DebugTest(tempx: real, humx: real) returns (report: DebugReport)
      ensures report.InvalidValue? <==> tempx < 0.0 || humx < 0.0
      ensures report.DurationMs? ==> report.ms == toMillis(infer(tempx, humx))
    {
      if tempx >= 0.0 && humx >= 0.0 {
        var durx := FuzzyProcessInput(tempx, humx);
        report := DurationMs(toMillis(durx));
      } else {
        report := InvalidValue;
      }
    }

    /** One pass of `loop`: display, then sensor, then relay, then the inference window,
      so a duration committed in the window reaches the relay on the next pass. */
    method Tick(r: TickReadings) returns (relay: bool, screen: Option<Screen>, outcome: SampleOutcome)
      modifies this, sensorOutput
      ensures tNow == r.millis
      ensures GateOpen(r.millis, old(tLastLcdDisplay), DISPLAY_INTERVAL_MS) ==>
        tLastLcdDisplay == r.millis
        && screen == Some(LcdPrintData(r.lcdTime, old(sensorOutput.Value()), old(fuzzyDurationOut)))
      ensures !GateOpen(r.millis, old(tLastLcdDisplay), DISPLAY_INTERVAL_MS) ==>
        tLastLcdDisplay == old(tLastLcdDisplay) && screen == None
      ensures GateOpen(r.millis, old(tLastDhtAcquired), SAMPLE_INTERVAL_MS) ==>
        tLastDhtAcquired == r.millis
        && sensorOutput.Value() == Latch(old(sensorOutput.Value()), r.sample.hum, r.sample.tempx)
        && outcome == (if sensorOutput.statusOk then Sampled else DhtError)
      ensures !GateOpen(r.millis, old(tLastDhtAcquired), SAMPLE_INTERVAL_MS) ==>
        tLastDhtAcquired == old(tLastDhtAcquired)
        && sensorOutput.Value() == old(sensorOutput.Value()) && outcome == NotDue
      ensures var (armed, level) := LazyRelay(old(tRelayStartOn), old(fuzzyDurationOut), r.armMillis,
                                              r.relayMillis, toMillis(old(fuzzyDurationOut)));
        relay == level
        && if InWindow(r.fuzzyTime, sensorOutput.statusOk) && sensorOutput.statusOk
           then fuzzyDurationOut == infer(sensorOutput.temperature, sensorOutput.humidity)
                && tRelayStartOn == 0
           else fuzzyDurationOut == old(fuzzyDurationOut) && tRelayStartOn == armed
      ensures old(fuzzyDurationOut) > 0.0 && old(tRelayStartOn) != 0
              && !(InWindow(r.fuzzyTime, sensorOutput.statusOk) && sensorOutput.statusOk) ==>
        tRelayStartOn == old(tRelayStartOn)
    {
      tNow := r.millis;
      screen := ProcessLcdDisplayData(r.lcdTime);
      outcome := ProcessDhtSensor(r.sample);
      relay := ProcessRelayOnOff(r.armMillis, r.relayMillis);
      ProcessFuzzySystem(r.fuzzyTime);
    }
  }
}
