/** The clock-based control loop of `src/main_util.h`: the sensor is sampled every 5 s
    and every good sample is run through the engine at once (for the display); in the
    scheduled window the result is committed as the active watering duration, in
    minutes, and the relay is timed against the RTC's unix-epoch seconds. */
module MainUtil {
  import opened Common
  import opened Rtc
  import opened Timing
  import opened DhtUtil
  import opened FuzzyDht
  import opened LcdPrint

  /** What the hardware returns during one pass of `main_app_loop`, one field per read:
      `millis()`, the RTC time read for the display, the DHT sample, the RTC time read by
      `processFuzzySystem`, the unix time it arms the relay with, and the unix time
      `processRelayOnOff` reads. */
  datatype ClockReadings = ClockReadings(
    millis: u32, lcdTime: Time, sample: Sample, fuzzyTime: Time, armUnix: u32, relayUnix: u32)

  /** The relay level: on while a positive duration is active and no more than
      `limit` seconds, the duration in whole seconds, have passed since arming. */
  predicate ClockRelayOn(duration: real, start: u32, now: u32, limit: u32) {
    duration > 0.0 && TimerOn(start, now, limit)
  }

  /** Armed at `start`, the relay is on for the arming second and the `limit` seconds
      after it, and off from then on; it is never on without a positive duration. */
  lemma ClockRelayRunsForDuration(duration: real, start: u32, k: nat, limit: u32)
    requires k < TWO_POW_32
    ensures ClockRelayOn(duration, start, Add32(start, k), limit) <==> duration > 0.0 && k <= limit
  {
    TimerLapsesAtLimit(start, k, limit);
  }

  /** The globals of `main_util.h` that the loop updates, with the objects they point to. */
  class ClockScheduler {
    var tNow: u32
    var tLastDhtAcquired: u32
    var tLastLcdDisplay: u32
    var tRelayStartOn: u32
    var durationSiramActive: real
    const fuzzy: FuzzyDHT
    const sensorOutput: DhtData
    /** `(uint32_t)(d * 60.0)`: a duration in minutes as whole seconds. */
    const toSeconds: real -> u32

    /** While the record holds a good reading, the engine's output is the one for that
      reading: every `update` after the first good read is on the latched values. */
    predicate Coherent()
      reads sensorOutput, fuzzy
    {
      sensorOutput.statusOk ==>
        fuzzy.durationOut == fuzzy.infer(sensorOutput.temperature, sensorOutput.humidity)
    }

    /** The global initialisers and the timing set-up of `main_app_setup`. */
    constructor (millisAtSetup: u32, engine: (real, real) -> real, toSeconds: real -> u32)
      ensures tNow == millisAtSetup && tLastDhtAcquired == millisAtSetup
      ensures tLastLcdDisplay == millisAtSetup
      ensures tRelayStartOn == 0 && durationSiramActive == 0.0
      ensures fresh(fuzzy) && fuzzy.durationOut == 0.0 && fuzzy.infer == engine
      ensures fresh(sensorOutput) && sensorOutput.Value() == EMPTY
      ensures this.toSeconds == toSeconds
      ensures Coherent()
    {
      fuzzy := new FuzzyDHT(engine);
      sensorOutput := new DhtData();
      this.toSeconds := toSeconds;
      durationSiramActive := 0.0;
      tRelayStartOn := 0;
      tNow, tLastDhtAcquired, tLastLcdDisplay := millisAtSetup, millisAtSetup, millisAtSetup;
    }

    /** `processLCDDisplayData`: once a second, show the time, the latched reading and
      the engine's latest output converted to seconds. */
    method ProcessLcdDisplayData(now: Time) returns (screen: Option<Screen>)
      modifies this`tLastLcdDisplay
      ensures GateOpen(tNow, old(tLastLcdDisplay), DISPLAY_INTERVAL_MS) ==>
        tLastLcdDisplay == tNow
        && screen == Some(LcdPrintData(now, sensorOutput.Value(), fuzzy.durationOut * 60.0))
      ensures !GateOpen(tNow, old(tLastLcdDisplay), DISPLAY_INTERVAL_MS) ==>
        tLastLcdDisplay == old(tLastLcdDisplay) && screen == None
    {
      if Sub32(tNow, tLastLcdDisplay) >= DISPLAY_INTERVAL_MS {
        tLastLcdDisplay := tNow;
        screen := Some(LcdPrintData(now, sensorOutput.Value(), fuzzy.durationOut * 60.0));
      } else {
        screen := None;
      }
    }

    /** `processDHTSensor`: every 5 s, read the sensor into the record and, while the
      record holds a good reading, refresh the engine's output from it. */
    method ProcessDhtSensor(sample: Sample) returns (outcome: SampleOutcome)
      requires Coherent()
      modifies this`tLastDhtAcquired, sensorOutput, fuzzy
      ensures Coherent()
      ensures GateOpen(tNow, old(tLastDhtAcquired), SAMPLE_INTERVAL_MS) ==>
        tLastDhtAcquired == tNow
        && sensorOutput.Value() == Latch(old(sensorOutput.Value()), sample.hum, sample.tempx)
        && outcome == (if sensorOutput.statusOk then Sampled else DhtError)
      ensures !GateOpen(tNow, old(tLastDhtAcquired), SAMPLE_INTERVAL_MS) ==>
        tLastDhtAcquired == old(tLastDhtAcquired)
        && sensorOutput.Value() == old(sensorOutput.Value()) && outcome == NotDue
      ensures outcome == Sampled ==>
        fuzzy.durationOut == fuzzy.infer(sensorOutput.temperature, sensorOutput.humidity)
      ensures outcome != Sampled ==> fuzzy.durationOut == old(fuzzy.durationOut)
      ensures !sample.Good() ==> fuzzy.durationOut == old(fuzzy.durationOut)
      ensures old(sensorOutput.statusOk) ==> outcome != DhtError
    {
      if Sub32(tNow, tLastDhtAcquired) >= SAMPLE_INTERVAL_MS {
        tLastDhtAcquired := tNow;
        var _ := GetDhtData(sample.hum, sample.tempx, sensorOutput);
        if !sensorOutput.statusOk {
          outcome := DhtError;
        } else {
          fuzzy.Update(sensorOutput.temperature, sensorOutput.humidity);
          outcome := Sampled;
        }
      } else {
        outcome := NotDue;
      }
    }

    /** `processFuzzySystem`: inside the scheduled window, with a good reading latched,
      run the engine, commit its output as the active duration and arm the relay at the
      current unix time. The record being coherent, that `update` gives back the output
      the engine already holds. */
    method ProcessFuzzySystem(now: Time, armUnix: u32)
      requires Coherent()
      modifies this`durationSiramActive, this`tRelayStartOn, fuzzy
      ensures Coherent()
      ensures InWindow(now, sensorOutput.statusOk) && sensorOutput.statusOk ==>
        fuzzy.durationOut == fuzzy.infer(sensorOutput.temperature, sensorOutput.humidity)
        && durationSiramActive == fuzzy.durationOut && tRelayStartOn == armUnix
      ensures !(InWindow(now, sensorOutput.statusOk) && sensorOutput.statusOk) ==>
        fuzzy.durationOut == old(fuzzy.durationOut)
        && durationSiramActive == old(durationSiramActive) && tRelayStartOn == old(tRelayStartOn)
      ensures fuzzy.durationOut == old(fuzzy.durationOut)
    {
      if now.hour >= 7 && now.hour <= 15 && now.hour % 2 == 1 {
        if now.min <= 0 {
          if now.sec <= 5 + (if sensorOutput.statusOk then 5 else 0) {
            if sensorOutput.statusOk {
              fuzzy.Update(sensorOutput.temperature, sensorOutput.humidity);
              durationSiramActive := fuzzy.durationOut;
              tRelayStartOn := armUnix;
            }
          }
        }
      }
    }

    /** `processRelayOnOff`: the level written to the relay pin. */
    method ProcessRelayOnOff(unixNow: u32) returns (relay: bool)
      ensures relay == ClockRelayOn(durationSiramActive, tRelayStartOn, unixNow,
                                    toSeconds(durationSiramActive))
      ensures durationSiramActive <= 0.0 ==> !relay
    {
      relay := durationSiramActive > 0.0
        && Sub32(unixNow, tRelayStartOn) <= toSeconds(durationSiramActive);
    }

    /** One pass of `main_app_loop`: display, then sensor, then the inference window,
      then the relay, so the relay sees a duration committed in the same pass while
      the display shows the state the previous pass left. */
    method Tick(r: ClockReadings) returns (relay: bool, screen: Option<Screen>, outcome: SampleOutcome)
      requires Coherent()
      modifies this, fuzzy, sensorOutput
      ensures Coherent()
      ensures tNow == r.millis
      ensures GateOpen(r.millis, old(tLastLcdDisplay), DISPLAY_INTERVAL_MS) ==>
        tLastLcdDisplay == r.millis
        && screen == Some(LcdPrintData(r.lcdTime, old(sensorOutput.Value()),
                                       old(fuzzy.durationOut) * 60.0))
      ensures !GateOpen(r.millis, old(tLastLcdDisplay), DISPLAY_INTERVAL_MS) ==>
        tLastLcdDisplay == old(tLastLcdDisplay) && screen == None
      ensures GateOpen(r.millis, old(tLastDhtAcquired), SAMPLE_INTERVAL_MS) ==>
        tLastDhtAcquired == r.millis
        && sensorOutput.Value() == Latch(old(sensorOutput.Value()), r.sample.hum, r.sample.tempx)
        && outcome == (if sensorOutput.statusOk then Sampled else DhtError)
      ensures !GateOpen(r.millis, old(tLastDhtAcquired), SAMPLE_INTERVAL_MS) ==>
        tLastDhtAcquired == old(tLastDhtAcquired)
        && sensorOutput.Value() == old(sensorOutput.Value()) && outcome == NotDue
      ensures InWindow(r.fuzzyTime, sensorOutput.statusOk) && sensorOutput.statusOk ==>
        durationSiramActive == fuzzy.infer(sensorOutput.temperature, sensorOutput.humidity)
        && tRelayStartOn == r.armUnix
      ensures !(InWindow(r.fuzzyTime, sensorOutput.statusOk) && sensorOutput.statusOk) ==>
        durationSiramActive == old(durationSiramActive) && tRelayStartOn == old(tRelayStartOn)
      ensures fuzzy.durationOut ==
        if outcome == Sampled || (InWindow(r.fuzzyTime, sensorOutput.statusOk) && sensorOutput.statusOk)
        then fuzzy.infer(sensorOutput.temperature, sensorOutput.humidity)
        else old(fuzzy.durationOut)
      ensures !r.sample.Good() ==> fuzzy.durationOut == old(fuzzy.durationOut)
      ensures old(sensorOutput.statusOk) ==> outcome != DhtError
      ensures relay == ClockRelayOn(durationSiramActive, tRelayStartOn, r.relayUnix,
                                    toSeconds(durationSiramActive))
    {
      tNow := r.millis;
      screen := ProcessLcdDisplayData(r.lcdTime);
      outcome := ProcessDhtSensor(r.sample);
      ProcessFuzzySystem(r.fuzzyTime, r.armUnix);
      relay := ProcessRelayOnOff(r.relayUnix);
    }
  }
}
