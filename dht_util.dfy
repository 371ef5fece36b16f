/** `get_dht_data`: read the DHT sensor and latch a good reading into a `dht_data_t`
    record, leaving the record alone when either value is not a number. */
module DhtUtil {

  /** A float returned by the sensor driver: a number, or NaN for an unreadable frame. */
  datatype Reading = NaN | Num(value: real)

  /** The contents of a `dht_data_t` record. `status_ok` is a `uint8_t` that only ever
      holds 0 or 1, so it is a boolean here. */
  datatype Record = Record(statusOk: bool, humidity: real, temperature: real)

  /** The zero-initialised record `{0}`. */
  const EMPTY: Record := Record(false, 0.0, 0.0)

  /** A read succeeds when neither value is NaN. */
  predicate ReadOk(hum: Reading, tempx: Reading) {
    hum.Num? && tempx.Num?
  }

  /** The record after one read: a good read overwrites all three fields, a failed one
      leaves the record as it was. */
  function Latch(rec: Record, hum: Reading, tempx: Reading): (r: Record)
    ensures ReadOk(hum, tempx) ==> r.statusOk && r.humidity == hum.value && r.temperature == tempx.value
    ensures !ReadOk(hum, tempx) ==> r == rec
  {
    if ReadOk(hum, tempx) then Record(true, hum.value, tempx.value) else rec
  }

  /** A `dht_data_t` record, written in place through the output pointer. */
  class DhtData {
    var statusOk: bool
    var humidity: real
    var temperature: real

    constructor ()
      ensures Value() == EMPTY
    {
      statusOk, humidity, temperature := false, 0.0, 0.0;
    }

    function Value(): Record
      reads this
    {
      Record(statusOk, humidity, temperature)
    }
  }

  /** Read humidity and temperature (given as the driver returned them) into `output`;
      the result is 1 (true) on a good read and 0 (false) otherwise. */
  method GetDhtData(hum: Reading, tempx: Reading, output: DhtData) returns (stsOk: bool)
    modifies output
    ensures stsOk == ReadOk(hum, tempx)
    ensures output.Value() == Latch(old(output.Value()), hum, tempx)
    ensures stsOk ==> output.statusOk
  {
    stsOk := hum.Num? && tempx.Num?;
    if stsOk {
      output.humidity := hum.value;
      output.temperature := tempx.value;
      output.statusOk := true;
    }
  }

  /** One read of the sensor: humidity and temperature as the driver returned them. */
  datatype Sample = Sample(hum: Reading, tempx: Reading) {
    predicate Good() {
      ReadOk(hum, tempx)
    }
  }

  /** Which branch a loop's `processDHTSensor` took on one pass (what it logs): the
      interval had not elapsed, the record holds no good reading, or it does. */
  datatype SampleOutcome = NotDue | DhtError | Sampled

  /** The record after a series of samples, the first read first. */
  function LatchAll(rec: Record, samples: seq<Sample>): Record
    decreases |samples|
  {
    if samples == [] then rec
    else LatchAll(Latch(rec, samples[0].hum, samples[0].tempx), samples[1..])
  }

  /** `status_ok` is sticky: once set, no later read (good or bad) clears it. */
  lemma {:induction false} StatusOkSticky(rec: Record, samples: seq<Sample>)
    requires rec.statusOk
    ensures LatchAll(rec, samples).statusOk
    decreases |samples|
  {
    if samples != [] {
      StatusOkSticky(Latch(rec, samples[0].hum, samples[0].tempx), samples[1..]);
    }
  }

  /** After a series of samples `status_ok` is set exactly when it was set before or one
      of the samples succeeded. */
  lemma {:induction false} StatusOkIffSomeGoodRead(rec: Record, samples: seq<Sample>)
    ensures LatchAll(rec, samples).statusOk <==>
      rec.statusOk || exists i :: 0 <= i < |samples| && samples[i].Good()
    decreases |samples|
  {
    if samples != [] {
      var next := Latch(rec, samples[0].hum, samples[0].tempx);
      StatusOkIffSomeGoodRead(next, samples[1..]);
      if exists i :: 0 <= i < |samples[1..]| && samples[1..][i].Good() {
        var i :| 0 <= i < |samples[1..]| && samples[1..][i].Good();
        assert samples[i + 1].Good();
      }
      if exists i :: 0 <= i < |samples| && samples[i].Good() {
        var i :| 0 <= i < |samples| && samples[i].Good();
        if i > 0 {
          assert samples[1..][i - 1].Good();
        }
      }
    }
  }

  /** The record holds the values of the last good read, or is unchanged when no read
      was good. */
  lemma {:induction false} LastGoodReadWins(rec: Record, samples: seq<Sample>, k: nat)
    requires k < |samples| && samples[k].Good()
    requires forall j :: k < j < |samples| ==> !samples[j].Good()
    ensures LatchAll(rec, samples) == Record(true, samples[k].hum.value, samples[k].tempx.value)
    decreases |samples|
  {
    var next := Latch(rec, samples[0].hum, samples[0].tempx);
    if k == 0 {
      NoGoodReadKeepsRecord(next, samples[1..]);
    } else {
      LastGoodReadWins(next, samples[1..], k - 1);
    }
  }

  /** Reads that all fail leave the record untouched. */
  lemma {:induction false} NoGoodReadKeepsRecord(rec: Record, samples: seq<Sample>)
    requires forall j :: 0 <= j < |samples| ==> !samples[j].Good()
    ensures LatchAll(rec, samples) == rec
    decreases |samples|
  {
    if samples != [] {
      NoGoodReadKeepsRecord(rec, samples[1..]);
    }
  }
}
