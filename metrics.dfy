/**
 * Turning the `snmpbulkget` reading of one UPS into the metric columns of a
 * telemetry row: identity and status codes as reported, output power as
 * reported or derived from the rated value, high-precision readings scaled
 * to their units, dates, and the two durations.
 */
module Metrics {
  import opened Wrappers
  import opened Text
  import opened Numbers
  import opened Failures
  import opened Snmp
  import opened Dates
  import opened Targets

  // ---------------------------------------------------------------- durations

  /** `seconds[:2]`. */
  function FirstTwo(s: string): (r: string)
    ensures |r| == if |s| < 2 then |s| else 2
    ensures r == s[..|r|]
  {
    if |s| < 2 then s else s[..2]
  }

  /** The whole seconds `days:hours:minutes:seconds` fields denote; `text` is what the fields came from. */
  function ClockSeconds(fields: seq<string>, text: string): Result<int, Failure> {
    if |fields| != 4 then Err(NotFourFields(text))
    else Weighted(Int(fields[0]), Int(fields[1]), Int(fields[2]), Int(FirstTwo(fields[3])))
  }

  /** `days * 86400 + hours * 3600 + minutes * 60 + seconds`, the first failed conversion failing it. */
  function Weighted(days: Result<int, Failure>, hours: Result<int, Failure>, minutes: Result<int, Failure>,
                    seconds: Result<int, Failure>): Result<int, Failure> {
    var d :- days;
    var h :- hours;
    var m :- minutes;
    var s :- seconds;
    Ok(d * 86400 + h * 3600 + m * 60 + s)
  }

  /**
   * A `days:hours:minutes:seconds.centiseconds` duration in whole seconds:
   * the text must unpack into exactly four `:` fields, the first three and
   * the first two characters of the fourth must read as integers.
   */
  function Duration(s: string): Result<int, Failure> {
    ClockSeconds(Split(s, ':'), s)
  }

  /** Whole seconds as days, hours, minutes and seconds. */
  function Clock(secs: nat): (c: (nat, nat, nat, nat))
    ensures c.1 < 24 && c.2 < 60 && c.3 < 60
    ensures c.0 * 86400 + c.1 * 3600 + c.2 * 60 + c.3 == secs
  {
    var dayPart := secs % 86400;
    var hourPart := dayPart % 3600;
    assert secs == (secs / 86400) * 86400 + dayPart;
    assert dayPart == (dayPart / 3600) * 3600 + hourPart;
    assert hourPart == (hourPart / 60) * 60 + hourPart % 60;
    (secs / 86400, dayPart / 3600, hourPart / 60, hourPart % 60)
  }

  /** The fields of a printed clock: `days`, `hours`, two-digit minutes, two-digit seconds with the centiseconds. */
  function ClockFields(c: (nat, nat, nat, nat), centis: nat): seq<string>
    requires c.2 < 60 && c.3 < 60 && centis < 100
  {
    [ShowNat(c.0), ShowNat(c.1), Pad2(c.2), Pad2(c.3) + "." + Pad2(centis)]
  }

  /** How the agent prints a TimeTicks value (hundredths of a second) with `-Oqs`: `0:3:01:24.00`. */
  function TimeTicksText(ticks: nat): string {
    Join(":", ClockFields(Clock(ticks / 100), ticks % 100))
  }

  lemma NoColonInDigits(s: string)
    requires AllDigits(s)
    ensures ':' !in s
  {
  }

  lemma SplitClockFields(c: (nat, nat, nat, nat), centis: nat)
    requires c.2 < 60 && c.3 < 60 && centis < 100
    ensures Split(Join(":", ClockFields(c, centis)), ':') == ClockFields(c, centis)
  {
    var fields := ClockFields(c, centis);
    NoColonInDigits(ShowNat(c.0));
    NoColonInDigits(ShowNat(c.1));
    NoColonInDigits(Pad2(c.2));
    NoColonInDigits(Pad2(c.3));
    NoColonInDigits(Pad2(centis));
    assert ':' !in fields[3];
    SplitJoin(fields, ':');
  }

  lemma ReadPad2(n: nat)
    requires n < 100
    ensures ParseInt(Pad2(n)) == Some(n)
  {
    ParseIntOfDigits(Pad2(n));
    RunValueOfPad2(n);
  }

  lemma ReadShowNat(n: nat)
    ensures ParseInt(ShowNat(n)) == Some(n)
  {
    ParseShowInt(n);
  }

  lemma ClockOfFields(fields: seq<string>, text: string, d: int, h: int, m: int, sc: int)
    requires |fields| == 4 && ParseInt(fields[0]) == Some(d) && ParseInt(fields[1]) == Some(h)
      && ParseInt(fields[2]) == Some(m) && ParseInt(FirstTwo(fields[3])) == Some(sc)
    ensures ClockSeconds(fields, text) == Ok(d * 86400 + h * 3600 + m * 60 + sc)
  {
    assert Int(fields[0]) == Ok(d) && Int(fields[1]) == Ok(h) && Int(fields[2]) == Ok(m);
    assert Int(FirstTwo(fields[3])) == Ok(sc);
    assert ClockSeconds(fields, text) == Weighted(Ok(d), Ok(h), Ok(m), Ok(sc));
    WeightedOfReadings(d, h, m, sc);
  }

  lemma WeightedOfReadings(d: int, h: int, m: int, sc: int)
    ensures Weighted(Ok(d), Ok(h), Ok(m), Ok(sc)) == Ok(d * 86400 + h * 3600 + m * 60 + sc)
  {
  }

  /** The printed fields of a clock read back as its four parts. */
  lemma ReadClockFields(c: (nat, nat, nat, nat), centis: nat, text: string)
    requires c.2 < 60 && c.3 < 60 && centis < 100
    ensures ClockSeconds(ClockFields(c, centis), text) == Weighted(Ok(c.0), Ok(c.1), Ok(c.2), Ok(c.3))
  {
    var fields := ClockFields(c, centis);
    ReadShowNat(c.0);
    ReadShowNat(c.1);
    ReadPad2(c.2);
    assert FirstTwo(fields[3]) == Pad2(c.3);
    ReadPad2(c.3);
  }

  lemma WeightedClock(secs: nat)
    ensures var c := Clock(secs); Weighted(Ok(c.0), Ok(c.1), Ok(c.2), Ok(c.3)) == Ok(secs)
  {
  }

  /** Reading a printed TimeTicks value gives its whole seconds: the centiseconds are dropped. */
  lemma DurationOfTimeTicks(ticks: nat)
    ensures Duration(TimeTicksText(ticks)) == Ok(ticks / 100)
  {
    var c := Clock(ticks / 100);
    SplitClockFields(c, ticks % 100);
    ReadClockFields(c, ticks % 100, TimeTicksText(ticks));
    WeightedClock(ticks / 100);
  }

  /** A duration whose text has other than three `:` separators fails the cycle. */
  lemma DurationNeedsFourFields(s: string)
    requires Count(s, ':') != 3
    ensures Duration(s) == Err(NotFourFields(s))
  {
    SplitCount(s, ':');
  }

  lemma ExampleClock()
    ensures Clock(10884) == (0, 3, 1, 24)
  {
    assert 10884 % 86400 == 10884 && 10884 % 3600 == 84;
  }

  lemma ExampleClockFields()
    ensures ClockFields((0, 3, 1, 24), 0) == ["0", "3", "01", "24.00"]
  {
    assert ShowNat(0) == "0" && ShowNat(3) == "3";
    assert Pad2(1) == "01" && Pad2(24) == "24" && Pad2(0) == "00";
    assert Pad2(24) + "." + Pad2(0) == "24.00";
  }

  lemma ExampleJoinedFields()
    ensures Join(":", ["0", "3", "01", "24.00"]) == "0:3:01:24.00"
  {
    var parts := ["0", "3", "01", "24.00"];
    assert parts[1..] == ["3", "01", "24.00"] && parts[1..][1..] == ["01", "24.00"] && parts[1..][1..][1..] == ["24.00"];
    assert Join(":", ["01", "24.00"]) == "01:24.00";
    assert Join(":", ["3", "01", "24.00"]) == "3:01:24.00";
  }

  lemma ExampleTimeTicksText()
    ensures TimeTicksText(1088400) == "0:3:01:24.00"
  {
    ExampleClock();
    assert 1088400 / 100 == 10884 && 1088400 % 100 == 0;
    ExampleClockFields();
    ExampleJoinedFields();
  }

  /** What a duration text reads as: the seconds of a printed tick count, or the unpacking error. */
  lemma DurationFacts(text: string)
    ensures forall t: nat :: text == TimeTicksText(t) ==> Duration(text) == Ok(t / 100)
    ensures Count(text, ':') != 3 ==> Duration(text) == Err(NotFourFields(text))
  {
    forall t: nat | text == TimeTicksText(t)
      ensures Duration(text) == Ok(t / 100)
    {
      DurationOfTimeTicks(t);
    }
    if Count(text, ':') != 3 {
      DurationNeedsFourFields(text);
    }
  }

  /** A duration column: `None` when the device does not report it. */
  function OptionalDuration(raw: Entries, key: string): (r: Result<Option<int>, Failure>)
    ensures Lookup(raw, key).None? ==> r == Ok(None)
    ensures Lookup(raw, key).Some? ==>
      (r.Ok? <==> Duration(Lookup(raw, key).value).Ok?)
      && (r.Ok? ==> r.value == Some(Duration(Lookup(raw, key).value).value))
    ensures forall t: nat :: Lookup(raw, key) == Some(TimeTicksText(t)) ==> r == Ok(Some(t / 100))
    ensures Lookup(raw, key).Some? && Count(Lookup(raw, key).value, ':') != 3 ==>
      r == Err(NotFourFields(Lookup(raw, key).value))
  {
    match Lookup(raw, key)
    case None => Ok(None)
    case Some(text) =>
      DurationFacts(text);
      var seconds :- Duration(text);
      Ok(Some(seconds))
  }

  // ---------------------------------------------------------------- scaled readings

  /** A high-precision reading: `float(text) / divisor` when the key holds a non-empty string. */
  function Scaled(raw: Entries, key: string, divisor: real): Result<Option<real>, Failure>
    requires divisor > 0.0
  {
    match Lookup(raw, key)
    case None => Ok(None)
    case Some(text) =>
      if text == "" then Ok(None)
      else
        var x :- Float(text);
        Ok(Some(x / divisor))
  }

  /** The efficiency reading, which the device may report negative, clamped at zero. */
  function Efficiency(raw: Entries): (r: Result<Option<real>, Failure>)
    ensures r.Ok? && r.value.Some? ==> r.value.value >= 0.0
  {
    var x :- Scaled(raw, "upsHighPrecOutputEfficiency.0", 10.0);
    match x
    case None => Ok(None)
    case Some(v) => Ok(Some(if v < 0.0 then 0.0 else v))
  }

  /**
   * A reading absent or empty is `None`, never zero; a reported integer is
   * scaled by the divisor; a text `float()` rejects fails the cycle.
   */
  lemma ScaledReading(raw: Entries, key: string, divisor: real)
    requires divisor > 0.0
    ensures Lookup(raw, key).None? || Lookup(raw, key) == Some("") <==> Scaled(raw, key, divisor) == Ok(None)
    ensures forall n: int :: Lookup(raw, key) == Some(ShowInt(n)) ==>
      Scaled(raw, key, divisor) == Ok(Some(n as real / divisor))
    ensures Scaled(raw, key, divisor).Err? <==>
      Lookup(raw, key).Some? && Lookup(raw, key).value != "" && ParseFloat(Lookup(raw, key).value).None?
  {
    forall n: int | Lookup(raw, key) == Some(ShowInt(n))
      ensures Scaled(raw, key, divisor) == Ok(Some(n as real / divisor))
    {
      ParseFloatShowInt(n);
    }
  }

  /** The efficiency column is the scaled reading raised to zero when negative. */
  lemma EfficiencyReading(raw: Entries, n: int)
    requires Lookup(raw, "upsHighPrecOutputEfficiency.0") == Some(ShowInt(n))
    ensures Efficiency(raw) == Ok(Some(if n < 0 then 0.0 else n as real / 10.0))
  {
    ParseFloatShowInt(n);
  }

  lemma ExampleNegativeEfficiency()
    ensures Efficiency([("upsHighPrecOutputEfficiency.0", "-20")]) == Ok(Some(0.0))
  {
    assert ShowInt(-20) == "-20" by { assert ShowNat(20) == "20"; }
    EfficiencyReading([("upsHighPrecOutputEfficiency.0", "-20")], -20);
  }

  // ---------------------------------------------------------------- output power

  /** `rated * (tenths / 1000)`: the part of a rated value that a load of `tenths` tenths of a percent uses. */
  function LoadShare(rated: int, tenths: int): real {
    rated as real * (tenths as real / 1000.0)
  }

  /** Output watts or VA: the device's own text, or a value derived from the load and the rated value. */
  datatype Power = Reported(text: string) | Derived(value: real)

  /**
   * The reported value when the device gives a non-empty one; otherwise
   * `rated * int(load) / 1000` when the target has a non-zero rated value and the
   * device reports `upsHighPrecOutputLoad.0` (in tenths of a percent); otherwise `None`.
   */
  function OutputPower(raw: Entries, reportedKey: string, rated: Option<int>): Result<Option<Power>, Failure> {
    var reported := Lookup(raw, reportedKey);
    if reported.Some? && reported.value != "" then Ok(Some(Reported(reported.value)))
    else
      var load := Lookup(raw, "upsHighPrecOutputLoad.0");
      if rated.Some? && rated.value != 0 && load.Some? then
        var tenths :- Int(load.value);
        Ok(Some(Derived(LoadShare(rated.value, tenths))))
      else Ok(None)
  }

  lemma PowerReported(raw: Entries, reportedKey: string, rated: Option<int>)
    requires Lookup(raw, reportedKey).Some? && Lookup(raw, reportedKey).value != ""
    ensures OutputPower(raw, reportedKey, rated) == Ok(Some(Reported(Lookup(raw, reportedKey).value)))
  {
  }

  /** Without a reported value, the load of `n` tenths of a percent gives `rated * (n / 1000)`. */
  lemma PowerDerived(raw: Entries, reportedKey: string, rated: int, n: int)
    requires Lookup(raw, reportedKey).None? || Lookup(raw, reportedKey) == Some("")
    requires rated != 0 && Lookup(raw, "upsHighPrecOutputLoad.0") == Some(ShowInt(n))
    ensures OutputPower(raw, reportedKey, Some(rated)) == Ok(Some(Derived(LoadShare(rated, n))))
  {
    var reported := Lookup(raw, reportedKey);
    assert !(reported.Some? && reported.value != "");
    IntOfShowInt(n);
  }

  /** Without a reported value, a missing or zero rated value or a missing load gives `None`. */
  lemma PowerUnknown(raw: Entries, reportedKey: string, rated: Option<int>)
    requires Lookup(raw, reportedKey).None? || Lookup(raw, reportedKey) == Some("")
    requires rated.None? || rated == Some(0) || Lookup(raw, "upsHighPrecOutputLoad.0").None?
    ensures OutputPower(raw, reportedKey, rated) == Ok(None)
  {
  }

  lemma ExamplePower()
    ensures OutputPower([("upsHighPrecOutputLoad.0", "680")], "upsAdvOutputActivePower.0", Some(1000))
      == Ok(Some(Derived(680.0)))
  {
    assert ShowInt(680) == "680" by { assert ShowNat(680) == "680"; }
    PowerDerived([("upsHighPrecOutputLoad.0", "680")], "upsAdvOutputActivePower.0", 1000, 680);
    assert LoadShare(1000, 680) == 680.0;
  }

  // ---------------------------------------------------------------- the row

  /** The ten high-precision readings, each scaled to its unit. */
  datatype Readings = Readings(
    batteryCapacityPercent: Option<real>,
    batteryVoltage: Option<real>,
    inputVoltage: Option<real>,
    inputFrequency: Option<real>,
    outputVoltage: Option<real>,
    outputFrequency: Option<real>,
    outputLoadPercent: Option<real>,
    outputCurrentAmps: Option<real>,
    outputEfficiencyPercent: Option<real>,
    outputEnergyUsageKwh: Option<real>)

  /** The metric columns of a row, in table order up to the sensors. */
  datatype Metrics = Metrics(
    name: Json,
    model: Option<string>,
    sku: Json,
    sensitivity: Option<string>,
    status: Option<string>,
    lastTransferReason: Option<string>,
    batteryNeedsReplacement: bool,
    batteryStatus: Option<string>,
    outputWatts: Option<Power>,
    outputVa: Option<Power>,
    readings: Readings,
    manufactureDate: Option<Date>,
    batteryLastReplaceDate: Option<Date>,
    batteryNextReplaceDate: Option<Date>,
    runtimeRemainingSeconds: Option<int>,
    onBatterySeconds: Option<int>)

  /** A reported date; text that does not read as a date leaves the column empty. */
  function DateColumn(raw: Entries, key: string, retryLongYear: bool): (d: Option<Date>)
    ensures Lookup(raw, key).None? ==> d.None?
    ensures d.Some? ==> ValidDate(d.value)
  {
    match Lookup(raw, key)
    case None => None
    case Some(text) => ParseDate(text, retryLongYear)
  }

  /** The SKU the device reports, else the one configured for the target. */
  function Sku(raw: Entries, t: Target): Json {
    match Lookup(raw, "upsAdvIdentSkuNumber.0")
    case Some(v) => JString(v)
    case None => t.sku
  }

  /** The high-precision readings, in the order `fetch_ups` computes them. */
  function HighPrecision(raw: Entries): Result<Readings, Failure> {
    var capacity :- Scaled(raw, "upsHighPrecBatteryCapacity.0", 10.0);
    var batteryVoltage :- Scaled(raw, "upsHighPrecBatteryActualVoltage.0", 10.0);
    var inputVoltage :- Scaled(raw, "upsHighPrecInputLineVoltage.0", 10.0);
    var inputFrequency :- Scaled(raw, "upsHighPrecInputFrequency.0", 10.0);
    var outputVoltage :- Scaled(raw, "upsHighPrecOutputVoltage.0", 10.0);
    var outputFrequency :- Scaled(raw, "upsHighPrecOutputFrequency.0", 10.0);
    var load :- Scaled(raw, "upsHighPrecOutputLoad.0", 10.0);
    var current :- Scaled(raw, "upsHighPrecOutputCurrent.0", 10.0);
    var efficiency :- Efficiency(raw);
    var energy :- Scaled(raw, "upsHighPrecOutputEnergyUsage.0", 100.0);
    Ok(Readings(capacity, batteryVoltage, inputVoltage, inputFrequency, outputVoltage, outputFrequency,
                load, current, efficiency, energy))
  }

  /** Every high-precision reading the device reports reads as a number. */
  predicate ReadingsReadable(raw: Entries) {
    && Scaled(raw, "upsHighPrecBatteryCapacity.0", 10.0).Ok?
    && Scaled(raw, "upsHighPrecBatteryActualVoltage.0", 10.0).Ok?
    && Scaled(raw, "upsHighPrecInputLineVoltage.0", 10.0).Ok?
    && Scaled(raw, "upsHighPrecInputFrequency.0", 10.0).Ok?
    && Scaled(raw, "upsHighPrecOutputVoltage.0", 10.0).Ok?
    && Scaled(raw, "upsHighPrecOutputFrequency.0", 10.0).Ok?
    && Scaled(raw, "upsHighPrecOutputLoad.0", 10.0).Ok?
    && Scaled(raw, "upsHighPrecOutputCurrent.0", 10.0).Ok?
    && Efficiency(raw).Ok?
    && Scaled(raw, "upsHighPrecOutputEnergyUsage.0", 100.0).Ok?
  }

  /** The readings exist exactly when each of them can be read. */
  lemma HighPrecisionSucceeds(raw: Entries)
    ensures HighPrecision(raw).Ok? <==> ReadingsReadable(raw)
  {
  }

  /** The metric columns, computed in the order `fetch_ups` computes them; the first failure ends the cycle. */
  function DeriveMetrics(raw: Entries, t: Target): Result<Metrics, Failure> {
    var watts :- OutputPower(raw, "upsAdvOutputActivePower.0", t.ratedWatts);
    var va :- OutputPower(raw, "upsAdvOutputApparentPower.0", t.ratedVa);
    var readings :- HighPrecision(raw);
    var runtime :- OptionalDuration(raw, "upsAdvBatteryRunTimeRemaining.0");
    var onBattery :- OptionalDuration(raw, "upsBasicBatteryTimeOnBattery.0");
    Ok(Columns(raw, t, watts, va, readings, runtime, onBattery))
  }

  /** The row's metric columns once the computed ones are known; the rest are read straight from the SNMP data. */
  function Columns(raw: Entries, t: Target, watts: Option<Power>, va: Option<Power>, readings: Readings,
                   runtime: Option<int>, onBattery: Option<int>): Metrics {
    Metrics(
      t.name,
      Lookup(raw, "upsBasicIdentModel.0"),
      Sku(raw, t),
      Lookup(raw, "upsAdvConfigSensitivity.0"),
      Lookup(raw, "upsBasicOutputStatus.0"),
      Lookup(raw, "upsAdvInputLineFailCause.0"),
      Lookup(raw, "upsAdvBatteryReplaceIndicator.0") == Some("batteryNeedsReplacing"),
      Lookup(raw, "upsBasicBatteryStatus.0"),
      watts, va, readings,
      DateColumn(raw, "upsAdvIdentDateOfManufacture.0", true),
      DateColumn(raw, "upsBasicBatteryLastReplaceDate.0", false),
      DateColumn(raw, "upsAdvBatteryRecommendedReplaceDate.0", false),
      runtime, onBattery)
  }

  /**
   * The columns succeed or fail together: the row exists exactly when every
   * power, scaled and duration column can be computed.  The dates are not
   * among the conditions; an unreadable date only empties its column.
   */
  lemma DeriveMetricsSucceeds(raw: Entries, t: Target)
    ensures DeriveMetrics(raw, t).Ok? <==>
      && OutputPower(raw, "upsAdvOutputActivePower.0", t.ratedWatts).Ok?
      && OutputPower(raw, "upsAdvOutputApparentPower.0", t.ratedVa).Ok?
      && ReadingsReadable(raw)
      && OptionalDuration(raw, "upsAdvBatteryRunTimeRemaining.0").Ok?
      && OptionalDuration(raw, "upsBasicBatteryTimeOnBattery.0").Ok?
  {
    HighPrecisionSucceeds(raw);
  }

  /**
   * The identity columns: the SKU falls back to the target's, codes pass
   * through as reported, the replace flag is a plain comparison, and each
   * date column reads its key (only the manufacture date retries as `%m/%d/%Y`).
   */
  lemma IdentityColumns(raw: Entries, t: Target)
    requires DeriveMetrics(raw, t).Ok?
    ensures var m := DeriveMetrics(raw, t).value;
      && m.name == t.name
      && (Lookup(raw, "upsAdvIdentSkuNumber.0").None? ==> m.sku == t.sku)
      && (Lookup(raw, "upsAdvIdentSkuNumber.0").Some? ==> m.sku == JString(Lookup(raw, "upsAdvIdentSkuNumber.0").value))
      && m.model == Lookup(raw, "upsBasicIdentModel.0")
      && m.sensitivity == Lookup(raw, "upsAdvConfigSensitivity.0")
      && m.status == Lookup(raw, "upsBasicOutputStatus.0")
      && m.lastTransferReason == Lookup(raw, "upsAdvInputLineFailCause.0")
      && m.batteryStatus == Lookup(raw, "upsBasicBatteryStatus.0")
      && (m.batteryNeedsReplacement <==> Lookup(raw, "upsAdvBatteryReplaceIndicator.0") == Some("batteryNeedsReplacing"))
      && m.manufactureDate == DateColumn(raw, "upsAdvIdentDateOfManufacture.0", true)
      && m.batteryLastReplaceDate == DateColumn(raw, "upsBasicBatteryLastReplaceDate.0", false)
      && m.batteryNextReplaceDate == DateColumn(raw, "upsAdvBatteryRecommendedReplaceDate.0", false)
  {
    var watts := OutputPower(raw, "upsAdvOutputActivePower.0", t.ratedWatts);
    var va := OutputPower(raw, "upsAdvOutputApparentPower.0", t.ratedVa);
    var readings := HighPrecision(raw);
    var runtime := OptionalDuration(raw, "upsAdvBatteryRunTimeRemaining.0");
    var onBattery := OptionalDuration(raw, "upsBasicBatteryTimeOnBattery.0");
    assert watts.Ok? && va.Ok? && readings.Ok? && runtime.Ok? && onBattery.Ok?;
    assert DeriveMetrics(raw, t).value == Columns(raw, t, watts.value, va.value, readings.value, runtime.value, onBattery.value);
  }

  /** The battery temperature sensor: `float(text) / 10` whenever the key is present, even when empty. */
  function BatteryTemperature(raw: Entries): Result<Option<real>, Failure> {
    match Lookup(raw, "upsHighPrecExtdBatteryTemperature.0")
    case None => Ok(None)
    case Some(text) =>
      var x :- Float(text);
      Ok(Some(x / 10.0))
  }

  /** A present but empty temperature text makes `float()` raise. */
  lemma BatteryTemperatureEmpty(raw: Entries)
    requires Lookup(raw, "upsHighPrecExtdBatteryTemperature.0") == Some("")
    ensures BatteryTemperature(raw) == Err(NotANumber(""))
  {
    ParseFloatEmpty();
  }

  /** A temperature reported as `n` tenths of a degree reads as `n / 10` degrees. */
  lemma BatteryTemperatureReading(raw: Entries, n: int)
    requires Lookup(raw, "upsHighPrecExtdBatteryTemperature.0") == Some(ShowInt(n))
    ensures BatteryTemperature(raw) == Ok(Some(n as real / 10.0))
  {
    ParseFloatShowInt(n);
  }
}
