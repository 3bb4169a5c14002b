/**
 * The environmental probes of a UPS network management card, as `fetch_ups`
 * turns them into the two parallel columns `sensor_name` and `sensor_value`:
 * either from the `uioSensorStatus` SNMP table, correlating each reading with
 * the sensor name that shares its index, or from the tuples the status page
 * regular expression extracts.
 */
module Probes {
  import opened Wrappers
  import opened Text
  import opened Numbers
  import opened Failures
  import opened Snmp

  /** The sensor columns of a row: reading `i` is named `names[i]`. */
  datatype Sensors = Sensors(names: seq<string>, values: seq<real>)

  predicate Paired(s: Sensors) {
    |s.names| == |s.values|
  }

  /** One `append` to each column. */
  function Emit(s: Sensors, name: string, value: real): (r: Sensors)
    ensures |r.names| == |s.names| + 1 && |r.values| == |s.values| + 1
  {
    Sensors(s.names + [name], s.values + [value])
  }

  /** `r` is `s` with the same number of readings appended to both columns. */
  predicate Extends(r: Sensors, s: Sensors) {
    && |s.names| <= |r.names| && |s.values| <= |r.values|
    && |r.names| - |s.names| == |r.values| - |s.values|
    && r.names[..|s.names|] == s.names
    && r.values[..|s.values|] == s.values
  }

  lemma ExtendsTransitive(a: Sensors, b: Sensors, c: Sensors)
    requires Extends(b, a) && Extends(c, b)
    ensures Extends(c, a)
  {
    assert c.names[..|a.names|] == c.names[..|b.names|][..|a.names|];
    assert c.values[..|a.values|] == c.values[..|b.values|][..|a.values|];
  }

  lemma EmitExtends(s: Sensors, name: string, value: real)
    ensures Extends(Emit(s, name, value), s)
  {
  }

  // ---------------------------------------------------------------- SNMP probe table

  const SensorNamePrefix := "uioSensorStatusSensorName"
  const TemperaturePrefix := "uioSensorStatusTemperatureDegC"
  const HumidityPrefix := "uioSensorStatusHumidity"

  /** What a key of the probe table is, tested in the order `fetch_ups` tests it. */
  datatype Kind = Label | Temperature | Humidity | Other

  function KindOf(key: string): Kind {
    if StartsWith(key, SensorNamePrefix) then Label
    else if StartsWith(key, TemperaturePrefix) then Temperature
    else if StartsWith(key, HumidityPrefix) then Humidity
    else Other
  }

  predicate IsReading(key: string) {
    KindOf(key) == Temperature || KindOf(key) == Humidity
  }

  /** The name suffix of a reading. */
  function Unit(kind: Kind): string {
    if kind == Temperature then " Temperature" else " Humidity"
  }

  /** The probe labels seen so far (the `probes` dictionary, keyed by index) and the columns. */
  datatype ScanState = ScanState(labels: map<string, string>, sensors: Sensors)

  /**
   * One record of the probe table.  The index is the last `.` field of the
   * key; a label record (re)names that index, a reading is emitted under the
   * name its index has so far, and a reading whose index has no name yet
   * raises `KeyError` before its value is read.
   */
  function ScanEntry(st: ScanState, entry: (string, string)): (r: Result<ScanState, Failure>)
    ensures r.Ok? ==> Extends(r.value.sensors, st.sensors)
  {
    var (key, value) := entry;
    var id := LastField(key, '.');
    match KindOf(key)
    case Label => Ok(ScanState(st.labels[id := value], st.sensors))
    case Other => Ok(st)
    case _ =>
      if id !in st.labels then Err(ProbeBeforeLabel(id))
      else
        var x :- Float(value);
        EmitExtends(st.sensors, st.labels[id] + Unit(KindOf(key)), x);
        Ok(ScanState(st.labels, Emit(st.sensors, st.labels[id] + Unit(KindOf(key)), x)))
  }

  /** The probe loop over the records in the order `snmpbulkget` printed them. */
  function ScanProbes(st: ScanState, entries: Entries): Result<ScanState, Failure>
    decreases |entries|
  {
    if |entries| == 0 then Ok(st)
    else
      var next :- ScanEntry(st, entries[0]);
      ScanProbes(next, entries[1..])
  }

  /** The columns after the SNMP probe records have been read, starting with no labels. */
  function SnmpProbeSensors(start: Sensors, data: Entries): Result<Sensors, Failure> {
    var st :- ScanProbes(ScanState(map[], start), data);
    Ok(st.sensors)
  }

  /** The probe loop over two runs of records is the loop over the first, continued over the second. */
  lemma {:induction false} ScanConcat(st: ScanState, e1: Entries, e2: Entries)
    ensures ScanProbes(st, e1 + e2) ==
      match ScanProbes(st, e1)
      case Err(f) => Err(f)
      case Ok(mid) => ScanProbes(mid, e2)
    decreases |e1|
  {
    if |e1| > 0 {
      assert (e1 + e2)[0] == e1[0];
      assert (e1 + e2)[1..] == e1[1..] + e2;
      match ScanEntry(st, e1[0])
      case Err(_) =>
      case Ok(next) => ScanConcat(next, e1[1..], e2);
    } else {
      assert e1 + e2 == e2;
    }
  }

  /** The loop only appends, to both columns together. */
  lemma {:induction false} ScanExtends(st: ScanState, entries: Entries)
    requires ScanProbes(st, entries).Ok?
    ensures Extends(ScanProbes(st, entries).value.sensors, st.sensors)
    decreases |entries|
  {
    if |entries| > 0 {
      var next := ScanEntry(st, entries[0]).value;
      ScanExtends(next, entries[1..]);
      ExtendsTransitive(st.sensors, next.sensors, ScanProbes(st, entries).value.sensors);
    }
  }

  /** The number of temperature and humidity records. */
  function ReadingCount(entries: Entries): nat {
    if |entries| == 0 then 0
    else (if IsReading(entries[0].0) then 1 else 0) + ReadingCount(entries[1..])
  }

  /** Every temperature or humidity record adds exactly one reading, and nothing else does. */
  lemma {:induction false} ScanCount(st: ScanState, entries: Entries)
    requires ScanProbes(st, entries).Ok?
    ensures |ScanProbes(st, entries).value.sensors.names| == |st.sensors.names| + ReadingCount(entries)
    decreases |entries|
  {
    if |entries| > 0 {
      ScanCount(ScanEntry(st, entries[0]).value, entries[1..]);
    }
  }

  /** A reading whose index has a label adds `"<label> Temperature"` or `"<label> Humidity"` and its value. */
  lemma ScanLabelledReading(st: ScanState, key: string, value: string, x: real)
    requires IsReading(key) && LastField(key, '.') in st.labels && ParseFloat(value) == Some(x)
    ensures ScanEntry(st, (key, value)) ==
      Ok(ScanState(st.labels, Emit(st.sensors, st.labels[LastField(key, '.')] + Unit(KindOf(key)), x)))
  {
  }

  /** A reading whose index has no label yet fails the cycle, whatever follows it. */
  lemma ScanUnlabelledReading(st: ScanState, key: string, value: string, rest: Entries)
    requires IsReading(key) && LastField(key, '.') !in st.labels
    ensures ScanProbes(st, [(key, value)] + rest) == Err(ProbeBeforeLabel(LastField(key, '.')))
  {
    assert ([(key, value)] + rest)[0] == (key, value);
  }

  /** A label record names its index for the records after it; a later label for the same index wins. */
  lemma ScanLabel(st: ScanState, key: string, value: string)
    requires KindOf(key) == Label
    ensures ScanEntry(st, (key, value)) == Ok(ScanState(st.labels[LastField(key, '.') := value], st.sensors))
  {
  }

  /** Records that are neither labels nor readings change nothing; in particular an empty fetch adds nothing. */
  lemma {:induction false} ScanIgnoresOthers(st: ScanState, entries: Entries)
    requires forall i :: 0 <= i < |entries| ==> KindOf(entries[i].0) == Other
    ensures ScanProbes(st, entries) == Ok(st)
    decreases |entries|
  {
    if |entries| > 0 {
      assert KindOf(entries[0].0) == Other;
      ScanIgnoresOthers(st, entries[1..]);
    }
  }

  /** The SNMP probe readings are appended after the readings already in the columns, both columns together. */
  lemma SnmpProbesExtend(start: Sensors, data: Entries)
    requires SnmpProbeSensors(start, data).Ok?
    ensures Extends(SnmpProbeSensors(start, data).value, start)
    ensures |SnmpProbeSensors(start, data).value.names| == |start.names| + ReadingCount(data)
    ensures Paired(start) ==> Paired(SnmpProbeSensors(start, data).value)
  {
    ScanExtends(ScanState(map[], start), data);
    ScanCount(ScanState(map[], start), data);
  }

  /** The probe loop as `fetch_ups` runs it, on the local `probes` dictionary and the two column lists. */
  method CorrelateSnmpProbes(start: Sensors, snmpData: Entries) returns (r: Result<Sensors, Failure>)
    ensures r == SnmpProbeSensors(start, snmpData)
  {
    var probes: map<string, string> := map[];
    var sensorName := start.names;
    var sensorValue := start.values;
    var i := 0;
    while i < |snmpData|
      invariant 0 <= i <= |snmpData|
      invariant ScanProbes(ScanState(map[], start), snmpData) ==
        ScanProbes(ScanState(probes, Sensors(sensorName, sensorValue)), snmpData[i..])
    {
      var (probe, value) := snmpData[i];
      var probeId := LastField(probe, '.');
      assert snmpData[i..][0] == snmpData[i] && snmpData[i..][1..] == snmpData[i + 1..];
      if StartsWith(probe, SensorNamePrefix) {
        probes := probes[probeId := value];
      } else if StartsWith(probe, TemperaturePrefix) || StartsWith(probe, HumidityPrefix) {
        if probeId !in probes {
          return Err(ProbeBeforeLabel(probeId));
        }
        var suffix := if StartsWith(probe, TemperaturePrefix) then " Temperature" else " Humidity";
        var x := Float(value);
        if x.Err? {
          return Err(x.error);
        }
        sensorName := sensorName + [probes[probeId] + suffix];
        sensorValue := sensorValue + [x.value];
      }
      i := i + 1;
    }
    assert snmpData[i..] == [];
    return Ok(Sensors(sensorName, sensorValue));
  }

  /** A probe key is its column prefix, a `.` and the index. */
  lemma ProbeKey(id: string)
    requires '.' !in id
    ensures LastField(SensorNamePrefix + "." + id, '.') == id && KindOf(SensorNamePrefix + "." + id) == Label
    ensures LastField(TemperaturePrefix + "." + id, '.') == id && KindOf(TemperaturePrefix + "." + id) == Temperature
    ensures LastField(HumidityPrefix + "." + id, '.') == id && KindOf(HumidityPrefix + "." + id) == Humidity
  {
    LastFieldAfterSeparator(SensorNamePrefix, '.', id);
    LastFieldAfterSeparator(TemperaturePrefix, '.', id);
    LastFieldAfterSeparator(HumidityPrefix, '.', id);
    var name, temperature, humidity := SensorNamePrefix + "." + id, TemperaturePrefix + "." + id, HumidityPrefix + "." + id;
    assert name[..|SensorNamePrefix|] == SensorNamePrefix;
    assert temperature[..|TemperaturePrefix|] == TemperaturePrefix;
    assert humidity[..|HumidityPrefix|] == HumidityPrefix;
    assert temperature[15] == 'T' != SensorNamePrefix[15];
    assert humidity[15] == 'H' != SensorNamePrefix[15] && humidity[15] != TemperaturePrefix[15];
  }

  /** A sensor name, then its temperature, then its humidity: two readings under that name. */
  lemma LabelledProbe(start: Sensors, id: string, name: string, t: int, h: int)
    requires '.' !in id
    ensures var data := [(SensorNamePrefix + "." + id, name), (TemperaturePrefix + "." + id, ShowInt(t)),
                         (HumidityPrefix + "." + id, ShowInt(h))];
      SnmpProbeSensors(start, data) ==
        Ok(Sensors(start.names + [name + " Temperature", name + " Humidity"], start.values + [t as real, h as real]))
  {
    var data := [(SensorNamePrefix + "." + id, name), (TemperaturePrefix + "." + id, ShowInt(t)),
                 (HumidityPrefix + "." + id, ShowInt(h))];
    ProbeKey(id);
    ParseFloatShowInt(t);
    ParseFloatShowInt(h);
    var s0 := ScanState(map[], start);
    var s1 := ScanState(map[id := name], start);
    var s2 := ScanState(map[id := name], Emit(start, name + " Temperature", t as real));
    var s3 := ScanState(map[id := name], Emit(s2.sensors, name + " Humidity", h as real));
    ScanLabel(s0, data[0].0, data[0].1);
    ScanLabelledReading(s1, data[1].0, data[1].1, t as real);
    ScanLabelledReading(s2, data[2].0, data[2].1, h as real);
    assert data == [data[0]] + ([data[1]] + [data[2]]);
    assert ScanProbes(s2, [data[2]]) == Ok(s3);
    ScanConcat(s1, [data[1]], [data[2]]);
    ScanConcat(s0, [data[0]], [data[1]] + [data[2]]);
    assert s3.sensors.names == start.names + [name + " Temperature", name + " Humidity"];
    assert s3.sensors.values == start.values + [t as real, h as real];
  }

  /** A temperature before the sensor name of its index discards the cycle. */
  lemma ReadingBeforeLabel(start: Sensors, id: string, name: string, value: string)
    requires '.' !in id
    ensures SnmpProbeSensors(start, [(TemperaturePrefix + "." + id, value), (SensorNamePrefix + "." + id, name)])
      == Err(ProbeBeforeLabel(id))
  {
    var data := [(TemperaturePrefix + "." + id, value), (SensorNamePrefix + "." + id, name)];
    ProbeKey(id);
    assert data == [data[0]] + data[1..];
    ScanUnlabelledReading(ScanState(map[], start), data[0].0, data[0].1, data[1..]);
  }

  // ---------------------------------------------------------------- status page probes

  /** One tuple of the status page expression: sensor name, temperature, `F` or `C`, and the humidity group (possibly empty). */
  datatype HtmlProbe = HtmlProbe(name: string, temperature: string, unit: string, humidity: string)

  /** A temperature in degrees Celsius: converted from Fahrenheit when the page says `F`. */
  function Celsius(t: real, unit: string): real {
    if unit == "F" then (t - 32.0) * 5.0 / 9.0 else t
  }

  /** The Fahrenheit conversion inverts the usual `c * 9 / 5 + 32`; other units pass through. */
  lemma CelsiusConversion(c: real, unit: string)
    ensures Celsius(c * 9.0 / 5.0 + 32.0, "F") == c
    ensures unit != "F" ==> Celsius(c, unit) == c
  {
  }

  /** The readings of one tuple: always its temperature, and its humidity only when that group is non-empty. */
  function ProbeReadings(acc: Sensors, p: HtmlProbe): (r: Result<Sensors, Failure>)
    ensures r.Ok? ==> Extends(r.value, acc)
  {
    var t :- Float(p.temperature);
    var withTemperature := Emit(acc, p.name + " Temperature", Celsius(t, p.unit));
    if p.humidity == "" then Ok(withTemperature)
    else
      var h :- Float(p.humidity);
      ExtendsTransitive(acc, withTemperature, Emit(withTemperature, p.name + " Humidity", h));
      Ok(Emit(withTemperature, p.name + " Humidity", h))
  }

  /** The readings of the tuples, in page order. */
  function HtmlSensors(acc: Sensors, probes: seq<HtmlProbe>): Result<Sensors, Failure>
    decreases |probes|
  {
    if |probes| == 0 then Ok(acc)
    else
      var next :- ProbeReadings(acc, probes[0]);
      HtmlSensors(next, probes[1..])
  }

  /** The number of tuples with a humidity reading. */
  function HumidityCount(probes: seq<HtmlProbe>): nat {
    if |probes| == 0 then 0
    else (if probes[0].humidity != "" then 1 else 0) + HumidityCount(probes[1..])
  }

  /** What one tuple adds, exactly. */
  lemma ProbeReadingsMeaning(acc: Sensors, p: HtmlProbe)
    ensures ProbeReadings(acc, p).Ok? <==>
      ParseFloat(p.temperature).Some? && (p.humidity == "" || ParseFloat(p.humidity).Some?)
    ensures ProbeReadings(acc, p).Ok? && p.humidity == "" ==>
      ProbeReadings(acc, p).value ==
        Sensors(acc.names + [p.name + " Temperature"], acc.values + [Celsius(ParseFloat(p.temperature).value, p.unit)])
    ensures ProbeReadings(acc, p).Ok? && p.humidity != "" ==>
      ProbeReadings(acc, p).value ==
        Sensors(acc.names + [p.name + " Temperature", p.name + " Humidity"],
                acc.values + [Celsius(ParseFloat(p.temperature).value, p.unit), ParseFloat(p.humidity).value])
  {
    if ProbeReadings(acc, p).Ok? && p.humidity != "" {
      var t := Celsius(ParseFloat(p.temperature).value, p.unit);
      assert acc.names + [p.name + " Temperature"] + [p.name + " Humidity"] ==
        acc.names + [p.name + " Temperature", p.name + " Humidity"];
      assert acc.values + [t] + [ParseFloat(p.humidity).value] == acc.values + [t, ParseFloat(p.humidity).value];
    }
  }

  /** The conversion over two runs of tuples is the conversion of the first, continued over the second. */
  lemma {:induction false} HtmlConcat(acc: Sensors, p1: seq<HtmlProbe>, p2: seq<HtmlProbe>)
    ensures HtmlSensors(acc, p1 + p2) ==
      match HtmlSensors(acc, p1)
      case Err(f) => Err(f)
      case Ok(mid) => HtmlSensors(mid, p2)
    decreases |p1|
  {
    if |p1| > 0 {
      assert (p1 + p2)[0] == p1[0];
      assert (p1 + p2)[1..] == p1[1..] + p2;
      match ProbeReadings(acc, p1[0])
      case Err(_) =>
      case Ok(next) => HtmlConcat(next, p1[1..], p2);
    } else {
      assert p1 + p2 == p2;
    }
  }

  /** Each tuple adds one temperature and, when it has one, one humidity, after what the columns held. */
  lemma {:induction false} HtmlExtends(acc: Sensors, probes: seq<HtmlProbe>)
    requires HtmlSensors(acc, probes).Ok?
    ensures Extends(HtmlSensors(acc, probes).value, acc)
    ensures |HtmlSensors(acc, probes).value.names| == |acc.names| + |probes| + HumidityCount(probes)
    ensures Paired(acc) ==> Paired(HtmlSensors(acc, probes).value)
    decreases |probes|
  {
    if |probes| > 0 {
      var next := ProbeReadings(acc, probes[0]).value;
      ProbeReadingsMeaning(acc, probes[0]);
      HtmlExtends(next, probes[1..]);
      ExtendsTransitive(acc, next, HtmlSensors(acc, probes).value);
    }
  }

  /** The body of the conversion loop: the appends one tuple makes to the two column lists. */
  method AppendProbeReadings(sensorName: seq<string>, sensorValue: seq<real>, probe: HtmlProbe)
    returns (r: Result<Sensors, Failure>)
    ensures r == ProbeReadings(Sensors(sensorName, sensorValue), probe)
  {
    ProbeReadingsMeaning(Sensors(sensorName, sensorValue), probe);
    var names := sensorName + [probe.name + " Temperature"];
    var values := sensorValue;
    var t := Float(probe.temperature);
    if t.Err? {
      return Err(t.error);
    }
    if probe.unit == "F" {
      values := values + [(t.value - 32.0) * 5.0 / 9.0];
    } else {
      values := values + [t.value];
    }
    if probe.humidity != "" {
      names := names + [probe.name + " Humidity"];
      var h := Float(probe.humidity);
      if h.Err? {
        return Err(h.error);
      }
      values := values + [h.value];
    }
    return Ok(Sensors(names, values));
  }

  /** The conversion loop as `fetch_ups` runs it, appending to the two column lists. */
  method ConvertHtmlProbes(start: Sensors, probes: seq<HtmlProbe>) returns (r: Result<Sensors, Failure>)
    ensures r == HtmlSensors(start, probes)
  {
    var sensors := start;
    var i := 0;
    while i < |probes|
      invariant 0 <= i <= |probes|
      invariant HtmlSensors(start, probes) == HtmlSensors(sensors, probes[i..])
    {
      assert probes[i..][0] == probes[i] && probes[i..][1..] == probes[i + 1..];
      var next := AppendProbeReadings(sensors.names, sensors.values, probes[i]);
      if next.Err? {
        return next;
      }
      sensors := next.value;
      i := i + 1;
    }
    assert probes[i..] == [];
    return Ok(sensors);
  }

  /** 98.6 degrees Fahrenheit is 37 degrees Celsius. */
  lemma ExampleBodyTemperature()
    ensures Celsius(98.6, "F") == 37.0
  {
  }
}
