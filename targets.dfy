/**
 * Reading UPS targets from the decoded `targets.json`: each record is
 * checked field by field, given its defaults, and either becomes a target
 * the exporter polls or is rejected with a logged reason.
 */
module Targets {
  import opened Wrappers
  import opened Text
  import opened Numbers

  /** A decoded JSON value. */
  datatype Json =
    | JNull
    | JBool(b: bool)
    | JInt(i: int)
    | JFloat(r: real)
    | JString(s: string)
    | JArray(items: seq<Json>)
    | JObject(fields: map<string, Json>)

  /** Python truthiness of a decoded JSON value. */
  predicate Truthy(v: Json) {
    match v
    case JNull => false
    case JBool(b) => b
    case JInt(i) => i != 0
    case JFloat(r) => r != 0.0
    case JString(s) => s != ""
    case JArray(items) => |items| > 0
    case JObject(fields) => |fields| > 0
  }

  /** `record.get(k, default)`. */
  function Get(record: map<string, Json>, k: string, default: Json): (v: Json)
    ensures k in record ==> v == record[k]
    ensures k !in record ==> v == default
  {
    if k in record then record[k] else default
  }

  /** Python's `int(x)` truncates a float toward zero. */
  function Truncate(r: real): (n: int)
    ensures r >= 0.0 ==> n as real <= r < n as real + 1.0
    ensures r < 0.0 ==> n as real - 1.0 < r <= n as real
  {
    if r >= 0.0 then r.Floor else -((-r).Floor)
  }

  /** The outcome of `if (x := value): x = int(x)`. */
  datatype Conversion =
    | Falsy             // the value is falsy and is kept as it is
    | Converted(n: int)
    | NotConvertible    // `int()` raises `ValueError`
    | WrongType         // `int()` raises `TypeError`

  function ConvertIfTruthy(v: Json): (c: Conversion)
    ensures c.Falsy? <==> !Truthy(v)
  {
    if !Truthy(v) then Falsy
    else match v
      case JBool(_) => Converted(1)
      case JInt(i) => Converted(i)
      case JFloat(r) => Converted(Truncate(r))
      case JString(s) => (match ParseInt(s) case Some(n) => Converted(n) case None => NotConvertible)
      case _ => WrongType
  }

  /** `fetch_probes`: off (also the empty string), SNMP, or scraping the web interface. */
  datatype ProbeMode = Disabled | Snmp | Http | Https

  /** A validated target, as `_load_targets` stores it (`nmc_session` lives in `Device`). */
  datatype Target = Target(
    name: Json,
    ip: Json,
    sku: Json,
    ratedVa: Option<int>,
    ratedWatts: Option<int>,
    snmpVersion: string,
    snmpCommunity: Json,
    snmpUsername: Json,
    snmpPassword: Json,
    snmpPort: Option<int>,
    interval: Option<int>,
    timeout: Option<int>,
    fetchProbes: ProbeMode,
    httpUsername: Json,
    httpPassword: Json,
    httpPort: Option<int>)

  /** Why a record is not polled; each is logged and the next record is read. */
  datatype Rejection =
    | InvalidSnmpVersion
    | MissingSnmpCommunity
    | MissingSnmpCredentials
    | InvalidSnmpPort
    | InvalidInterval
    | InvalidTimeout
    | InvalidFetchProbes
    | MissingHttpCredentials
    | InvalidHttpPort
    | InvalidRatedVa
    | InvalidRatedWatts
    | MissingKey(key: string)
    | Unexpected    // any other exception: a record that is not an object, a non-string version, ...

  /**
   * The version checks: it must lowercase to `v2c` or `v3`, and the credentials
   * are required by comparing the version as written.  The result is the
   * lowercased version.
   */
  function CheckVersion(f: map<string, Json>): (r: Result<string, Rejection>)
    ensures r.Ok? ==> r.value == "v2c" || r.value == "v3"
  {
    if "snmp_version" !in f then Err(MissingKey("snmp_version"))
    else if !f["snmp_version"].JString? then Err(Unexpected)
    else
      var version := Lower(f["snmp_version"].s);
      if version != "v2c" && version != "v3" then Err(InvalidSnmpVersion)
      else if f["snmp_version"] == JString("v2c") && !Truthy(Get(f, "snmp_community", JNull)) then
        Err(MissingSnmpCommunity)
      else if f["snmp_version"] == JString("v3")
        && (!Truthy(Get(f, "snmp_username", JNull)) || !Truthy(Get(f, "snmp_password", JNull))) then
        Err(MissingSnmpCredentials)
      else Ok(version)
  }

  /** `if (x := value): x = int(x)`, with the rejection its `ValueError` handler logs. */
  function CheckInt(v: Json, invalid: Rejection): (r: Result<Option<int>, Rejection>)
    ensures r.Ok? <==> ConvertIfTruthy(v).Falsy? || ConvertIfTruthy(v).Converted?
    ensures r.Ok? ==> r.value == (if Truthy(v) then Some(ConvertIfTruthy(v).n) else None)
  {
    match ConvertIfTruthy(v)
    case Falsy => Ok(None)
    case Converted(n) => Ok(Some(n))
    case NotConvertible => Err(invalid)
    case WrongType => Err(Unexpected)
  }

  /**
   * What an optional integer field becomes: a falsy value is absent, a
   * non-zero number or `true` its integer (a float truncated), a printed
   * integer that number, other text the field's own rejection, and a list
   * or object the generic one.
   */
  lemma CheckIntMeaning(v: Json, invalid: Rejection)
    ensures var r := CheckInt(v, invalid);
      && (!Truthy(v) ==> r == Ok(None))
      && (v.JInt? && v.i != 0 ==> r == Ok(Some(v.i)))
      && (v == JBool(true) ==> r == Ok(Some(1)))
      && (v.JFloat? && v.r != 0.0 ==> r.Ok? && r.value.Some? && -1.0 < r.value.value as real - v.r < 1.0)
      && (forall n: int :: v == JString(ShowInt(n)) ==> r == Ok(Some(n)))
      && (v.JString? && v.s != "" && ParseInt(v.s).None? ==> r == Err(invalid))
      && ((v.JArray? || v.JObject?) && Truthy(v) ==> r == Err(Unexpected))
  {
    forall n: int | v == JString(ShowInt(n))
      ensures CheckInt(v, invalid) == Ok(Some(n))
    {
      CheckIntOfShown(n, invalid);
    }
  }

  lemma CheckIntOfShown(n: int, invalid: Rejection)
    ensures CheckInt(JString(ShowInt(n)), invalid) == Ok(Some(n))
  {
    ParseShowInt(n);
    assert ConvertIfTruthy(JString(ShowInt(n))) == Converted(n);
  }

  /** The probe mode checks: a known lowercased `fetch_probes` and, for scraping, HTTP credentials. */
  function CheckProbes(f: map<string, Json>): Result<ProbeMode, Rejection> {
    var value := Get(f, "fetch_probes", JString("off"));
    if !value.JString? then Err(Unexpected)
    else
      var probes := Lower(value.s);
      if probes !in {"", "off", "snmp", "http", "https"} then Err(InvalidFetchProbes)
      else
        var mode := if probes == "snmp" then Snmp else if probes == "http" then Http
          else if probes == "https" then Https else Disabled;
        if (mode == Http || mode == Https)
          && (!Truthy(Get(f, "http_username", JNull)) || !Truthy(Get(f, "http_password", JNull))) then
          Err(MissingHttpCredentials)
        else Ok(mode)
  }

  /** The HTTP port: as supplied, else 80 or 443 by scheme. */
  function HttpPort(supplied: Option<int>, mode: ProbeMode): Option<int> {
    if supplied.Some? then supplied
    else if mode == Http then Some(80)
    else if mode == Https then Some(443)
    else None
  }

  /** The checks of one record in `_load_targets`, in the order the code makes them. */
  function Validate(record: Json, fetchInterval: int, fetchTimeout: int): (r: Result<Target, Rejection>)
    ensures record.JObject? || r == Err(Unexpected)
  {
    if !record.JObject? then Err(Unexpected)
    else
      var f := record.fields;
      var version :- CheckVersion(f);
      var port :- CheckInt(Get(f, "port", JInt(161)), InvalidSnmpPort);
      var interval :- CheckInt(Get(f, "interval", JInt(fetchInterval)), InvalidInterval);
      var timeout :- CheckInt(Get(f, "timeout", JInt(fetchTimeout)), InvalidTimeout);
      var mode :- CheckProbes(f);
      var httpPort :- CheckInt(Get(f, "http_port", JNull), InvalidHttpPort);
      var ratedVa :- CheckInt(Get(f, "rated_va", JNull), InvalidRatedVa);
      var ratedWatts :- CheckInt(Get(f, "rated_watts", JNull), InvalidRatedWatts);
      if "name" !in f then Err(MissingKey("name"))
      else if "ip" !in f then Err(MissingKey("ip"))
      else
        Ok(Target(
          f["name"], f["ip"], Get(f, "sku", JNull),
          ratedVa, ratedWatts,
          version,
          Get(f, "snmp_community", JNull), Get(f, "snmp_username", JNull), Get(f, "snmp_password", JNull),
          port, interval, timeout,
          mode,
          Get(f, "http_username", JNull), Get(f, "http_password", JNull),
          HttpPort(httpPort, mode)))
  }

  /** What reading one record does to the load: a target, a logged rejection, or an exception out of `_load_targets`. */
  datatype Examined = Accepted(target: Target) | Rejected(reason: Rejection) | LoadAborted

  /**
   * The record loop as written: every rejection path except the generic one
   * formats `target["name"]` into its log line (the `KeyError` handler
   * included), so a record without `name` raises out of the handler.
   */
  function ExamineAsWritten(record: Json, fetchInterval: int, fetchTimeout: int): (e: Examined)
    ensures e.LoadAborted? <==>
      Validate(record, fetchInterval, fetchTimeout).Err?
      && Validate(record, fetchInterval, fetchTimeout).error != Unexpected
      && "name" !in record.fields
  {
    match Validate(record, fetchInterval, fetchTimeout)
    case Ok(t) => Accepted(t)
    case Err(Unexpected) => Rejected(Unexpected)
    case Err(reason) => if "name" in record.fields then Rejected(reason) else LoadAborted
  }

  /** The record loop as intended: a record without `name` is rejected like any other. */
  function Examine(record: Json, fetchInterval: int, fetchTimeout: int): (e: Examined)
    ensures !e.LoadAborted?
    ensures e.Accepted? <==> Validate(record, fetchInterval, fetchTimeout).Ok?
  {
    match Validate(record, fetchInterval, fetchTimeout)
    case Ok(t) => Accepted(t)
    case Err(reason) => Rejected(reason)
  }

  /** The two agree on every record that has a name, and on every rejection the generic handler logs. */
  lemma ExamineAgreesWhenNamed(record: Json, fetchInterval: int, fetchTimeout: int)
    requires record.JObject? && "name" in record.fields
    ensures ExamineAsWritten(record, fetchInterval, fetchTimeout) == Examine(record, fetchInterval, fetchTimeout)
  {
  }

  /** What one examined record adds to the accepted targets. */
  function Found(e: Examined): (ts: seq<Target>)
    ensures |ts| <= 1
  {
    match e
    case Accepted(t) => [t]
    case _ => []
  }

  /** Each of `records`, examined. */
  function ExamineAll(records: seq<Json>, fetchInterval: int, fetchTimeout: int): (es: seq<Examined>)
    ensures |es| == |records|
  {
    if |records| == 0 then []
    else [Examine(records[0], fetchInterval, fetchTimeout)] + ExamineAll(records[1..], fetchInterval, fetchTimeout)
  }

  lemma {:induction false} ExamineAllAt(records: seq<Json>, fetchInterval: int, fetchTimeout: int, k: int)
    requires 0 <= k < |records|
    ensures ExamineAll(records, fetchInterval, fetchTimeout)[k] == Examine(records[k], fetchInterval, fetchTimeout)
  {
    if k > 0 {
      ExamineAllAt(records[1..], fetchInterval, fetchTimeout, k - 1);
      assert records[1..][k - 1] == records[k];
    }
  }

  /** The targets among examined records, in order. */
  function AcceptedAmong(es: seq<Examined>): (ts: seq<Target>)
    ensures |ts| <= |es|
  {
    if |es| == 0 then [] else Found(es[0]) + AcceptedAmong(es[1..])
  }

  /** The targets accepted from `records`, in file order. */
  function AcceptedTargets(records: seq<Json>, fetchInterval: int, fetchTimeout: int): (ts: seq<Target>)
    ensures |ts| <= |records|
  {
    AcceptedAmong(ExamineAll(records, fetchInterval, fetchTimeout))
  }

  lemma {:induction false} AcceptedAmongMembers(es: seq<Examined>, t: Target)
    ensures t in AcceptedAmong(es) <==> exists i :: 0 <= i < |es| && es[i] == Accepted(t)
  {
    if |es| > 0 {
      AcceptedAmongMembers(es[1..], t);
      if exists i :: 0 <= i < |es| && es[i] == Accepted(t) {
        var i :| 0 <= i < |es| && es[i] == Accepted(t);
        if i > 0 {
          assert es[1..][i - 1] == es[i];
        }
      }
      if t in AcceptedAmong(es[1..]) {
        var i :| 0 <= i < |es[1..]| && es[1..][i] == Accepted(t);
        assert es[i + 1] == es[1..][i];
      }
    }
  }

  /** Every accepted target comes from a record that passes validation, and every such record yields one. */
  lemma AcceptedTargetsMembers(records: seq<Json>, fetchInterval: int, fetchTimeout: int, t: Target)
    ensures t in AcceptedTargets(records, fetchInterval, fetchTimeout) <==>
      exists i :: 0 <= i < |records| && Validate(records[i], fetchInterval, fetchTimeout) == Ok(t)
  {
    var es := ExamineAll(records, fetchInterval, fetchTimeout);
    AcceptedAmongMembers(es, t);
    forall i | 0 <= i < |records|
      ensures es[i] == Accepted(t) <==> Validate(records[i], fetchInterval, fetchTimeout) == Ok(t)
    {
      ExamineAllAt(records, fetchInterval, fetchTimeout, i);
    }
  }

  /** The first record's part of the accepted targets, then the rest's. */
  lemma AcceptedTargetsCons(records: seq<Json>, fetchInterval: int, fetchTimeout: int)
    requires |records| > 0
    ensures AcceptedTargets(records, fetchInterval, fetchTimeout)
      == Found(Examine(records[0], fetchInterval, fetchTimeout)) + AcceptedTargets(records[1..], fetchInterval, fetchTimeout)
  {
    var es := ExamineAll(records, fetchInterval, fetchTimeout);
    assert es[1..] == ExamineAll(records[1..], fetchInterval, fetchTimeout);
    assert es[0] == Examine(records[0], fetchInterval, fetchTimeout);
  }

  /** The targets among the first `i` examined records, built up as the record loop reads them. */
  function AcceptedUpTo(es: seq<Examined>, i: nat): seq<Target>
    requires i <= |es|
  {
    if i == 0 then [] else AcceptedUpTo(es, i - 1) + Found(es[i - 1])
  }

  lemma {:induction false} AcceptedUpToSplit(es: seq<Examined>, i: nat)
    requires i <= |es|
    ensures AcceptedUpTo(es, i) + AcceptedAmong(es[i..]) == AcceptedAmong(es)
  {
    if i > 0 {
      AcceptedUpToSplit(es, i - 1);
      assert es[i - 1..][1..] == es[i..];
      var before, here, after := AcceptedUpTo(es, i - 1), Found(es[i - 1]), AcceptedAmong(es[i..]);
      assert before + here + after == before + (here + after);
    } else {
      assert es[0..] == es;
    }
  }

  /** The whole load as written: `None` when one record aborts it. */
  function LoadAsWritten(records: seq<Json>, fetchInterval: int, fetchTimeout: int): Option<seq<Target>> {
    if |records| == 0 then Some([])
    else
      match ExamineAsWritten(records[0], fetchInterval, fetchTimeout)
      case LoadAborted => None
      case Accepted(t) =>
        (match LoadAsWritten(records[1..], fetchInterval, fetchTimeout)
         case None => None
         case Some(rest) => Some([t] + rest))
      case Rejected(_) => LoadAsWritten(records[1..], fetchInterval, fetchTimeout)
  }

  /** As written, the load survives exactly when no record aborts it, and then it equals the intended one. */
  lemma {:induction false} LoadAsWrittenAgrees(records: seq<Json>, fetchInterval: int, fetchTimeout: int)
    ensures LoadAsWritten(records, fetchInterval, fetchTimeout).Some? <==>
      forall i :: 0 <= i < |records| ==> !ExamineAsWritten(records[i], fetchInterval, fetchTimeout).LoadAborted?
    ensures LoadAsWritten(records, fetchInterval, fetchTimeout).Some? ==>
      LoadAsWritten(records, fetchInterval, fetchTimeout).value == AcceptedTargets(records, fetchInterval, fetchTimeout)
  {
    if |records| > 0 {
      LoadAsWrittenAgrees(records[1..], fetchInterval, fetchTimeout);
      var e := ExamineAsWritten(records[0], fetchInterval, fetchTimeout);
      AcceptedTargetsCons(records, fetchInterval, fetchTimeout);
      if !e.LoadAborted? {
        assert e == Examine(records[0], fetchInterval, fetchTimeout);
      }
      if forall i :: 0 <= i < |records| ==> !ExamineAsWritten(records[i], fetchInterval, fetchTimeout).LoadAborted? {
        forall i | 0 <= i < |records[1..]|
          ensures !ExamineAsWritten(records[1..][i], fetchInterval, fetchTimeout).LoadAborted?
        {
          assert records[1..][i] == records[i + 1];
        }
      } else if !e.LoadAborted? {
        var i :| 0 <= i < |records| && ExamineAsWritten(records[i], fetchInterval, fetchTimeout).LoadAborted?;
        assert records[1..][i - 1] == records[i];
      }
    }
  }

  /** One target being polled: `nmc_session` is the only field updated after loading. */
  class Device {
    const target: Target
    var nmcSession: Option<string>

    constructor(t: Target)
      ensures target == t && nmcSession == None
    {
      target := t;
      nmcSession := None;
    }
  }

  /** The exporter's list of targets. */
  class Exporter {
    const fetchInterval: int
    const fetchTimeout: int
    var upsTargets: seq<Device>

    constructor(fetchInterval: int, fetchTimeout: int)
      ensures this.fetchInterval == fetchInterval && this.fetchTimeout == fetchTimeout
      ensures upsTargets == []
    {
      this.fetchInterval := fetchInterval;
      this.fetchTimeout := fetchTimeout;
      upsTargets := [];
    }

    /** Appends the record built for an accepted target, its session unset. */
    method AddDevice(t: Target) returns (d: Device)
      modifies this
      ensures fresh(d) && d.target == t && d.nmcSession == None
      ensures upsTargets == old(upsTargets) + [d]
    {
      d := new Device(t);
      upsTargets := upsTargets + [d];
    }

    /** One pass of the record loop: a fresh device when the record is accepted, nothing otherwise. */
    method AddAccepted(record: Json)
      modifies this
      ensures var found := Found(Examine(record, fetchInterval, fetchTimeout));
        && |upsTargets| == |old(upsTargets)| + |found|
        && (forall k :: 0 <= k < |old(upsTargets)| ==> upsTargets[k] == old(upsTargets)[k])
        && forall k :: |old(upsTargets)| <= k < |upsTargets| ==>
             fresh(upsTargets[k]) && upsTargets[k].target == found[k - |old(upsTargets)|] && upsTargets[k].nmcSession == None
    {
      var examined := Examine(record, fetchInterval, fetchTimeout);
      if examined.Accepted? {
        var d := AddDevice(examined.target);
      }
    }

    /**
     * `_load_targets` with the intended handling of nameless records: the
     * devices before the call stay, and one fresh device follows per accepted
     * record, in file order, none holding a session yet.
     */
    method LoadTargets(records: seq<Json>)
      modifies this
      ensures var accepted := AcceptedTargets(records, fetchInterval, fetchTimeout);
        && |upsTargets| == |old(upsTargets)| + |accepted|
        && upsTargets[..|old(upsTargets)|] == old(upsTargets)
        && forall k :: |old(upsTargets)| <= k < |upsTargets| ==>
             fresh(upsTargets[k]) && upsTargets[k].target == accepted[k - |old(upsTargets)|] && upsTargets[k].nmcSession == None
    {
      var i := 0;
      ghost var n0 := |upsTargets|;
      ghost var done: seq<Target> := [];
      ghost var es := ExamineAll(records, fetchInterval, fetchTimeout);
      while i < |records|
        invariant 0 <= i <= |records|
        invariant done == AcceptedUpTo(es, i)
        invariant |upsTargets| == n0 + |done|
        invariant forall k :: 0 <= k < n0 ==> upsTargets[k] == old(upsTargets)[k]
        invariant forall k :: n0 <= k < |upsTargets| ==>
          fresh(upsTargets[k]) && upsTargets[k].target == done[k - n0] && upsTargets[k].nmcSession == None
      {
        AddAccepted(records[i]);
        ExamineAllAt(records, fetchInterval, fetchTimeout, i);
        done := done + Found(es[i]);
        i := i + 1;
      }
      AcceptedUpToSplit(es, |es|);
      assert es[|es|..] == [];
    }
  }

  // ---------------------------------------------------------------- properties

  /**
   * A record is accepted exactly when all of these hold: the version lowercases
   * to `v2c` or `v3`; the credentials for the version string as written are
   * present; every supplied port, interval, timeout and rated value converts
   * with `int()`; the probe mode is known and carries HTTP credentials when it
   * scrapes; `name` and `ip` are present.
   */
  predicate Acceptable(record: Json, fetchInterval: int, fetchTimeout: int) {
    && record.JObject?
    && var f := record.fields;
    && "snmp_version" in f && f["snmp_version"].JString?
    && Lower(f["snmp_version"].s) in {"v2c", "v3"}
    && (f["snmp_version"] == JString("v2c") ==> Truthy(Get(f, "snmp_community", JNull)))
    && (f["snmp_version"] == JString("v3") ==>
          Truthy(Get(f, "snmp_username", JNull)) && Truthy(Get(f, "snmp_password", JNull)))
    && Converts(Get(f, "port", JInt(161)))
    && Converts(Get(f, "interval", JInt(fetchInterval)))
    && Converts(Get(f, "timeout", JInt(fetchTimeout)))
    && Get(f, "fetch_probes", JString("off")).JString?
    && var probes := Lower(Get(f, "fetch_probes", JString("off")).s);
    && probes in {"", "off", "snmp", "http", "https"}
    && (probes in {"http", "https"} ==>
          Truthy(Get(f, "http_username", JNull)) && Truthy(Get(f, "http_password", JNull)))
    && Converts(Get(f, "http_port", JNull))
    && Converts(Get(f, "rated_va", JNull))
    && Converts(Get(f, "rated_watts", JNull))
    && "name" in f && "ip" in f
  }

  predicate Converts(v: Json) {
    ConvertIfTruthy(v).Falsy? || ConvertIfTruthy(v).Converted?
  }

  lemma AcceptedExactly(record: Json, fetchInterval: int, fetchTimeout: int)
    ensures Validate(record, fetchInterval, fetchTimeout).Ok? <==> Acceptable(record, fetchInterval, fetchTimeout)
  {
    if record.JObject? {
      ValidateChecks(record.fields, fetchInterval, fetchTimeout);
      VersionAccepted(record.fields);
      ProbesAccepted(record.fields);
    }
  }

  /** Every check of `Validate` passes. */
  predicate ChecksPass(f: map<string, Json>, fetchInterval: int, fetchTimeout: int) {
    && CheckVersion(f).Ok?
    && CheckInt(Get(f, "port", JInt(161)), InvalidSnmpPort).Ok?
    && CheckInt(Get(f, "interval", JInt(fetchInterval)), InvalidInterval).Ok?
    && CheckInt(Get(f, "timeout", JInt(fetchTimeout)), InvalidTimeout).Ok?
    && CheckProbes(f).Ok?
    && CheckInt(Get(f, "http_port", JNull), InvalidHttpPort).Ok?
    && CheckInt(Get(f, "rated_va", JNull), InvalidRatedVa).Ok?
    && CheckInt(Get(f, "rated_watts", JNull), InvalidRatedWatts).Ok?
    && "name" in f && "ip" in f
  }

  lemma ValidateChecks(f: map<string, Json>, fetchInterval: int, fetchTimeout: int)
    ensures Validate(JObject(f), fetchInterval, fetchTimeout).Ok? <==> ChecksPass(f, fetchInterval, fetchTimeout)
  {
  }

  lemma VersionAccepted(f: map<string, Json>)
    ensures CheckVersion(f).Ok? <==>
      && "snmp_version" in f && f["snmp_version"].JString?
      && Lower(f["snmp_version"].s) in {"v2c", "v3"}
      && (f["snmp_version"] == JString("v2c") ==> Truthy(Get(f, "snmp_community", JNull)))
      && (f["snmp_version"] == JString("v3") ==>
            Truthy(Get(f, "snmp_username", JNull)) && Truthy(Get(f, "snmp_password", JNull)))
  {
  }

  lemma ProbesAccepted(f: map<string, Json>)
    ensures CheckProbes(f).Ok? <==>
      && Get(f, "fetch_probes", JString("off")).JString?
      && var probes := Lower(Get(f, "fetch_probes", JString("off")).s);
      && probes in {"", "off", "snmp", "http", "https"}
      && (probes in {"http", "https"} ==>
            Truthy(Get(f, "http_username", JNull)) && Truthy(Get(f, "http_password", JNull)))
  {
  }

  /**
   * The defaults: SNMP port 161, the global interval and timeout, probes off,
   * HTTP port 80 or 443 by scheme; the version is stored lowercased.
   */
  lemma Defaults(record: Json, fetchInterval: int, fetchTimeout: int)
    requires Validate(record, fetchInterval, fetchTimeout).Ok?
    ensures var t := Validate(record, fetchInterval, fetchTimeout).value;
      && t.snmpVersion == Lower(record.fields["snmp_version"].s) && t.snmpVersion in {"v2c", "v3"}
      && ("port" !in record.fields ==> t.snmpPort == Some(161))
      && ("interval" !in record.fields ==> t.interval == (if fetchInterval != 0 then Some(fetchInterval) else None))
      && ("timeout" !in record.fields ==> t.timeout == (if fetchTimeout != 0 then Some(fetchTimeout) else None))
      && ("fetch_probes" !in record.fields ==> t.fetchProbes == Disabled)
      && (!Truthy(Get(record.fields, "http_port", JNull)) ==>
            t.httpPort == (if t.fetchProbes == Http then Some(80) else if t.fetchProbes == Https then Some(443) else None))
  {
    var f := record.fields;
    ValidateChecks(f, fetchInterval, fetchTimeout);
    var probes := CheckProbes(f).value;
    var httpPort := CheckInt(Get(f, "http_port", JNull), InvalidHttpPort).value;
    assert Validate(record, fetchInterval, fetchTimeout).value == Target(
      f["name"], f["ip"], Get(f, "sku", JNull),
      CheckInt(Get(f, "rated_va", JNull), InvalidRatedVa).value,
      CheckInt(Get(f, "rated_watts", JNull), InvalidRatedWatts).value,
      CheckVersion(f).value,
      Get(f, "snmp_community", JNull), Get(f, "snmp_username", JNull), Get(f, "snmp_password", JNull),
      CheckInt(Get(f, "port", JInt(161)), InvalidSnmpPort).value,
      CheckInt(Get(f, "interval", JInt(fetchInterval)), InvalidInterval).value,
      CheckInt(Get(f, "timeout", JInt(fetchTimeout)), InvalidTimeout).value,
      probes,
      Get(f, "http_username", JNull), Get(f, "http_password", JNull),
      HttpPort(httpPort, probes));
  }

  /** None of the optional numeric or probe keys is present, so each takes its default. */
  predicate OnlyDefaults(f: map<string, Json>) {
    && "port" !in f && "interval" !in f && "timeout" !in f && "fetch_probes" !in f
    && "http_port" !in f && "rated_va" !in f && "rated_watts" !in f
  }

  /** The defaults all pass their checks. */
  lemma DefaultsPass(f: map<string, Json>, fetchInterval: int, fetchTimeout: int)
    requires OnlyDefaults(f)
    ensures CheckInt(Get(f, "port", JInt(161)), InvalidSnmpPort) == Ok(Some(161))
    ensures CheckInt(Get(f, "interval", JInt(fetchInterval)), InvalidInterval).Ok?
    ensures CheckInt(Get(f, "timeout", JInt(fetchTimeout)), InvalidTimeout).Ok?
    ensures CheckProbes(f) == Ok(Disabled)
    ensures CheckInt(Get(f, "http_port", JNull), InvalidHttpPort) == Ok(None)
    ensures CheckInt(Get(f, "rated_va", JNull), InvalidRatedVa) == Ok(None)
    ensures CheckInt(Get(f, "rated_watts", JNull), InvalidRatedWatts) == Ok(None)
  {
    assert Lower("off") == "off";
  }

  /**
   * The credential checks compare the version as written, so an upper-case
   * `V2C` needs no community: such a record is accepted, stored as `v2c`,
   * with no community.
   */
  lemma UpperCaseVersionSkipsCredentials(f: map<string, Json>, fetchInterval: int, fetchTimeout: int)
    requires "snmp_version" in f && f["snmp_version"] == JString("V2C") && "snmp_community" !in f
    requires "name" in f && "ip" in f && OnlyDefaults(f)
    ensures var r := Validate(JObject(f), fetchInterval, fetchTimeout);
      && r.Ok? && r.value.snmpVersion == "v2c" && r.value.snmpCommunity == JNull
  {
    assert Lower("V2C") == "v2c";
    assert f["snmp_version"] != JString("v2c") && f["snmp_version"] != JString("v3");
    assert CheckVersion(f) == Ok("v2c");
    DefaultsPass(f, fetchInterval, fetchTimeout);
  }

  /** A `v2c` record with its community but no `name` fails only the name check. */
  lemma NamelessRecordRejected(f: map<string, Json>, fetchInterval: int, fetchTimeout: int)
    requires "snmp_version" in f && f["snmp_version"] == JString("v2c") && Truthy(Get(f, "snmp_community", JNull))
    requires "name" !in f && OnlyDefaults(f)
    ensures Validate(JObject(f), fetchInterval, fetchTimeout) == Err(MissingKey("name"))
  {
    assert Lower("v2c") == "v2c";
    assert CheckVersion(f) == Ok("v2c");
    DefaultsPass(f, fetchInterval, fetchTimeout);
  }

  /**
   * As written, such a nameless record aborts the whole load instead of
   * being rejected: the handler of the name check formats the missing name.
   */
  lemma NamelessRecordAbortsLoad(f: map<string, Json>, fetchInterval: int, fetchTimeout: int)
    requires "snmp_version" in f && f["snmp_version"] == JString("v2c") && Truthy(Get(f, "snmp_community", JNull))
    requires "name" !in f && OnlyDefaults(f)
    ensures ExamineAsWritten(JObject(f), fetchInterval, fetchTimeout) == LoadAborted
    ensures Examine(JObject(f), fetchInterval, fetchTimeout) == Rejected(MissingKey("name"))
    ensures LoadAsWritten([JObject(f)], fetchInterval, fetchTimeout) == None
  {
    NamelessRecordRejected(f, fetchInterval, fetchTimeout);
    assert [JObject(f)][1..] == [];
  }
}
