/**
 * One poll cycle of `fetch_ups` for one UPS: the bulk SNMP read, the metric
 * columns, the battery temperature, the probes (from the SNMP probe table or
 * from the card's status page, refreshing the web session as needed), and
 * the row that goes to the insert queue.  Every exception inside the cycle
 * discards it; the session the cycle stored on the target stays stored.
 */
module Poller {
  import opened Wrappers
  import opened Numbers
  import opened Failures
  import opened Snmp
  import opened Targets
  import opened Metrics
  import opened Probes
  import opened Nmc

  // ---------------------------------------------------------------- the session refresh

  /** What a GET of the status page produced: a response, or an exception (which nothing inside the cycle catches). */
  datatype PageOutcome = PageResponse(status: int, body: string) | PageRaised

  /** The requests a cycle sends to the card, in order. */
  datatype Request = GetPage(session: string) | PostLogin

  /**
   * The answers the card gives in one cycle: to the GET with the stored
   * session, to the first and to the second login, and to the GET after a
   * renewed login.  Each is consulted at most once.
   */
  datatype CardAnswers = CardAnswers(firstPage: PageOutcome, firstLogin: LoginOutcome, retryLogin: LoginOutcome, retryPage: PageOutcome)

  /** The session left on the target, the requests sent, and the page text (`None` when there is none). */
  datatype ScrapeRun = ScrapeRun(session: Option<string>, trace: seq<Request>, page: Result<Option<string>, Failure>)

  /** The retry after the first attempt gave no page: log in again, and on a token store it and fetch once more. */
  function Retry(session: Option<string>, trace: seq<Request>, answers: CardAnswers): ScrapeRun {
    match GenerateSession(answers.retryLogin)
    case None => ScrapeRun(session, trace + [PostLogin], Ok(None))
    case Some(token) =>
      var trace' := trace + [PostLogin, GetPage(token)];
      match answers.retryPage
      case PageRaised => ScrapeRun(Some(token), trace', Err(PageRequestRaised))
      case PageResponse(status, body) => ScrapeRun(Some(token), trace', Ok(if status == 200 then Some(body) else None))
  }

  /**
   * The session refresh: without a stored session, log in (and never fetch
   * with nothing); with one, fetch the page.  When that left no page text
   * (`None`, not an empty text), log in again and retry.
   */
  function Scrape(session: Option<string>, answers: CardAnswers): ScrapeRun {
    match session
    case None => Retry(GenerateSession(answers.firstLogin), [PostLogin], answers)
    case Some(token) =>
      match answers.firstPage
      case PageRaised => ScrapeRun(session, [GetPage(token)], Err(PageRequestRaised))
      case PageResponse(status, body) =>
        if status == 200 then ScrapeRun(session, [GetPage(token)], Ok(Some(body)))
        else Retry(session, [GetPage(token)], answers)
  }

  /** Logins in a trace. */
  function Logins(trace: seq<Request>): nat {
    if |trace| == 0 then 0 else (if trace[0] == PostLogin then 1 else 0) + Logins(trace[1..])
  }

  /** A stored session and a 200 page: no login, the page text as sent, even empty. */
  lemma CachedSessionServed(token: string, body: string, answers: CardAnswers)
    requires answers.firstPage == PageResponse(200, body)
    ensures Scrape(Some(token), answers) == ScrapeRun(Some(token), [GetPage(token)], Ok(Some(body)))
  {
  }

  lemma LoginsOfTrace(x: Request, y: Request, z: Request)
    ensures Logins([x]) == (if x == PostLogin then 1 else 0)
    ensures Logins([x, y]) == Logins([x]) + Logins([y])
    ensures Logins([x, y, z]) == Logins([x]) + Logins([y]) + Logins([z])
  {
    assert [x, y][1..] == [y];
    assert [x, y, z][1..] == [y, z];
    assert [y, z][1..] == [z];
  }

  /**
   * A stored session and a page other than 200: exactly one login; a token it
   * returns replaces the stored one and the page is fetched once more with it,
   * and when it returns none the old session stays and there is no page.
   */
  lemma StaleSessionRefreshed(token: string, status: int, body: string, answers: CardAnswers)
    requires answers.firstPage == PageResponse(status, body) && status != 200
    ensures Logins(Scrape(Some(token), answers).trace) == 1
    ensures GenerateSession(answers.retryLogin).Some? ==>
      var renewed := GenerateSession(answers.retryLogin).value;
      && Scrape(Some(token), answers).session == Some(renewed)
      && Scrape(Some(token), answers).trace == [GetPage(token), PostLogin, GetPage(renewed)]
    ensures GenerateSession(answers.retryLogin).None? ==>
      Scrape(Some(token), answers) == ScrapeRun(Some(token), [GetPage(token), PostLogin], Ok(None))
  {
    var renewed := GenerateSession(answers.retryLogin).GetOr("");
    LoginsOfTrace(GetPage(token), PostLogin, GetPage(renewed));
  }

  /**
   * No stored session: no GET before the first login, and two logins; the
   * second login's token replaces the first's only when there is one.
   */
  lemma MissingSessionLogsInTwice(answers: CardAnswers)
    ensures Logins(Scrape(None, answers).trace) == 2
    ensures Scrape(None, answers).trace[0] == PostLogin && Scrape(None, answers).trace[1] == PostLogin
    ensures Scrape(None, answers).session ==
      if GenerateSession(answers.retryLogin).Some? then GenerateSession(answers.retryLogin)
      else GenerateSession(answers.firstLogin)
  {
    var renewed := GenerateSession(answers.retryLogin).GetOr("");
    LoginsOfTrace(PostLogin, PostLogin, GetPage(renewed));
  }

  /** The GET with the stored session raising ends the cycle before any login. */
  lemma CachedSessionRaising(token: string, answers: CardAnswers)
    requires answers.firstPage == PageRaised
    ensures Scrape(Some(token), answers) == ScrapeRun(Some(token), [GetPage(token)], Err(PageRequestRaised))
  {
  }

  /** Every GET uses the session stored on the target at that moment: the old one, or a token just returned. */
  lemma PagesUseStoredSession(session: Option<string>, answers: CardAnswers)
    ensures var run := Scrape(session, answers);
      forall i :: 0 <= i < |run.trace| && run.trace[i].GetPage? ==>
        Some(run.trace[i].session) == session || Some(run.trace[i].session) == run.session
  {
  }

  /** `ScrapeProbePage`: the code at the status page branch, with `ups['nmc_session']` as the device's field. */
  method ScrapeProbePage(d: Device, answers: CardAnswers) returns (trace: seq<Request>, html: Result<Option<string>, Failure>)
    modifies d
    ensures ScrapeRun(d.nmcSession, trace, html) == Scrape(old(d.nmcSession), answers)
  {
    var page: Option<string> := None;
    trace := [];
    if d.nmcSession.None? {
      d.nmcSession := GenerateSession(answers.firstLogin);
      trace := trace + [PostLogin];
    } else {
      trace := trace + [GetPage(d.nmcSession.value)];
      match answers.firstPage
      case PageRaised =>
        return trace, Err(PageRequestRaised);
      case PageResponse(status, body) =>
        if status == 200 {
          page := Some(body);
        }
    }
    if page.None? {
      var session := GenerateSession(answers.retryLogin);
      trace := trace + [PostLogin];
      if session.Some? {
        d.nmcSession := session;
        trace := trace + [GetPage(session.value)];
        match answers.retryPage
        case PageRaised =>
          return trace, Err(PageRequestRaised);
        case PageResponse(status, body) =>
          if status == 200 {
            page := Some(body);
          }
      }
    }
    return trace, Ok(page);
  }

  // ---------------------------------------------------------------- the cycle

  /** What the card and the agent answer during one cycle; `statusPageProbes` stands for the status page expression. */
  datatype CycleInputs = CycleInputs(
    primary: seq<ProcessRun>,
    probeTable: seq<ProcessRun>,
    card: CardAnswers,
    statusPageProbes: string -> seq<HtmlProbe>)

  /** One row of the telemetry table. */
  datatype Row = Row(metrics: Metrics, sensors: Sensors, timestamp: real)

  /** A cycle with no SNMP data sleeps; a raised exception discards the cycle; otherwise a row is queued. */
  datatype CycleOutcome = NoData | Discarded(failure: Failure) | Enqueued(row: Row)

  /** The sensor columns before any probe: the battery temperature when the device reports it. */
  function BatterySensors(battery: Option<real>): (s: Sensors)
    ensures Paired(s)
    ensures battery.None? ==> s == Sensors([], [])
    ensures battery.Some? ==> s == Sensors(["Battery Temperature"], [battery.value])
  {
    match battery
    case None => Sensors([], [])
    case Some(v) => Emit(Sensors([], []), "Battery Temperature", v)
  }

  /**
   * The battery column of a cycle that read the temperature: there exactly
   * when the device reports it, holding the reported tenths as degrees.
   */
  lemma BatteryColumn(raw: Entries)
    requires BatteryTemperature(raw).Ok?
    ensures var s := BatterySensors(BatteryTemperature(raw).value);
      && (|s.names| == 1 <==> Lookup(raw, "upsHighPrecExtdBatteryTemperature.0").Some?)
      && (|s.names| == 0 <==> Lookup(raw, "upsHighPrecExtdBatteryTemperature.0").None?)
      && forall n: int :: Lookup(raw, "upsHighPrecExtdBatteryTemperature.0") == Some(ShowInt(n)) ==>
           s == Sensors(["Battery Temperature"], [n as real / 10.0])
  {
    forall n: int | Lookup(raw, "upsHighPrecExtdBatteryTemperature.0") == Some(ShowInt(n))
      ensures BatterySensors(BatteryTemperature(raw).value) == Sensors(["Battery Temperature"], [n as real / 10.0])
    {
      BatteryTemperatureReading(raw, n);
    }
  }

  /** The status page branch: the session refresh, then the tuples of a non-empty page. */
  function PageSensors(start: Sensors, session: Option<string>, inputs: CycleInputs): (Result<Sensors, Failure>, Option<string>) {
    var run := Scrape(session, inputs.card);
    match run.page
    case Err(f) => (Err(f), run.session)
    case Ok(page) =>
      if page.Some? && page.value != "" then (HtmlSensors(start, inputs.statusPageProbes(page.value)), run.session)
      else (Ok(start), run.session)
  }

  /** The probe columns for the target's probe mode, and the session left on the target. */
  function ProbeSensors(t: Target, start: Sensors, session: Option<string>, inputs: CycleInputs): (Result<Sensors, Failure>, Option<string>) {
    match t.fetchProbes
    case Disabled => (Ok(start), session)
    case Snmp => (SnmpProbeSensors(start, BulkGet(inputs.probeTable)), session)
    case _ => PageSensors(start, session, inputs)
  }

  /** One cycle, and the session it leaves on the target. */
  function Cycle(t: Target, session: Option<string>, inputs: CycleInputs, timestamp: real): (CycleOutcome, Option<string>) {
    var raw := BulkGet(inputs.primary);
    if raw == [] then (NoData, session)
    else
      match DeriveMetrics(raw, t)
      case Err(f) => (Discarded(f), session)
      case Ok(metrics) =>
        match BatteryTemperature(raw)
        case Err(f) => (Discarded(f), session)
        case Ok(battery) =>
          var (sensors, session') := ProbeSensors(t, BatterySensors(battery), session, inputs);
          match sensors
          case Err(f) => (Discarded(f), session')
          case Ok(s) => (Enqueued(Row(metrics, s, timestamp)), session')
  }

  /** Whatever the probe mode, the probes are appended after the columns so far, to both columns together. */
  lemma ProbeSensorsExtend(t: Target, start: Sensors, session: Option<string>, inputs: CycleInputs)
    requires ProbeSensors(t, start, session, inputs).0.Ok?
    ensures Extends(ProbeSensors(t, start, session, inputs).0.value, start)
  {
    match t.fetchProbes
    case Disabled =>
    case Snmp =>
      SnmpProbesExtend(start, BulkGet(inputs.probeTable));
    case _ =>
      var run := Scrape(session, inputs.card);
      if run.page.value.Some? && run.page.value.value != "" {
        HtmlExtends(start, inputs.statusPageProbes(run.page.value.value));
      }
  }

  /**
   * A queued row holds the metric columns of the device's data, pairs every
   * sensor name with one value, and starts with the battery temperature,
   * scaled, whenever the device reports one.
   */
  lemma RowShape(t: Target, session: Option<string>, inputs: CycleInputs, timestamp: real)
    requires Cycle(t, session, inputs, timestamp).0.Enqueued?
    ensures var row := Cycle(t, session, inputs, timestamp).0.row;
      var raw := BulkGet(inputs.primary);
      && raw != []
      && DeriveMetrics(raw, t) == Ok(row.metrics)
      && BatteryTemperature(raw).Ok?
      && row.timestamp == timestamp
      && Paired(row.sensors)
      && Extends(row.sensors, BatterySensors(BatteryTemperature(raw).value))
      && (BatteryTemperature(raw).value.Some? ==>
            && |row.sensors.names| >= 1
            && row.sensors.names[0] == "Battery Temperature"
            && row.sensors.values[0] == BatteryTemperature(raw).value.value)
  {
    var raw := BulkGet(inputs.primary);
    var start := BatterySensors(BatteryTemperature(raw).value);
    ProbeSensorsExtend(t, start, session, inputs);
    var s := Cycle(t, session, inputs, timestamp).0.row.sensors;
    if BatteryTemperature(raw).value.Some? {
      assert s.names[0] == s.names[..1][0] && s.values[0] == s.values[..1][0];
    }
  }

  /** No SNMP data at all (every batch empty, or one failing): nothing happens this cycle. */
  lemma NoDataSkipsCycle(t: Target, session: Option<string>, inputs: CycleInputs, timestamp: real)
    ensures Cycle(t, session, inputs, timestamp).0 == NoData <==> BulkGet(inputs.primary) == []
    ensures BulkGet(inputs.primary) == [] ==> Cycle(t, session, inputs, timestamp).1 == session
  {
  }

  /** Any failure of the metric columns discards the cycle with that failure, before any probe. */
  lemma MetricFailureDiscards(t: Target, session: Option<string>, inputs: CycleInputs, timestamp: real)
    requires BulkGet(inputs.primary) != [] && DeriveMetrics(BulkGet(inputs.primary), t).Err?
    ensures Cycle(t, session, inputs, timestamp) == (Discarded(DeriveMetrics(BulkGet(inputs.primary), t).error), session)
  {
  }

  /** Only the status page modes touch the stored session. */
  lemma SessionOnlyForPageModes(t: Target, session: Option<string>, inputs: CycleInputs, timestamp: real)
    requires t.fetchProbes == Disabled || t.fetchProbes == Snmp
    ensures Cycle(t, session, inputs, timestamp).1 == session
  {
  }

  /** The status page served with an empty text: the row carries no page probes. */
  lemma EmptyPageNoProbes(t: Target, token: string, inputs: CycleInputs, timestamp: real)
    requires t.fetchProbes == Http || t.fetchProbes == Https
    requires inputs.card.firstPage == PageResponse(200, "")
    requires Cycle(t, Some(token), inputs, timestamp).0.Enqueued?
    ensures Cycle(t, Some(token), inputs, timestamp).0.row.sensors ==
      BatterySensors(BatteryTemperature(BulkGet(inputs.primary)).value)
  {
    var start := BatterySensors(BatteryTemperature(BulkGet(inputs.primary)).value);
    CachedSessionServed(token, "", inputs.card);
    assert ProbeSensors(t, start, Some(token), inputs) == (Ok(start), Some(token));
  }

  /** An exception raised by a page request discards the cycle, yet the session stored before it stays stored. */
  lemma PageFailureKeepsSession(t: Target, session: Option<string>, inputs: CycleInputs, timestamp: real)
    requires t.fetchProbes == Http || t.fetchProbes == Https
    requires BulkGet(inputs.primary) != [] && DeriveMetrics(BulkGet(inputs.primary), t).Ok?
    requires BatteryTemperature(BulkGet(inputs.primary)).Ok?
    requires Scrape(session, inputs.card).page.Err?
    ensures Cycle(t, session, inputs, timestamp) == (Discarded(PageRequestRaised), Scrape(session, inputs.card).session)
  {
  }

  /** The cycle as `fetch_ups` runs it, on the device's stored session. */
  method PollOnce(d: Device, inputs: CycleInputs, timestamp: real) returns (outcome: CycleOutcome)
    modifies d
    ensures (outcome, d.nmcSession) == Cycle(d.target, old(d.nmcSession), inputs, timestamp)
  {
    var snmpData := FetchSnmp(inputs.primary);
    if snmpData == [] {
      return NoData;
    }
    var metrics := DeriveMetrics(snmpData, d.target);
    if metrics.Err? {
      return Discarded(metrics.error);
    }
    var battery := BatteryTemperature(snmpData);
    if battery.Err? {
      return Discarded(battery.error);
    }
    var sensors := BatterySensors(battery.value);
    if d.target.fetchProbes == Snmp {
      var probeData := FetchSnmp(inputs.probeTable);
      var probes := CorrelateSnmpProbes(sensors, probeData);
      if probes.Err? {
        return Discarded(probes.error);
      }
      sensors := probes.value;
    } else if d.target.fetchProbes == Http || d.target.fetchProbes == Https {
      var trace, html := ScrapeProbePage(d, inputs.card);
      if html.Err? {
        return Discarded(html.error);
      }
      if html.value.Some? && html.value.value != "" {
        var probes := ConvertHtmlProbes(sensors, inputs.statusPageProbes(html.value.value));
        if probes.Err? {
          return Discarded(probes.error);
        }
        sensors := probes.value;
      }
    }
    return Enqueued(Row(metrics.value, sensors, timestamp));
  }
}
