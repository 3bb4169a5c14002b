# APC UPS exporter: a verified model

The model covers the core of the APC UPS telemetry exporter (`apc.py`). The exporter:

1. reads a list of UPS targets, validates each record and keeps the accepted ones as devices (`_load_targets`);
2. polls every device with `snmpbulkget`, parsing the `-Oqs` output into an OID-to-value table (`fetch_snmp`);
3. turns that table into one row of metrics (identity, output power, high-precision readings, dates, runtimes);
4. collects temperature and humidity probes, either from a second SNMP walk or by scraping the network management card's status page;
5. logs in to the card when the page needs it, keeping the session token on the device (`generate_nmc_session`).

Modules follow the program's structure:

| module | covers |
|---|---|
| `Targets` | target records, their validation, the exporter's device list |
| `Snmp` | command line and output parsing of `snmpbulkget` |
| `Nmc` | the login redirect and its `/NMC/(.*)/` token |
| `Metrics` | metric derivation |
| `Dates` | the `strptime` subset for `MM/DD/YYYY` and `MM/DD/YY` |
| `Probes` | SNMP and status-page probes |
| `Poller` | session refresh and one poll cycle |
| `Numbers`, `Text`, `Failures`, `Wrappers` | Python's `int()`, `float()` and string methods, with the exceptions they raise |

The model is imperative where the source is:

- `Targets.Exporter` is a class whose `upsTargets` sequence `LoadTargets` extends.
- `Targets.Device` holds the mutable `nmcSession`, which `Poller.ScrapeProbePage` and `Poller.PollOnce` update.
- The loops of `fetch_snmp`, of the SNMP probe correlation and of the status-page conversion are methods with loop invariants. Each is proved equal to a specification function, and the properties are proved about that function.

Everything the program receives from outside enters the model as a parameter:

- the exit codes and standard output of `snmpbulkget`;
- the card's HTTP answers (`Poller.CardAnswers`);
- the tuples the probe regular expression finds (`CycleInputs.statusPageProbes`);
- the clock reading.

The status-page GETs (apc.py:590-597 and 606-613) have no exception handler of their own. An exception from either reaches the cycle's `except Exception` (apc.py:646-647), and the whole row is dropped, while any session stored before it stays stored (`Poller.PageFailureKeepsSession`).

## Model

| member | source | states |
|---|---|---|
| `Targets.Truncate` | apc.py:100 | `int()` of a float rounds toward zero: the result is within one below a non-negative value and within one above a negative one |
| `Targets.ConvertIfTruthy` | apc.py:98-103 | a value is left unconverted exactly when it is falsy, as in `if (x := target.get(...)):` |
| `Targets.CheckVersion` | apc.py:86-96 | an accepted record's version, lower-cased, is `v2c` or `v3` |
| `Targets.VersionAccepted` | apc.py:86-96 | the version checks pass iff the lower-cased version is `v2c`/`v3` and the credentials for the version as written are truthy (community for exact `v2c`, username and password for exact `v3`) |
| `Targets.CheckIntMeaning` | apc.py:98-154 | an optional integer field: a falsy value is stored as absent, a non-zero integer or `true` as itself, a float truncated to within one, the text of any integer `n` as `n`; other non-empty text gets the field's own rejection and a non-empty list or object the generic one |
| `Targets.ProbesAccepted` | apc.py:119-140 | the probe settings pass iff `fetch_probes` (default `off`) lower-cases to off/snmp/http/https or empty, and HTTP modes come with truthy HTTP credentials |
| `Targets.Validate` | apc.py:178-179 | a record that is not an object is rejected through the generic exception handler |
| `Targets.ValidateChecks` | apc.py:84-174 | validation succeeds iff every individual check passes and `name` and `ip` are present; this only lists the failure tests, and what each check accepts is stated by `Targets.AcceptedExactly` |
| `Targets.AcceptedExactly` | apc.py:84-174 | validation accepts a record iff it is an object meeting every documented condition (version, credentials, port, interval, timeout, probes, HTTP port, rated values, name, ip) |
| `Targets.Defaults` | apc.py:98-174 | an accepted target keeps the lower-cased version; absent fields get port 161, the exporter's interval and timeout (none when zero), probes disabled; a falsy HTTP port is replaced by 80 or 443 for HTTP modes |
| `Targets.DefaultsPass` | apc.py:98-154 | a record that sets none of the optional fields passes each optional check with its default |
| `Targets.UpperCaseVersionSkipsCredentials` | apc.py:86-94 | `V2C` passes the lower-cased version check but skips the exact-case community check, so it is accepted without a community |
| `Targets.NamelessRecordRejected` | apc.py:156-157 | a record that is valid except for `name` fails with the missing key `name` |
| `Targets.ExamineAsWritten` | apc.py:84-179 | as written, a record is lost to the whole load exactly when it is rejected for any reason other than an unexpected error while it has no `name` |
| `Targets.Examine` | apc.py:84-179 | with the handler fixed, examining a record never aborts the load and accepts exactly the records validation accepts |
| `Targets.ExamineAgreesWhenNamed` | apc.py:176-179 | for a record with a `name`, the fixed and the as-written examination agree |
| `Targets.NamelessRecordAbortsLoad` | apc.py:176-177 | as written, a nameless record aborts the load; with the fix it is rejected for the missing `name` |
| `Targets.LoadAsWrittenAgrees` | apc.py:84-179 | as written, the load completes iff no record aborts it, and then it keeps the same targets as the fixed load |
| `Targets.AcceptedTargetsMembers` | apc.py:84-174 | a target is loaded iff some record validates to it |
| `Targets.Device.constructor` | apc.py:156-173 | a new device holds its target and no NMC session |
| `Targets.Exporter.constructor` | apc.py:38 | the exporter starts with no devices |
| `Targets.Exporter.AddDevice` | apc.py:156-174 | appends one fresh device with the target and no session |
| `Targets.Exporter.AddAccepted` | apc.py:85-179 | one record adds a fresh device iff it is accepted, and keeps the existing devices |
| `Targets.Exporter.LoadTargets` | apc.py:84-179 | the devices added are fresh and hold, in order, exactly the accepted targets, with no session; earlier devices are kept |
| `Snmp.Put` | apc.py:308 | assigning a key keeps every existing key in place and either overwrites one entry or appends the pair |
| `Snmp.PutLookup` | apc.py:308 | after assigning `k`, looking up `k` gives the new value and every other key is unchanged |
| `Snmp.PutShape` | apc.py:308 | the table grows only for a new key, and keys stay unique |
| `Snmp.ParseLineMeaning` | apc.py:303-308 | a line's key is its text before the first space, and its value is the rest with no leading or trailing `"` |
| `Snmp.FetchSnmp` | apc.py:284-310 | the loop over batches returns the table of the batch specification |
| `Snmp.CollectFailsOnNonZeroExit` | apc.py:297-299 | the batches fail iff some batch exits non-zero |
| `Snmp.FailedBatchDiscardsAll` | apc.py:297-299 | one failing batch makes the result empty, discarding the earlier batches |
| `Snmp.LastLineWins` | apc.py:302-308 | the value of a key is that of its last line, or the earlier value when no line names it |
| `Snmp.BulkGetLookup` | apc.py:284-310 | when every batch succeeds, each key's value is its last occurrence across all batches' lines |
| `Snmp.AddLinesWellFormed` | apc.py:302-308 | parsing lines keeps keys unique and values unquoted |
| `Snmp.BulkGetWellFormed` | apc.py:284-310 | the result has unique keys and no value starting or ending with `"` |
| `Snmp.ParseQuotedLine` | apc.py:303-308 | a line `KEY "VALUE"` yields `KEY` and `VALUE` with the quotes removed |
| `Snmp.ParsePlainLine` | apc.py:303-308 | a line `k v` with a one-character key and a one-character unquoted value yields that key and value |
| `Snmp.ExampleLines` | apc.py:302 | output text splits into its lines, without the final newline |
| `Snmp.RepeatedKeyKeepsPosition` | apc.py:308 | a repeated key keeps its first position with its last value, as Python dictionaries do |
| `Snmp.OneBatch` | apc.py:287-310 | a single successful batch yields its lines' table |
| `Snmp.ExampleParsedLines` | apc.py:303-308 | concrete lines with a quoted multi-word value parse as expected |
| `Snmp.ExampleAddLines` | apc.py:302-308 | a later line for key `a` overwrites the earlier one in place |
| `Snmp.OverwriteExample` | apc.py:284-310 | one batch's output `a "x y"`, `b 1`, `a 2` gives `a = 2`, `b = 1` |
| `Snmp.SnmpArgs` | apc.py:265-283 | the command is `snmpbulkget`, the version's credentials, `-t` with the timeout or the default, the fixed options `-r 0 -m ./powernet.mib -Oqs`, then the IP |
| `Snmp.ArgsDetermineInputs` | apc.py:265-283 | two equal argument lists have the same IP, the same effective timeout, the same version family (`v2c` or not) and that family's credentials |
| `Snmp.BatchCommand` | apc.py:289-290 | `*args + oid.split()`: the arguments unchanged, followed by one non-empty, space-free word per OID of the batch |
| `Snmp.BatchCommandShape` | apc.py:265-290 | a batch's command starts with `snmpbulkget`, has the IP right after the fixed arguments, and ends with exactly the batch's words |
| `Snmp.ArgsIgnorePort` | apc.py:264-283 | the configured SNMP port never reaches the command line |
| `Nmc.GreedyEndMeaning` | apc.py:26-28 | for a marker at `p`, the group ends at the last `/` on the marker's line, and there is no match iff no such `/` exists |
| `Nmc.FindFromMeaning` | apc.py:329 | a search from `p` fails iff no match starts at or after `p`, and otherwise returns the group of the leftmost-longest match |
| `Nmc.FindToken` | apc.py:26-28 | the token is absent iff the URL has no match, and otherwise is the group of the leftmost, then longest, match |
| `Nmc.GenerateSession` | apc.py:312-339 | no session when the POST raised or did not answer 200; a session returned comes from a 200 answer whose final URL contains `/NMC/<session>/`, with no line break in the session |
| `Nmc.TokenOfRedirect` | apc.py:329-332 | a redirect `…/NMC/<token>/page` with no other marker before and no `/` after gives back the whole token, even one containing `/` |
| `Nmc.NoMarkerNoToken` | apc.py:333-336 | a URL without `/NMC/` yields no session |
| `Nmc.ExampleRedirect` | apc.py:329-332 | `/NMC/Ab1/home.htm` carries token `Ab1` |
| `Nmc.ExampleGreedy` | apc.py:26-28 | `/NMC/a/b/home.htm` carries `a/b`: the group is greedy |
| `Failures.Int` | apc.py:528 | `int()` reads the text of any integer `n` back as `n`; when it raises, the error carries the offending text |
| `Failures.Float` | apc.py:417 | `float()` agrees with `int()` wherever `int()` succeeds, reads the text of any integer `n` as `n`, raises on the empty text, and its error carries the offending text |
| `Failures.IntOfShowInt` | apc.py:528 | `int()` reads back any printed integer |
| `Failures.FloatOfShowInt` | apc.py:417 | `float()` reads a printed integer as that number |
| `Numbers.ParseShowInt` | apc.py:100 | `int(str(n)) == n` for every integer, negatives included |
| `Numbers.FloatAgreesWithInt` | apc.py:417 | where `int()` accepts a text, `float()` accepts it with the same value |
| `Numbers.ParseFloatOfDecimal` | apc.py:625 | `float("W.F")` is the whole part plus the fraction's digits over the matching power of ten |
| `Numbers.ParseFloatEmpty` | apc.py:543 | `float("")` raises |
| `Numbers.ParseFloatShowInt` | apc.py:417 | `float(str(n)) == n` |
| `Metrics.FirstTwo` | apc.py:528 | `seconds[:2]` is the first two characters, or the whole text when shorter |
| `Metrics.Clock` | apc.py:526 | a second count splits into days, hours below 24, minutes and seconds below 60 that weigh back to it |
| `Metrics.ClockOfFields` | apc.py:527-528 | four readable fields weigh to days·86400 + hours·3600 + minutes·60 + the first two seconds digits |
| `Metrics.ReadClockFields` | apc.py:526-528 | the fields a printed clock produces read back as its numbers |
| `Metrics.WeightedClock` | apc.py:528 | weighing a clock's parts gives back the second count |
| `Metrics.DurationOfTimeTicks` | apc.py:524-528 | a runtime printed as `d:h:mm:ss.cc` from t ticks parses to t / 100 seconds |
| `Metrics.DurationNeedsFourFields` | apc.py:527 | a value without exactly three `:` raises in the four-way unpacking |
| `Metrics.ExampleTimeTicksText` | apc.py:526 | 1088400 ticks print as `0:3:01:24.00` |
| `Metrics.OptionalDuration` | apc.py:523-534 | an absent runtime is none; a runtime the card prints from `t` ticks reads as `t / 100` seconds; a text without exactly three `:` fails the unpacking |
| `Metrics.ScaledReading` | apc.py:414-474 | a high-precision reading is none iff absent or empty, a printed integer n gives n / divisor, and the reading fails iff its text is present, non-empty and not a number |
| `Metrics.Efficiency` | apc.py:463-468 | a reported efficiency is never negative |
| `Metrics.EfficiencyReading` | apc.py:465-466 | an efficiency n is reported as max(0, n / 10) |
| `Metrics.ExampleNegativeEfficiency` | apc.py:463-466 | `-20` is reported as 0 |
| `Metrics.PowerReported` | apc.py:386-389 | a non-empty reported power is passed through as text |
| `Metrics.PowerDerived` | apc.py:391-395 | without a reported value, a non-zero rating and a readable load give rated · load / 1000 |
| `Metrics.PowerUnknown` | apc.py:396-398 | without a report, rating or load, the power is none |
| `Metrics.ExamplePower` | apc.py:393-395 | a load of 680 at 1000 W rated gives 680 W |
| `Metrics.DateColumn` | apc.py:477-521 | an absent date is none, and every date produced is a real calendar date |
| `Metrics.HighPrecisionSucceeds` | apc.py:414-474 | the high-precision block fails iff one of its readings fails; this only lists the failure tests, and each reading's value is stated by `Metrics.ScaledReading` |
| `Metrics.DeriveMetricsSucceeds` | apc.py:371-534 | the row's metrics fail iff a power, a high-precision reading or a runtime fails; this only lists the failure tests, and the columns' values are stated by `Metrics.IdentityColumns`, `Metrics.ScaledReading` and the power lemmas |
| `Metrics.IdentityColumns` | apc.py:375-384 | the row carries the target's name, the card's SKU falling back to the configured one, the model, sensitivity, status, last transfer reason and battery status as reported, the replace flag (true iff `batteryNeedsReplacing`) and the three dates, only the manufacture date with the long-year retry |
| `Metrics.BatteryTemperatureEmpty` | apc.py:541-543 | a present but empty battery temperature raises, because the check is `is not None` |
| `Metrics.BatteryTemperatureReading` | apc.py:540-543 | a battery temperature n is reported as n / 10 |
| `Dates.MonthToken` | apc.py:483 | a parsed month lies in 1..12 |
| `Dates.DayToken` | apc.py:483 | a parsed day lies in 1..31 |
| `Dates.ShortYear` | apc.py:486 | a two-digit year maps into 1969..2068 |
| `Dates.Strptime` | apc.py:483-486 | every date `strptime` accepts is a real calendar date |
| `Dates.ParseDate` | apc.py:477-521 | every date the column parser returns is a real calendar date |
| `Dates.LongFormatRoundTrip` | apc.py:481-483 | any date printed as `MM/DD/YYYY` parses back to itself |
| `Dates.ShortFormatRoundTrip` | apc.py:484-486 | any date from 1969 to 2068 printed as `MM/DD/YY` parses back to itself |
| `Dates.RetryOnlyRescuesShortText` | apc.py:487-493 | the long-year retry changes the result only for text of at most 8 characters, and then only via `%Y` |
| `Dates.LongYearDigitsLast` | apc.py:483 | an accepted `%m/%d/%Y` text ends with `/` and four digits that are its year |
| `Dates.ExampleLongDate` | apc.py:482-483 | `05/16/2027` is 16 May 2027 |
| `Dates.ExampleShortDate` | apc.py:485-486 | `03/07/22` is 7 March 2022 |
| `Dates.ExampleRetry` | apc.py:487-490 | `3/7/2022` parses only with the manufacture date's retry |
| `Dates.ExampleBadMonth` | apc.py:491-493 | month 13 parses to nothing |
| `Dates.ExampleNoLeapDay` | apc.py:483 | 29 February 2023 is rejected |
| `Probes.ScanEntry` | apc.py:564-578 | one table entry only appends to the sensor columns |
| `Probes.ScanExtends` | apc.py:564-578 | a successful walk only appends to the sensor columns |
| `Probes.ScanCount` | apc.py:564-578 | a successful walk appends one sensor per temperature or humidity entry |
| `Probes.ScanLabelledReading` | apc.py:572-578 | a reading whose probe is already named appends `<label> Temperature` or `<label> Humidity` with its value |
| `Probes.ScanUnlabelledReading` | apc.py:573 | a reading before its probe's name raises the lookup error |
| `Probes.ScanLabel` | apc.py:569-570 | a name entry records the label under the probe id and appends nothing |
| `Probes.ScanIgnoresOthers` | apc.py:564-578 | entries of other OIDs change nothing |
| `Probes.SnmpProbesExtend` | apc.py:564-578 | the correlation appends exactly one sensor per reading and keeps names and values paired |
| `Probes.CorrelateSnmpProbes` | apc.py:564-578 | the loop over the table computes the correlation specification |
| `Probes.ProbeKey` | apc.py:566-576 | `prefix.id` keys are classified by prefix and their last dotted field is the id |
| `Probes.LabelledProbe` | apc.py:564-578 | a probe's name, temperature and humidity give `<name> Temperature` = t and `<name> Humidity` = h |
| `Probes.ReadingBeforeLabel` | apc.py:573 | a temperature listed before its name makes the walk fail |
| `Probes.CelsiusConversion` | apc.py:623-628 | `(f - 32) * 5 / 9` inverts the Fahrenheit scale; Celsius values pass unchanged |
| `Probes.ExampleBodyTemperature` | apc.py:625 | 98.6 °F is 37 °C |
| `Probes.ProbeReadings` | apc.py:620-632 | one probe only appends to the columns |
| `Probes.ProbeReadingsMeaning` | apc.py:620-632 | a probe succeeds iff its temperature and any humidity are numbers, and appends `<label> Temperature` in Celsius and, only when humidity is present, `<label> Humidity` |
| `Probes.HtmlExtends` | apc.py:620-632 | the probes append one temperature per probe plus one humidity per probe that has one, paired |
| `Probes.AppendProbeReadings` | apc.py:621-632 | appending one probe's readings to the two lists computes the probe specification |
| `Probes.ConvertHtmlProbes` | apc.py:620-632 | the loop over the found probes computes the status-page specification |
| `Poller.CachedSessionServed` | apc.py:588-597 | with a stored session and a 200 page, one GET serves the page and no login happens |
| `Poller.StaleSessionRefreshed` | apc.py:594-613 | a non-200 page with a stored session causes exactly one login; a returned token replaces the stored one and is used for one more GET, and a failed login keeps the old session and yields no page |
| `Poller.MissingSessionLogsInTwice` | apc.py:585-604 | with no session the code logs in twice before the first GET |
| `Poller.CachedSessionRaising` | apc.py:590-593 | a GET that raises ends the scrape with the session unchanged |
| `Poller.PagesUseStoredSession` | apc.py:590-608 | every GET uses the session stored at that moment, and the final session is the last one stored |
| `Poller.ScrapeProbePage` | apc.py:582-613 | updating the device's session during the scrape follows the refresh specification, trace and page included |
| `Poller.BatteryColumn` | apc.py:536-543 | the sensor lists hold one `Battery Temperature` column exactly when the card reports the temperature, none otherwise, and a report of `n` tenths gives `n / 10` degrees |
| `Poller.ProbeSensorsExtend` | apc.py:545-632 | probe collection only appends to the sensor lists |
| `Poller.RowShape` | apc.py:634-645 | an enqueued row carries the metrics, the paired sensors starting with the battery ones, and the timestamp |
| `Poller.NoDataSkipsCycle` | apc.py:364-369 | a cycle yields no data iff the primary fetch is empty, and then the session is untouched |
| `Poller.MetricFailureDiscards` | apc.py:646-647 | a metric that raises discards the cycle and touches no session |
| `Poller.SessionOnlyForPageModes` | apc.py:545-582 | only the HTTP modes change the stored session |
| `Poller.EmptyPageNoProbes` | apc.py:616 | an empty page adds no probe sensors |
| `Poller.PageFailureKeepsSession` | apc.py:582-647 | a GET that raises discards the row but keeps any session the scrape stored |
| `Poller.PollOnce` | apc.py:351-650 | one pass of the polling loop produces the cycle specification's outcome and leaves the device's session where it says |
| `Text.JoinSplit` | apc.py:303-307 | joining the pieces of a split with the separator restores the text |
| `Text.SplitJoin` | apc.py:303-307 | splitting a join of separator-free pieces restores the pieces |
| `Text.SplitCount` | apc.py:527 | a split has one more piece than separators |
| `Text.LastFieldAfterSeparator` | apc.py:566 | `split('.')[-1]` of `a.id` is `id` |
| `Text.SplitFirstSpaceReassembles` | apc.py:303-307 | the key, a space and the re-joined rest reassemble the line |
| `Text.StripQuotesEnds` | apc.py:308 | a stripped value neither starts nor ends with `"` |
| `Text.StripQuotesRemovesOnlyQuotes` | apc.py:308 | stripping removes only leading and trailing `"` characters |
| `Text.SplitLinesUnlines` | apc.py:302 | `splitlines()` of newline-terminated single lines gives back those lines |
| `Text.Words` | apc.py:290 | `oid.split()` yields non-empty words without whitespace |
| `Text.Lower` | apc.py:86 | lower-casing keeps the length and maps each character |
| `Targets.LoadAsWritten` | apc.py:84-179 | the record loop as written, none where a record's exception escapes; related to the fixed load by `Targets.LoadAsWrittenAgrees` |
| `Numbers.ParseInt` | apc.py:100 | `int()` of text: surrounding whitespace, an optional sign, digits with single underscores between them; none where Python raises; its round trip is `Numbers.ParseShowInt` |
| `Numbers.ParseFloat` | apc.py:417 | `float()` of decimal text; related to `int()` by `Numbers.FloatAgreesWithInt` and given in closed form by `Numbers.ParseFloatOfDecimal` |
| `Snmp.ParseLine` | apc.py:303-308 | one output line as key and value; its meaning is `Snmp.ParseLineMeaning` |
| `Snmp.AddLines` | apc.py:302-308 | the assignments of one batch's lines into the table; specified by `Snmp.LastLineWins` and `Snmp.AddLinesWellFormed` |
| `Snmp.Collect` | apc.py:287-299 | the batches in order, stopping at the first non-zero exit; specified by `Snmp.CollectFailsOnNonZeroExit` |
| `Snmp.BulkGet` | apc.py:284-310 | the table `fetch_snmp` returns, `{}` after a failed batch; specified by `Snmp.BulkGetLookup` and `Snmp.BulkGetWellFormed` |
| `Nmc.FindFrom` | apc.py:329 | the regular-expression search from an index; specified by `Nmc.FindFromMeaning` |
| `Metrics.Duration` | apc.py:527-528 | a runtime text in whole seconds; specified by `Metrics.DurationOfTimeTicks` and `Metrics.DurationNeedsFourFields` |
| `Metrics.Scaled` | apc.py:414-474 | one high-precision reading; specified by `Metrics.ScaledReading` |
| `Metrics.OutputPower` | apc.py:386-412 | the watts or VA column; specified by `Metrics.PowerReported`, `Metrics.PowerDerived` and `Metrics.PowerUnknown` |
| `Metrics.HighPrecision` | apc.py:414-474 | the ten scaled readings in order; specified by `Metrics.HighPrecisionSucceeds` |
| `Metrics.DeriveMetrics` | apc.py:371-534 | the row's metric columns; specified by `Metrics.DeriveMetricsSucceeds` and `Metrics.IdentityColumns` |
| `Metrics.Columns` | apc.py:375-384 | the columns read straight from the table; specified by `Metrics.IdentityColumns` |
| `Metrics.BatteryTemperature` | apc.py:540-543 | the battery temperature reading; specified by `Metrics.BatteryTemperatureEmpty` and `Metrics.BatteryTemperatureReading` |
| `Probes.ScanProbes` | apc.py:564-578 | the walk over the probe table; specified by `Probes.ScanCount`, `Probes.ScanLabelledReading`, `Probes.ScanUnlabelledReading` and `Probes.SnmpProbesExtend` |
| `Probes.HtmlSensors` | apc.py:620-632 | the status-page probes appended in order; specified by `Probes.HtmlExtends` |
| `Probes.Celsius` | apc.py:622-628 | a probe temperature in Celsius; specified by `Probes.CelsiusConversion` |
| `Poller.Retry` | apc.py:599-613 | the second login and the GET after it; specified by `Poller.StaleSessionRefreshed` and `Poller.MissingSessionLogsInTwice` |
| `Poller.Scrape` | apc.py:582-613 | the session refresh of one cycle; specified by `Poller.CachedSessionServed`, `Poller.StaleSessionRefreshed`, `Poller.MissingSessionLogsInTwice`, `Poller.CachedSessionRaising` and `Poller.PagesUseStoredSession` |
| `Poller.Cycle` | apc.py:351-647 | one cycle's outcome and stored session; specified by `Poller.RowShape`, `Poller.NoDataSkipsCycle`, `Poller.MetricFailureDiscards`, `Poller.SessionOnlyForPageModes` and `Poller.PageFailureKeepsSession` |
| `Text.Split` | apc.py:303 | `str.split(sep)`: at least one piece, none containing the separator |
| `Text.SplitLines` | apc.py:302 | `str.splitlines()`: every line free of line breaks |
| `Text.StripQuotes` | apc.py:308 | `lstrip('"').rstrip('"')`; specified by `Text.StripQuotesEnds` and `Text.StripQuotesRemovesOnlyQuotes` |

## Left out

- ClickHouse is not part of this model: connecting, the insert queue, `insert_to_clickhouse` and its batching. They are external I/O.
- The asyncio event loop, task creation, sleeping between cycles, `run` and the SIGTERM handler are left out. The model covers one cycle of one device. Concurrency between devices is not modelled.
- Logging, environment variables, reading and JSON-decoding `targets.json`, and the process exit when no target is accepted are left out. The decoded records are the input of `LoadTargets`.
- Subprocesses, HTTP requests and the clock are inputs:
  - `snmpbulkget` runs are given as exit code and output;
  - the card's responses are given as `CardAnswers`;
  - the timestamp is a parameter.
- The probe HTML regular expression is not modelled. The tuples it finds are an input, `CycleInputs.statusPageProbes`, which is why `Poller.EmptyPageNoProbes` speaks only of an empty page.
- Floating point is modelled with real numbers, so rounding is not. `float()` accepts an optional sign and digits with an optional fractional part. Single underscores between digits are accepted, as in Python. Exponents, `inf` and `nan` are not parsed. `int()` and `float()` accept only the ASCII digits `0`-`9`, where Python also accepts other Unicode decimal digits; SNMP output and the probe page are ASCII.
- `Text.Lower`: it lower-cases ASCII letters only, where Python's `lower()` also maps non-ASCII letters. All accepted values are ASCII.
- `Dates.Strptime`: it accepts only the one- or two-digit month and day and the year forms `%Y`/`%y` with `/` separators that the exporter uses. It does not model `strptime`'s other directives or whitespace handling.
- `Targets.CheckInt`: a falsy port, interval, timeout, HTTP port or rated value is stored as absent. The source stores the falsy value itself (`0`, `""`); every later use treats the two alike.
- `Targets.Validate`: a `fetch_probes` of `""` is modelled as probes disabled, which is how the poll loop treats it.
- `Targets.Exporter.LoadTargets`: the fixed handler is the one modelled. The as-written behaviour is `Targets.LoadAsWritten`, which returns none where the `KeyError` would escape.
- The row is a record with named columns rather than an untyped list. Column order is in `Metrics.Columns` and `Poller.Row`.
- `Poller.Cycle`: the primary and probe SNMP fetches are inputs, so the model does not capture how the target's fields reach the `snmpbulkget` command. A target whose credential for its version, or whose `ip`, is not a string fails every poll: `create_subprocess_exec` (apc.py:289-293) raises `TypeError`, and `except Exception` (apc.py:646-647) swallows it. An example is a `V2C` record without a community, which `Targets.UpperCaseVersionSkipsCredentials` shows is accepted. `Snmp.SnmpArgs` takes string credentials and is not connected to `Target`.
- The URLs of the login and status-page requests (scheme, port, path) are not modelled. Only the session token each GET uses is.

## Findings

| source | as written | input that shows it | evidently intended | confidence | as-written member | corrected member |
|---|---|---|---|---|---|---|
| apc.py:176-177 | the `KeyError` handler formats `target["name"]`; for a record without `name` this raises a second `KeyError` inside the handler, which escapes `_load_targets` and stops the load, so later records are never read | `{"snmp_version": "v2c", "snmp_community": "public", "ip": "10.0.0.5"}` | log the missing `name` and skip the record, as for any other missing key | not executed | `Targets.NamelessRecordAbortsLoad` | `Targets.Exporter.LoadTargets` |
