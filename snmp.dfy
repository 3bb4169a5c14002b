/**
 * `APC.fetch_snmp`: one `snmpbulkget` process per OID batch; each output line
 * is `<key> <value>`, the value stripped of surrounding double quotes; a later
 * line with the same key overwrites the earlier value; a process that exits
 * with a non-zero status makes the whole fetch return an empty result.
 *
 * The result is a Python dict, whose iteration order (the order in which keys
 * were first inserted) the probe loop depends on, so it is modelled as an
 * association list that `Put` updates the way `d[k] = v` does.
 */
module Snmp {
  import opened Wrappers
  import opened Text
  import opened Numbers

  /** A `dict[str, str]`: its items in iteration order. */
  type Entries = seq<(string, string)>

  predicate UniqueKeys(e: Entries) {
    forall i, j :: 0 <= i < j < |e| ==> e[i].0 != e[j].0
  }

  /** `d.get(k)`. */
  function Lookup(e: Entries, k: string): Option<string> {
    if |e| == 0 then None
    else if e[0].0 == k then Some(e[0].1)
    else Lookup(e[1..], k)
  }

  /** `d[k] = v`: an existing key keeps its place and takes the new value, a new key goes last. */
  function Put(e: Entries, k: string, v: string): (r: Entries)
    ensures |r| == |e| || |r| == |e| + 1
    ensures forall i :: 0 <= i < |e| ==> r[i].0 == e[i].0
    ensures |r| == |e| + 1 ==> r[|e|] == (k, v)
    ensures forall i :: 0 <= i < |r| ==> r[i] == (k, v) || (i < |e| && r[i] == e[i])
  {
    if |e| == 0 then [(k, v)]
    else if e[0].0 == k then [(k, v)] + e[1..]
    else [e[0]] + Put(e[1..], k, v)
  }

  /** After `d[k] = v`, `d.get(k)` is `v` and every other key reads as before. */
  lemma {:induction false} PutLookup(e: Entries, k: string, v: string, k': string)
    ensures Lookup(Put(e, k, v), k') == if k' == k then Some(v) else Lookup(e, k')
  {
    if |e| > 0 && e[0].0 != k {
      PutLookup(e[1..], k, v, k');
    }
  }

  /** `d[k] = v` adds an item exactly when `k` was absent, and keeps the keys distinct. */
  lemma {:induction false} PutShape(e: Entries, k: string, v: string)
    ensures |Put(e, k, v)| == if Lookup(e, k).None? then |e| + 1 else |e|
    ensures UniqueKeys(e) ==> UniqueKeys(Put(e, k, v))
  {
    if |e| > 0 && e[0].0 != k {
      PutShape(e[1..], k, v);
      LookupAbsent(e[1..], k);
      LookupAbsent(e, k);
      var r := Put(e, k, v);
      assert r == [e[0]] + Put(e[1..], k, v);
      if UniqueKeys(e) {
        assert UniqueKeys(e[1..]);
        forall i, j | 0 <= i < j < |r| ensures r[i].0 != r[j].0 {
          if i == 0 && j - 1 < |e| - 1 {
            assert r[j].0 == e[1..][j - 1].0 == e[j].0;
          }
        }
      }
    }
  }

  lemma {:induction false} LookupAbsent(e: Entries, k: string)
    ensures Lookup(e, k).None? <==> forall i :: 0 <= i < |e| ==> e[i].0 != k
  {
    if |e| > 0 {
      LookupAbsent(e[1..], k);
      assert forall i :: 1 <= i < |e| ==> e[i] == e[1..][i - 1];
    }
  }

  // ---------------------------------------------------------------- one line, one batch

  /** One line of `snmpbulkget -Oqs` output: the first space-separated token and the rest with its quotes stripped. */
  function ParseLine(line: string): (kv: (string, string)) {
    var (key, rest) := SplitFirstSpace(line);
    (key, StripQuotes(rest))
  }

  /** The key is the text before the first space, and the value is what follows it with its quotes stripped. */
  lemma ParseLineMeaning(line: string)
    ensures var (key, value) := ParseLine(line);
      ' ' !in key &&
      (if ' ' in line then exists rest :: line == key + " " + rest && value == StripQuotes(rest)
       else key == line && value == "")
  {
    SplitFirstSpaceReassembles(line);
  }

  /** Every line stored in turn, as the inner loop of `fetch_snmp` does. */
  function AddLines(acc: Entries, lines: seq<string>): Entries
    decreases |lines|
  {
    if |lines| == 0 then acc
    else
      var kv := ParseLine(lines[0]);
      AddLines(Put(acc, kv.0, kv.1), lines[1..])
  }

  /** The output of one `snmpbulkget` process. */
  datatype ProcessRun = ProcessRun(exitCode: int, stdout: string)

  /** The batches in order from `acc`; `None` as soon as one exits with a non-zero status. */
  function Collect(acc: Entries, runs: seq<ProcessRun>): Option<Entries>
    decreases |runs|
  {
    if |runs| == 0 then Some(acc)
    else if runs[0].exitCode != 0 then None
    else Collect(AddLines(acc, SplitLines(runs[0].stdout)), runs[1..])
  }

  /** What `fetch_snmp` returns for the given process runs, one per OID batch. */
  function BulkGet(runs: seq<ProcessRun>): Entries {
    Collect([], runs).GetOr([])
  }

  /** `fetch_snmp` itself: the nested loop over batches and output lines. */
  method FetchSnmp(runs: seq<ProcessRun>) returns (data: Entries)
    ensures data == BulkGet(runs)
  {
    data := [];
    var i := 0;
    while i < |runs|
      invariant 0 <= i <= |runs|
      invariant Collect([], runs) == Collect(data, runs[i..])
    {
      if runs[i].exitCode != 0 {
        return [];
      }
      var lines := SplitLines(runs[i].stdout);
      ghost var before := data;
      var j := 0;
      while j < |lines|
        invariant 0 <= j <= |lines|
        invariant AddLines(before, lines) == AddLines(data, lines[j..])
      {
        var (key, value) := ParseLine(lines[j]);
        data := Put(data, key, value);
        assert lines[j..][1..] == lines[j + 1..];
        j := j + 1;
      }
      assert runs[i..][1..] == runs[i + 1..];
      i := i + 1;
    }
  }

  // ---------------------------------------------------------------- properties

  /** A non-zero exit on any batch empties the result, whatever earlier batches produced. */
  lemma {:induction false} CollectFailsOnNonZeroExit(acc: Entries, runs: seq<ProcessRun>)
    ensures Collect(acc, runs).None? <==> exists i :: 0 <= i < |runs| && runs[i].exitCode != 0
    decreases |runs|
  {
    if |runs| > 0 && runs[0].exitCode == 0 {
      CollectFailsOnNonZeroExit(AddLines(acc, SplitLines(runs[0].stdout)), runs[1..]);
      assert forall i :: 1 <= i < |runs| ==> runs[i] == runs[1..][i - 1];
    }
  }

  lemma FailedBatchDiscardsAll(runs: seq<ProcessRun>, i: nat)
    requires i < |runs| && runs[i].exitCode != 0
    ensures BulkGet(runs) == []
  {
    CollectFailsOnNonZeroExit([], runs);
  }

  /** The value of the last line whose key is `k`. */
  function LastValue(lines: seq<string>, k: string): Option<string> {
    if |lines| == 0 then None
    else if ParseLine(lines[|lines| - 1]).0 == k then Some(ParseLine(lines[|lines| - 1]).1)
    else LastValue(lines[..|lines| - 1], k)
  }

  lemma {:induction false} AddLinesAppend(acc: Entries, a: seq<string>, b: seq<string>)
    ensures AddLines(acc, a + b) == AddLines(AddLines(acc, a), b)
    decreases |a|
  {
    if |a| == 0 {
      assert a + b == b;
    } else {
      assert (a + b)[0] == a[0];
      assert (a + b)[1..] == a[1..] + b;
      var kv := ParseLine(a[0]);
      AddLinesAppend(Put(acc, kv.0, kv.1), a[1..], b);
    }
  }

  /** Later lines overwrite earlier ones: a key holds the value of its last line, or its earlier value. */
  lemma {:induction false} LastLineWins(acc: Entries, lines: seq<string>, k: string)
    ensures Lookup(AddLines(acc, lines), k) == if LastValue(lines, k).Some? then LastValue(lines, k) else Lookup(acc, k)
    decreases |lines|
  {
    if |lines| > 0 {
      var n := |lines| - 1;
      assert lines == lines[..n] + [lines[n]];
      AddLinesAppend(acc, lines[..n], [lines[n]]);
      LastLineWins(acc, lines[..n], k);
      var kv := ParseLine(lines[n]);
      assert AddLines(AddLines(acc, lines[..n]), [lines[n]]) == Put(AddLines(acc, lines[..n]), kv.0, kv.1);
      PutLookup(AddLines(acc, lines[..n]), kv.0, kv.1, k);
    }
  }

  /** Every output line of every batch, in order. */
  function AllLines(runs: seq<ProcessRun>): seq<string> {
    if |runs| == 0 then [] else SplitLines(runs[0].stdout) + AllLines(runs[1..])
  }

  lemma {:induction false} CollectIsAddLines(acc: Entries, runs: seq<ProcessRun>)
    requires forall i :: 0 <= i < |runs| ==> runs[i].exitCode == 0
    ensures Collect(acc, runs) == Some(AddLines(acc, AllLines(runs)))
    decreases |runs|
  {
    if |runs| > 0 {
      assert forall i :: 0 <= i < |runs[1..]| ==> runs[1..][i] == runs[i + 1];
      CollectIsAddLines(AddLines(acc, SplitLines(runs[0].stdout)), runs[1..]);
      AddLinesAppend(acc, SplitLines(runs[0].stdout), AllLines(runs[1..]));
    }
  }

  /** When every batch succeeds, each key holds the value of the last output line, over all batches, that names it. */
  lemma BulkGetLookup(runs: seq<ProcessRun>, k: string)
    requires forall i :: 0 <= i < |runs| ==> runs[i].exitCode == 0
    ensures Lookup(BulkGet(runs), k) == LastValue(AllLines(runs), k)
  {
    CollectIsAddLines([], runs);
    LastLineWins([], AllLines(runs), k);
  }

  /** A value that neither starts nor ends with a double quote. */
  predicate UnquotedValue(v: string) {
    |v| == 0 || (v[0] != '"' && v[|v| - 1] != '"')
  }

  /** No value starts or ends with a double quote. */
  predicate Unquoted(e: Entries) {
    forall i :: 0 <= i < |e| ==> UnquotedValue(e[i].1)
  }

  lemma {:induction false} AddLinesWellFormed(acc: Entries, lines: seq<string>)
    requires UniqueKeys(acc) && Unquoted(acc)
    ensures UniqueKeys(AddLines(acc, lines)) && Unquoted(AddLines(acc, lines))
    decreases |lines|
  {
    if |lines| > 0 {
      var kv := ParseLine(lines[0]);
      StripQuotesEnds(SplitFirstSpace(lines[0]).1);
      PutShape(acc, kv.0, kv.1);
      AddLinesWellFormed(Put(acc, kv.0, kv.1), lines[1..]);
    }
  }

  /** The result is a dict (no key twice) whose values carry no surrounding quotes. */
  lemma BulkGetWellFormed(runs: seq<ProcessRun>)
    ensures UniqueKeys(BulkGet(runs)) && Unquoted(BulkGet(runs))
  {
    if forall i :: 0 <= i < |runs| ==> runs[i].exitCode == 0 {
      CollectIsAddLines([], runs);
      AddLinesWellFormed([], AllLines(runs));
    } else {
      CollectFailsOnNonZeroExit([], runs);
    }
  }

  /** A quoted value, as `snmpbulkget` prints strings, is stored without its quotes, inner spaces kept. */
  lemma ParseQuotedLine(key: string, value: string)
    requires ' ' !in key
    requires |value| > 0 && value[0] != '"' && value[|value| - 1] != '"'
    ensures ParseLine(key + " " + ("\"" + value + "\"")) == (key, value)
  {
    var quoted := "\"" + value + "\"";
    SplitFirstSpaceOf(key, quoted);
    assert quoted[1..] == value + "\"";
    assert DropWhile(quoted, IsQuote) == value + "\"";
    assert (value + "\"")[..|value|] == value;
    assert DropWhileEnd(value + "\"", IsQuote) == value;
  }

  lemma ParsePlainLine(k: char, v: char)
    requires k != ' ' && v != ' ' && v != '"'
    ensures ParseLine([k, ' ', v]) == ([k], [v])
  {
    assert Join(" ", [[k], [v]]) == [k, ' ', v];
    SplitJoin([[k], [v]], ' ');
  }

  lemma ExampleLines()
    ensures SplitLines("a \"x y\"\nb 1\na 2\n") == ["a \"x y\"", "b 1", "a 2"]
  {
    var lines := ["a \"x y\"", "b 1", "a 2"];
    assert SingleLine(lines[0]) && SingleLine(lines[1]) && SingleLine(lines[2]);
    assert lines[1..] == ["b 1", "a 2"] && lines[1..][1..] == ["a 2"] && lines[1..][1..][1..] == [];
    assert Unlines(lines) == "a \"x y\"\nb 1\na 2\n";
    SplitLinesUnlines(lines);
  }

  /** A repeated key keeps the position of its first line and takes the value of its last. */
  lemma RepeatedKeyKeepsPosition(l0: string, l1: string, l2: string)
    requires ParseLine(l0).0 == ParseLine(l2).0 != ParseLine(l1).0
    ensures AddLines([], [l0, l1, l2]) == [(ParseLine(l0).0, ParseLine(l2).1), ParseLine(l1)]
  {
    var p0, p1, p2 := ParseLine(l0), ParseLine(l1), ParseLine(l2);
    var e1 := Put([], p0.0, p0.1);
    var e2 := Put(e1, p1.0, p1.1);
    var e3 := Put(e2, p2.0, p2.1);
    assert e1 == [p0];
    assert e1[1..] == [];
    assert e2 == [p0] + Put([], p1.0, p1.1) == [p0, p1];
    assert e2[1..] == [p1];
    assert e3 == [(p0.0, p2.1), p1];
    assert AddLines(e3, []) == e3;
    assert AddLines(e2, [l2]) == e3;
    assert AddLines(e1, [l1, l2]) == e3 by { assert [l1, l2][1..] == [l2]; }
    assert AddLines([], [l0, l1, l2]) == e3 by { assert [l0, l1, l2][1..] == [l1, l2]; }
  }

  /** A single successful batch yields exactly its lines, added in order. */
  lemma OneBatch(out: string)
    ensures BulkGet([ProcessRun(0, out)]) == AddLines([], SplitLines(out))
  {
    var runs := [ProcessRun(0, out)];
    assert runs[1..] == [];
    var acc := AddLines([], SplitLines(out));
    assert Collect([], runs) == Collect(acc, runs[1..]) == Some(acc);
  }

  lemma ExampleParsedLines()
    ensures ParseLine("a \"x y\"") == ("a", "x y")
    ensures ParseLine("b 1") == ("b", "1")
    ensures ParseLine("a 2") == ("a", "2")
  {
    assert "a" + " " + ("\"" + "x y" + "\"") == "a \"x y\"";
    ParseQuotedLine("a", "x y");
    ParsePlainLine('b', '1');
    ParsePlainLine('a', '2');
  }

  /** The three example lines stored in turn: the repeated key `a` stays first and ends with `2`. */
  lemma ExampleAddLines(l0: string, l1: string, l2: string)
    requires ParseLine(l0) == ("a", "x y") && ParseLine(l1) == ("b", "1") && ParseLine(l2) == ("a", "2")
    ensures AddLines([], [l0, l1, l2]) == [("a", "2"), ("b", "1")]
  {
    RepeatedKeyKeepsPosition(l0, l1, l2);
  }

  /** Quotes are stripped, and a repeated key keeps its first position but takes its last value. */
  lemma OverwriteExample()
    ensures BulkGet([ProcessRun(0, "a \"x y\"\nb 1\na 2\n")]) == [("a", "2"), ("b", "1")]
  {
    ExampleParsedLines();
    ExampleAddLines("a \"x y\"", "b 1", "a 2");
    ExampleLines();
    OneBatch("a \"x y\"\nb 1\na 2\n");
  }

  // ---------------------------------------------------------------- the command line

  /** `timeout or self.fetch_timeout`: a missing or zero timeout falls back to the global default. */
  function EffectiveTimeout(timeout: Option<int>, defaultTimeout: int): int {
    if timeout.Some? && timeout.value != 0 then timeout.value else defaultTimeout
  }

  /** The authentication arguments: a community for `v2c`, a user and password with `-v3` for any other version. */
  function AuthArgs(version: string, community: string, username: string, password: string): (auth: seq<string>)
  {
    if version == "v2c" then ["-v2c", "-c", community] else ["-v3", "-u", username, "-A", password]
  }

  /** The `snmpbulkget` argument list built before the batches are run; the SNMP port is not among its inputs' uses. */
  function SnmpArgs(ip: string, version: string, community: string, username: string, password: string,
                    port: Option<int>, timeout: Option<int>, defaultTimeout: int): (args: seq<string>)
    ensures var auth := AuthArgs(version, community, username, password);
      && |args| == |auth| + 9 && args[0] == "snmpbulkget" && args[1..|auth| + 1] == auth
      && args[|auth| + 1] == "-t" && args[|auth| + 2] == ShowInt(EffectiveTimeout(timeout, defaultTimeout))
      && args[|auth| + 3..|auth| + 8] == ["-r", "0", "-m", "./powernet.mib", "-Oqs"]
      && args[|auth| + 8] == ip
  {
    var seconds := ShowInt(EffectiveTimeout(timeout, defaultTimeout));
    ["snmpbulkget"] + AuthArgs(version, community, username, password)
    + ["-t", seconds, "-r", "0", "-m", "./powernet.mib", "-Oqs", ip]
  }

  /** The command of one batch: the arguments followed by the batch's white-space separated OIDs. */
  function BatchCommand(args: seq<string>, batch: string): (cmd: seq<string>)
    ensures |cmd| == |args| + |Words(batch)| && cmd[..|args|] == args
    ensures forall i :: |args| <= i < |cmd| ==> |cmd[i]| > 0 && forall k :: 0 <= k < |cmd[i]| ==> !IsSpace(cmd[i][k])
  {
    args + Words(batch)
  }

  /** The command line determines the address, the timeout and the credentials of the version family. */
  lemma ArgsDetermineInputs(ip: string, version: string, community: string, username: string, password: string,
                            port: Option<int>, timeout: Option<int>, defaultTimeout: int,
                            ip': string, version': string, community': string, username': string, password': string,
                            port': Option<int>, timeout': Option<int>, defaultTimeout': int)
    requires SnmpArgs(ip, version, community, username, password, port, timeout, defaultTimeout)
          == SnmpArgs(ip', version', community', username', password', port', timeout', defaultTimeout')
    ensures ip == ip'
    ensures EffectiveTimeout(timeout, defaultTimeout) == EffectiveTimeout(timeout', defaultTimeout')
    ensures version == "v2c" <==> version' == "v2c"
    ensures version == "v2c" ==> community == community'
    ensures version != "v2c" ==> username == username' && password == password'
  {
    var args := SnmpArgs(ip, version, community, username, password, port, timeout, defaultTimeout);
    var auth := AuthArgs(version, community, username, password);
    var auth' := AuthArgs(version', community', username', password');
    assert |auth| == |auth'|;
    assert args[1..|auth| + 1] == auth == auth';
    assert auth[0] == auth'[0];
    var t, t' := EffectiveTimeout(timeout, defaultTimeout), EffectiveTimeout(timeout', defaultTimeout');
    assert ShowInt(t) == ShowInt(t');
    ParseShowInt(t);
    ParseShowInt(t');
  }

  /** One batch's command: the fixed arguments with the address last, then exactly the batch's OIDs as separate words. */
  lemma BatchCommandShape(ip: string, version: string, community: string, username: string, password: string,
                          port: Option<int>, timeout: Option<int>, defaultTimeout: int, batch: string)
    ensures var args := SnmpArgs(ip, version, community, username, password, port, timeout, defaultTimeout);
      var cmd := BatchCommand(args, batch);
      && cmd[0] == "snmpbulkget" && cmd[|args| - 1] == ip
      && cmd[|args|..] == Words(batch)
      && (forall w :: w in cmd[|args|..] ==> w != "" && forall k :: 0 <= k < |w| ==> !IsSpace(w[k]))
  {
    var args := SnmpArgs(ip, version, community, username, password, port, timeout, defaultTimeout);
    assert BatchCommand(args, batch)[|args|..] == Words(batch);
  }

  /** The configured SNMP port never reaches the command line. */
  lemma ArgsIgnorePort(ip: string, version: string, community: string, username: string, password: string,
                       p1: Option<int>, p2: Option<int>, timeout: Option<int>, defaultTimeout: int)
    ensures SnmpArgs(ip, version, community, username, password, p1, timeout, defaultTimeout)
         == SnmpArgs(ip, version, community, username, password, p2, timeout, defaultTimeout)
  {
  }
}
