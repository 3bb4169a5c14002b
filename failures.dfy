/**
 * The exceptions that can escape one poll cycle of `APC.fetch_ups`.  The
 * catch-all `except Exception` around the cycle swallows every one of them and
 * nothing is enqueued, so the model keeps the cause explicit instead.
 */
module Failures {
  import opened Wrappers
  import opened Numbers

  datatype Failure =
    | NotAnInteger(text: string)      // int() raised ValueError
    | NotANumber(text: string)        // float() raised ValueError
    | NotFourFields(text: string)     // a duration did not unpack into four ':' fields
    | ProbeBeforeLabel(probeId: string) // KeyError: a probe reading came before its SensorName record
    | PageRequestRaised               // the aiohttp GET of the probe status page raised

  /** `int(s)` inside the cycle: its `ValueError` becomes the cycle's failure. */
  function Int(s: string): (r: Result<int, Failure>)
    ensures r.Ok? <==> ParseInt(s).Some?
    ensures r.Ok? ==> r.value == ParseInt(s).value
    ensures r.Err? ==> r.error == NotAnInteger(s)
    ensures forall n: int :: s == ShowInt(n) ==> r == Ok(n)
  {
    ShownIntegersParse();
    match ParseInt(s)
    case Some(n) => Ok(n)
    case None => Err(NotAnInteger(s))
  }

  /** `float(s)` inside the cycle. */
  function Float(s: string): (r: Result<real, Failure>)
    ensures r.Ok? <==> ParseFloat(s).Some?
    ensures r.Ok? ==> r.value == ParseFloat(s).value
    ensures r.Err? ==> r.error == NotANumber(s)
    ensures forall n: int :: s == ShowInt(n) ==> r == Ok(n as real)
    ensures Int(s).Ok? ==> r == Ok(Int(s).value as real)
    ensures s == "" ==> r == Err(NotANumber(""))
  {
    ShownIntegersParse();
    FloatWhereInt(s);
    ParseFloatEmpty();
    match ParseFloat(s)
    case Some(x) => Ok(x)
    case None => Err(NotANumber(s))
  }

  lemma IntOfShowInt(n: int)
    ensures Int(ShowInt(n)) == Ok(n)
  {
    ParseShowInt(n);
  }

  lemma FloatOfShowInt(n: int)
    ensures Float(ShowInt(n)) == Ok(n as real)
  {
    ParseFloatShowInt(n);
  }
}
