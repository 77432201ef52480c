/**
 * What `makeRequest` sees of the network, the bounded-retry policy it follows,
 * and how the three callers judge the response they get back.
 *
 * One HTTP attempt (`http.begin`, the verb call, `getString`, `http.end`) is
 * replaced by its outcome, taken from an oracle indexed by attempt number;
 * `deserializeJson` is replaced by a function from the response text to an
 * already structured document.
 */
module Transport {
  import opened Optional

  /** The outcome of one attempt: `http.begin` refused, or a status code and the body `getString` would return. */
  datatype Attempt = BeginFailed | Responded(code: int, body: string)

  /** `isConnected()` at the time of the call, and the outcome of attempt 0, 1, 2, ... */
  datatype Network = Network(connected: bool, attempt: nat -> Attempt)

  /** The retry count every caller passes, which is also the declared default. */
  const DefaultRetries: int := 1

  /** An attempt that ends the loop: a 2xx status with a non-empty body. */
  predicate Delivered(a: Attempt)
  {
    a.Responded? && 200 <= a.code < 300 && |a.body| > 0
  }

  /** Attempts made when none delivers: `attempts` runs from 0 while `attempts <= retries`. */
  function MaxAttempts(retries: int): nat
  {
    if retries < 0 then 0 else retries + 1
  }

  /** The first attempt numbered `from`..`retries` that delivers. */
  function FirstDelivered(attempt: nat -> Attempt, from: nat, retries: int): (k: Option<nat>)
    ensures k.Some? ==> from <= k.value <= retries && Delivered(attempt(k.value))
    ensures k.Some? ==> forall j :: from <= j < k.value ==> !Delivered(attempt(j))
    ensures k.None? ==> forall j :: from <= j <= retries ==> !Delivered(attempt(j))
    decreases retries + 1 - from
  {
    if from > retries then None
    else if Delivered(attempt(from)) then Some(from)
    else FirstDelivered(attempt, from + 1, retries)
  }

  /** The text `makeRequest(…, retries)` returns. */
  function Response(net: Network, retries: int): (res: string)
    ensures !net.connected ==> res == ""
    ensures res != "" <==> net.connected && exists k :: 0 <= k <= retries && Delivered(net.attempt(k))
  {
    if !net.connected then ""
    else match FirstDelivered(net.attempt, 0, retries)
      case None => ""
      case Some(k) => net.attempt(k).body
  }

  /** How many transport attempts `makeRequest(…, retries)` makes. */
  function AttemptsMade(net: Network, retries: int): (n: nat)
    ensures n <= MaxAttempts(retries)
    ensures !net.connected ==> n == 0
    ensures net.connected && Response(net, retries) == "" ==> n == MaxAttempts(retries)
  {
    if !net.connected then 0
    else match FirstDelivered(net.attempt, 0, retries)
      case None => MaxAttempts(retries)
      case Some(k) => k + 1
  }

  /** The pause after failed attempt number `k`: 100 ms after a refused `begin`, 100 ms times the new attempt count otherwise. */
  function Backoff(a: Attempt, k: nat): nat
  {
    if a.BeginFailed? then 100 else 100 * (k + 1)
  }

  /** A default request that never gets a 2xx body makes exactly two attempts. */
  lemma DefaultRetryBound(net: Network)
    requires net.connected
    requires forall k: nat :: !Delivered(net.attempt(k))
    ensures Response(net, DefaultRetries) == ""
    ensures AttemptsMade(net, DefaultRetries) == 2
  {
  }

  /** Bodies that come with a status outside 2xx never reach the caller. */
  lemma NonSuccessBodiesIgnored(net: Network, retries: int)
    requires forall k: nat :: net.attempt(k).Responded? ==> !(200 <= net.attempt(k).code < 300)
    ensures Response(net, retries) == ""
  {
  }

  /** Whatever text a request returns is the body of an attempt in range that came with a 2xx status. */
  lemma ReturnedBodyIsSuccess(net: Network, retries: int)
    requires Response(net, retries) != ""
    ensures exists k: nat ::
              k <= retries && net.attempt(k).Responded? &&
              200 <= net.attempt(k).code < 300 && net.attempt(k).body == Response(net, retries)
  {
    var k := FirstDelivered(net.attempt, 0, retries).value;
    assert net.attempt(k).body == Response(net, retries);
  }

  // ---- The parsed response documents ----

  /** The `success` key of a response: missing, a boolean, or some other JSON value. */
  datatype SuccessField = Absent | Flag(flag: bool) | NotBoolean

  /** One element of the pulled `variables` array, its three members read as text. */
  datatype Entry = Entry(name: string, typeLabel: string, value: string)

  /**
   * A successfully deserialized response. `variables` is None when the key is
   * missing; a key whose value is not an array reads as an empty list.
   */
  datatype Doc = Doc(success: SuccessField, variables: Option<seq<Entry>>)

  /**
   * The outcome of `deserializeJson`. On an error the document keeps what was
   * read before the error (a truncated input, or one that overflows the
   * 256-byte document, may already have produced its `success` member).
   */
  datatype Parse = Parsed(doc: Doc) | Failed(partial: Doc)

  /** `deserializeJson` applied to a response text. */
  type Json = string -> Parse

  /**
   * `if (rd.containsKey("success")) return rd["success"] | dflt; return missing;`:
   * the flag when it is a boolean, `dflt` for another value, `missing` without the key.
   */
  function SuccessOr(f: SuccessField, missing: bool, dflt: bool): bool
  {
    match f
    case Absent => missing
    case Flag(b) => b
    case NotBoolean => dflt
  }

  /**
   * The verdict of `sendHeartbeat` on the response text: false when it is
   * empty or does not parse, true when there is no `success` key, and otherwise
   * the flag (a non-boolean `success` counts as false).
   */
  function HeartbeatVerdict(res: string, json: Json): (ok: bool)
    ensures ok <==> res != "" && json(res).Parsed? &&
                    (json(res).doc.success.Absent? || json(res).doc.success == Flag(true))
  {
    if |res| == 0 then false
    else match json(res)
      case Failed(_) => false
      case Parsed(d) => SuccessOr(d.success, true, false)
  }

  /**
   * The verdict of `sendVariable`, as written. The parse check is inverted
   * (`!deserializeJson(...)` holds when parsing SUCCEEDED), so a parsed
   * response returns true at once, whatever its `success` flag; only a
   * response that FAILS to parse reaches the `success` test, on whatever
   * part of the document was read before the error.
   */
  function VariableVerdict(res: string, json: Json): (ok: bool)
    ensures ok ==> res != ""
    ensures ok <==> res != "" && !(json(res).Failed? && json(res).partial.success == Flag(false))
  {
    if |res| == 0 then false
    else match json(res)
      case Parsed(_) => true
      case Failed(partial) => SuccessOr(partial.success, true, true)
  }

  /** A well-formed `"success": false` fails a heartbeat but not a variable write. */
  lemma VariableVerdictIgnoresFlag(res: string, json: Json)
    requires res != "" && json(res) == Parsed(Doc(Flag(false), None))
    ensures VariableVerdict(res, json)
    ensures !HeartbeatVerdict(res, json)
  {
  }

  /** A `"success": false` read before a parse error does fail a variable write. */
  lemma PartialFalseFailsWrite(res: string, json: Json)
    requires res != "" && json(res) == Failed(Doc(Flag(false), None))
    ensures !VariableVerdict(res, json)
    ensures !HeartbeatVerdict(res, json)
  {
  }

  /** The requests the client issues, each one call of `makeRequest`. */
  datatype Request =
    | HeartbeatRequest                                                 // POST /api/device/heartbeat
    | VariableRequest(name: string, value: string, typeLabel: string)  // POST /api/device/variable
    | VariablesRequest                                                 // GET /api/device/variables

  /**
   * The entries `syncNow` applies: None (and nothing applied) when the
   * response is empty, does not parse, or has no `variables` key.
   */
  function PulledEntries(res: string, json: Json): (es: Option<seq<Entry>>)
    ensures es.Some? <==> res != "" && json(res).Parsed? && json(res).doc.variables.Some?
    ensures es.Some? ==> es == json(res).doc.variables
  {
    if |res| == 0 then None
    else match json(res)
      case Failed(_) => None
      case Parsed(d) => if d.variables.None? then None else d.variables
  }
}
