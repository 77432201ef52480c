# IOTServerClient, modelled in Dafny

This project models the Arduino library `IOTServerClient`. The library keeps
named, typed variables in step between a device and a server over HTTP. It is
one class. The class holds:

- a local cache of `Variable{name, type, value}` records, with values kept as text;
- a registry of change handlers, with one entry per name and four handler
  slots per entry (int, float, bool, string);
- a heartbeat timer (`lastHeartbeat`, `heartbeatInterval`).

Its operations are:

- writes (`virtualWrite`): push a value to the server, then cache it;
- reads (`virtualRead*`): served from the cache only;
- a pull (`syncNow`): fetches the server's variable list and applies it to the cache;
- `loop`: sends a heartbeat and pulls once every interval.

Every request goes through `makeRequest`, which retries a bounded number of times.

Modules, one per concern:

- `ArduinoText` (text.dfy): the parts of the Arduino `String` class the client
  uses: `equalsIgnoreCase`, `String(int)` and `toInt` (as a decimal-prefix
  parse, after `atol`).
- `Search` (search.dfy): the names of a sequence's elements, and the
  first-match search by name that the cache lookup and the registry lookup
  both perform.
- `VarTypes` (var_types.dfy): `VarType`, `Variable`, and the label codec
  `varTypeToString` / `stringToVarType`.
- `Transport` (transport.dfy): the outcome of one HTTP attempt, the retry
  policy as functions, the parsed response document, the three verdicts on
  a response (heartbeat, variable write, pull), and the kinds of request the
  client issues.
- `VariableCache` (variable_cache.dfy): the cache as a sequence, lookup by
  name, the effect of one `updateCache` and of a whole pull.
- `Callbacks` (callbacks.dfy): registry entries with four slots, what
  `processUpdate` invokes, and what `onWrite*` does to the registry.
- `ServerClient` (client.dfy): the class `IOTServerClient`. Its fields are
  updated in place by methods that are proved against the functions above.
- `Scenarios` (scenarios.dfy): concrete pulls that fix how dispatch behaves.

Inputs the code gets from its environment are parameters:

- The network is a `Network`: the value of `isConnected()` and an oracle giving
  the outcome of attempt 0, 1, 2, …. An outcome is either "`http.begin`
  refused" or a status code plus the body `getString` returns.
- `deserializeJson` is a function `json` from the response text to a `Parse`.
  It is either a parsed document, or a failure that carries the partially
  filled document ArduinoJson leaves behind when it stops at an error.
- `millis()` is the argument `now`.
- A handler is an opaque id. Each invocation is appended to the `events` field,
  together with the argument the handler receives.
- Each call of `makeRequest` is appended to the `requests` field as a
  `Request`: a heartbeat, a variable write with its name, value and type label,
  or a pull.

Where the code departs from the documented intent of the library, the model
follows the code:

- `processUpdate` calls the slot that matches the type of the incoming
  update. The type recorded in the registry entry is never consulted
  (`DispatchIgnoresRecordedType`).
- Registering a second kind of handler under the same name does not replace
  the entry. It fills one more slot and keeps the first recorded type
  (`Register`, `SecondKindStillDispatched`).
- `sendVariable` tests `!deserializeJson(...)`, which holds when parsing
  succeeded. A parsed response therefore returns true at once, even one
  carrying `"success": false` (`VariableVerdictIgnoresFlag`). An unparseable
  one goes on to read `success` from the partially filled document, so a
  `"success": false` read before the parse error fails the write
  (`VariableVerdict`, `PartialFalseFailsWrite`).

## Model

| member | source | states |
|---|---|---|
| `ArduinoText.BoolText` | src/IOTServerClient.cpp:227-232 | text whose length is neither 1 nor 4 is false; a one-character text is true iff it is "1" |
| `ArduinoText.BoolTextExamples` | src/IOTServerClient.cpp:227-232 | "TRUE", "True", "tRuE" and "1" read as true; "0", "yes", "on", "false" and "" read as false |
| `ArduinoText.BoolTextRoundTrip` | src/IOTServerClient.cpp:140-145 | the text a boolean write stores ("true"/"false") reads back as the same boolean |
| `ArduinoText.IntTextRoundTrip` | src/IOTServerClient.cpp:126-131 | `toInt` of the decimal text `String(int)` produces is the original 32-bit value, negative values included |
| `ArduinoText.EqualsIgnoreCaseIsEquivalence` | src/IOTServerClient.cpp:41-46 | case-insensitive equality is reflexive, symmetric and transitive |
| `VarTypes.TypeLabel` | src/IOTServerClient.cpp:31-39 | every type is labelled "int", "float", "bool" or "string" |
| `VarTypes.ParseTypeLabel` | src/IOTServerClient.cpp:41-46 | a label parses to int / float iff it equals "int" / "float" ignoring case, to bool iff it equals "bool" or "boolean" ignoring case, and to string for every other label |
| `VarTypes.LabelRoundTrip` | src/IOTServerClient.cpp:31-46 | parsing the label of any of the four types gives back that type |
| `VarTypes.ParseIgnoresCase` | src/IOTServerClient.cpp:41-46 | labels that differ only in letter case parse to the same type |
| `Transport.FirstDelivered` | src/IOTServerClient.cpp:53-86 | the first attempt in range with a 2xx status and a non-empty body, with every earlier attempt failing; none only when every attempt in range fails |
| `Transport.Response` | src/IOTServerClient.cpp:48-88 | the request returns "" when disconnected; otherwise it returns a non-empty text iff some attempt up to `retries` delivers |
| `Transport.AttemptsMade` | src/IOTServerClient.cpp:48-88 | no attempt when disconnected; never more than `retries + 1`; exactly that many when connected and the result is "" |
| `Transport.DefaultRetryBound` | src/IOTServerClient.h:87 | with the default retry count and a network that never delivers, the request returns "" after exactly two attempts |
| `Transport.NonSuccessBodiesIgnored` | src/IOTServerClient.cpp:76-82 | on a network where no attempt gets a 2xx status, the request returns "" whatever bodies arrive |
| `Transport.ReturnedBodyIsSuccess` | src/IOTServerClient.cpp:53-83 | any non-empty text a request returns is the body of an attempt numbered at most `retries` that came with a 2xx status |
| `Transport.HeartbeatVerdict` | src/IOTServerClient.cpp:97-104 | the heartbeat succeeds iff the response is non-empty, parses, and its `success` key is missing or boolean true |
| `Transport.VariableVerdict` | src/IOTServerClient.cpp:116-123 | a variable write succeeds iff the response is non-empty and it is not the case that parsing failed with a partial document whose `success` is boolean false |
| `Transport.VariableVerdictIgnoresFlag` | src/IOTServerClient.cpp:121-122 | a parsed `"success": false` fails a heartbeat but not a variable write |
| `Transport.PartialFalseFailsWrite` | src/IOTServerClient.cpp:121-122 | a `"success": false` in the partial document of a failed parse fails both a heartbeat and a variable write |
| `Transport.PulledEntries` | src/IOTServerClient.cpp:196-205 | a pull yields entries iff the response is non-empty, parses and has a `variables` key, and then they are exactly that list |
| `Search.FirstIndex` | src/IOTServerClient.cpp:153-158 | the result is the first position holding that name, or none when the name does not occur |
| `VariableCache.IndexOf` | src/IOTServerClient.cpp:153-158 | the result is the first position holding that name, or none when no entry has it |
| `VariableCache.Updated` | src/IOTServerClient.cpp:160-171 | an update keeps one entry per name and keeps every name at its position; it leaves every entry of another name unchanged; it appends a new entry only when the name is absent |
| `VariableCache.LookupUpdatedSame` | src/IOTServerClient.cpp:160-171 | after an update, the name reads as exactly the new type and value |
| `VariableCache.LookupUpdatedOther` | src/IOTServerClient.cpp:160-171 | an update does not change what any other name reads as |
| `VariableCache.ApplyEntriesKeepsNames` | src/IOTServerClient.cpp:206-212 | applying a pull keeps one entry per name, removes no entry and keeps existing names at their positions |
| `VariableCache.ApplyLastWins` | src/IOTServerClient.cpp:206-212 | after a pull, a pulled name reads as its last occurrence in the list, and every other name reads as before |
| `Callbacks.Fire` | src/IOTServerClient.cpp:179-190 | a matching entry invokes at most one handler: the slot for the incoming type, if set, with the argument coerced for that type |
| `Callbacks.DispatchAtMostOne` | src/IOTServerClient.cpp:176-193 | with one entry per name, an update invokes only the incoming type's slot on the entry of that name, so at most one handler |
| `Callbacks.DispatchIgnoresRecordedType` | src/IOTServerClient.cpp:176-193 | registries that differ only in their recorded types dispatch identically |
| `Callbacks.MismatchedTypeNotDispatched` | src/IOTServerClient.cpp:180-190 | an update whose type has no set slot on its entry invokes nothing |
| `Callbacks.Register` | src/IOTServerClient.cpp:240-255 | registration keeps one entry per name; an existing entry gets only that kind's slot replaced, with its name, recorded type and other slots kept; a new name is appended with that kind as its recorded type |
| `Callbacks.LastRegistrationWins` | src/IOTServerClient.cpp:240-243 | after registering `h` for a name and kind, an update of that name and type invokes `h` and nothing else |
| `Callbacks.RegisterOtherName` | src/IOTServerClient.cpp:240-255 | registering under one name changes nothing that updates of other names invoke |
| `Callbacks.PullFiresPerEntry` | src/IOTServerClient.cpp:206-212 | when every pulled entry has a set slot for its parsed type on the entry of its name, a pull invokes exactly that slot once per entry, in list order, with the coerced argument, whether or not the value changed; the events never depend on the cache |
| `Scenarios.BoolPullDispatchesOnce` | src/IOTServerClient.cpp:184-187 | a pulled "led"/"bool"/"true" invokes the boolean handler of "led" once, with true |
| `Scenarios.FloatPullSkipsIntHandler` | src/IOTServerClient.cpp:206-212 | a float pulled for a name with only an int handler invokes nothing, yet the cache stores the float |
| `Scenarios.SecondKindStillDispatched` | src/IOTServerClient.cpp:240-247 | a name registered for int and then float keeps recorded type int, yet float updates call the float handler and int updates the int handler |
| `ServerClient.TrimSlash` | src/IOTServerClient.cpp:5 | a URL ending in '/' loses exactly that character; any other URL is kept |
| `ServerClient.TrimSlashOnlyOnce` | src/IOTServerClient.cpp:5 | only one trailing slash is removed |
| `ServerClient.Elapsed` | src/IOTServerClient.cpp:24 | elapsed time is the difference when the clock has not wrapped, and the difference plus 2^32 when it has |
| `ServerClient.IOTServerClient.constructor` | src/IOTServerClient.h:71-72 | a new client has `lastHeartbeat` 0 and interval 30000, an empty cache, registry, event log and request log, and the URL with one trailing '/' removed |
| `ServerClient.IOTServerClient.Begin` | src/IOTServerClient.cpp:8-12 | `begin` returns true and sets only `lastHeartbeat` |
| `ServerClient.IOTServerClient.SetHeartbeatInterval` | src/IOTServerClient.cpp:18-20 | sets only the interval |
| `ServerClient.IOTServerClient.Loop` | src/IOTServerClient.cpp:22-29 | when the wrapped elapsed time reaches the interval, a heartbeat request and then a pull request are issued, the cache and events are those of one pull, and `lastHeartbeat` becomes `now`, whatever the heartbeat's outcome; otherwise no request is issued and nothing changes |
| `ServerClient.IOTServerClient.MakeRequest` | src/IOTServerClient.cpp:48-88 | no attempt when disconnected; at most `retries + 1` attempts; a non-empty result is the body of the last attempt, which delivered, after only failed attempts; "" only after all attempts failed; one recorded pause per failed attempt (100 ms after a refused begin, 100 ms times the attempt count otherwise) |
| `ServerClient.IOTServerClient.SendHeartbeat` | src/IOTServerClient.cpp:90-105 | issues one heartbeat request and returns the heartbeat verdict on the default-retry response, true only for a non-empty response |
| `ServerClient.IOTServerClient.SendVariable` | src/IOTServerClient.cpp:107-124 | issues one write request carrying the name, value and type label, and returns the write verdict on the default-retry response, true only for a non-empty response |
| `ServerClient.IOTServerClient.FindInCache` | src/IOTServerClient.cpp:153-158 | returns the first position holding the name, or none when no entry has it |
| `ServerClient.IOTServerClient.UpdateCache` | src/IOTServerClient.cpp:160-174 | the cache becomes the updated cache, names stay unique, and exactly one dispatch of the same name, value and type is appended to the events |
| `ServerClient.IOTServerClient.ProcessUpdate` | src/IOTServerClient.cpp:176-193 | appends exactly the invocations of the dispatch for that update and changes nothing else |
| `ServerClient.IOTServerClient.SyncNow` | src/IOTServerClient.cpp:195-214 | issues one pull request; fails with cache and events untouched unless the response yields entries; otherwise applies every entry in order through the cache update and appends one dispatch per entry |
| `ServerClient.IOTServerClient.ApplyPulled` | src/IOTServerClient.cpp:206-212 | the loop over the pulled array leaves the cache as the entries applied in order and appends one dispatch per entry, keeping names unique |
| `ServerClient.IOTServerClient.VirtualWriteInt` | src/IOTServerClient.cpp:126-131 | issues one write request and succeeds iff the write verdict holds; on success caches and dispatches the decimal text, and the int read returns the written value; on failure nothing changes |
| `ServerClient.IOTServerClient.VirtualWriteFloat` | src/IOTServerClient.cpp:133-138 | issues one write request and succeeds iff the write verdict holds; on success the name reads as the formatted text typed float; on failure nothing changes |
| `ServerClient.IOTServerClient.VirtualWriteBool` | src/IOTServerClient.cpp:140-145 | issues one write request and succeeds iff the write verdict holds; on success caches "true"/"false" and the bool read returns the written value; on failure nothing changes |
| `ServerClient.IOTServerClient.VirtualWriteString` | src/IOTServerClient.cpp:147-151 | issues one write request and succeeds iff the write verdict holds; on success the string read returns the written text verbatim; on failure nothing changes |
| `ServerClient.IOTServerClient.VirtualReadInt` | src/IOTServerClient.cpp:217-221 | reads `toInt` of the entry with that name, or 0 when there is none |
| `ServerClient.IOTServerClient.VirtualReadBool` | src/IOTServerClient.cpp:227-232 | reads the boolean coercion of the entry with that name, or false when there is none |
| `ServerClient.IOTServerClient.VirtualReadString` | src/IOTServerClient.cpp:233-237 | reads the text of the entry with that name verbatim, or "" when there is none |
| `ServerClient.IOTServerClient.OnWrite` | src/IOTServerClient.cpp:240-255 | the registry becomes the registered registry, keeping one entry per name; `kind` selects among `onWriteInt`, `onWriteFloat`, `onWriteBool` and `onWriteString` |

## Left out

- `isConnected` / `WiFi.status()`: becomes the `connected` field of the `Network` argument, read once per request.
- The HTTP calls (`http.begin`, `GET`/`POST`/`PUT`/`sendRequest`, `getString`, `end`) and `WiFiClient`: each attempt is an outcome drawn from the oracle.
- The URL, the HTTP verb, the headers and the device key are not modelled, because the oracle does not depend on them. A request is recorded by its kind, and a write also by its name, value and type label; the heartbeat payload (status and timestamp) is not modelled.
- `delay`: the pauses are returned by `MakeRequest` as numbers and are not executed. `millis()` is the argument `now` of `Loop` and `Begin`.
- JSON text, `serializeJson` and `deserializeJson`: a response is parsed by the `json` argument into a parsed document or a failure with a partial document. Which keys a partial document holds is left to that argument. A `variables` value that is not an array is taken to parse as an empty list. A missing `name`/`type`/`value` member reads as whatever text the parser gives.
- Floating point: `String(value, 6)`, `toFloat` and `virtualReadFloat` are not modelled. A float write takes its already formatted text, and a float handler's argument is the text `toFloat` would convert.
- VirtualReadInt: the width of `long` in `toInt` and the conversion to `int` are not modelled; the parsed value is unbounded.
- OnWrite: an empty `std::function` passed as a handler is not modelled; every registration sets its slot.
- The bodies of user handlers are not modelled: an invocation is only recorded, as an event.
