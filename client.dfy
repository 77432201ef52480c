/**
 * The client object (`IOTServerClient`): its fields, updated in place, and
 * the operations that read and change them. The network, the JSON parser and
 * the clock are parameters; a handler invocation is appended to `events`.
 */
module ServerClient {
  import opened Optional
  import opened ArduinoText
  import opened VarTypes
  import opened Transport
  import opened VariableCache
  import opened Callbacks

  /** `unsigned long` on the target: 32 bits. */
  newtype uint32 = x: int | 0 <= x < 0x1_0000_0000

  /** The declared initial heartbeat interval, in milliseconds. */
  const DefaultHeartbeatInterval: uint32 := 30000

  /** The constructor's URL clean-up: one trailing '/' is removed, and only one. */
  function TrimSlash(url: string): (r: string)
    ensures |url| > 0 && url[|url| - 1] == '/' ==> r + "/" == url
    ensures !(|url| > 0 && url[|url| - 1] == '/') ==> r == url
  {
    if |url| > 0 && url[|url| - 1] == '/' then url[..|url| - 1] else url
  }

  lemma TrimSlashOnlyOnce(base: string)
    ensures TrimSlash(base + "//") == base + "/"
  {
  }

  /**
   * `now - lastHeartbeat` on `unsigned long`: the difference modulo 2^32, so
   * a clock that wrapped past zero since `last` still reads as time elapsed.
   */
  function Elapsed(last: uint32, now: uint32): (ms: uint32)
    ensures now >= last ==> ms as int == now as int - last as int
    ensures now < last ==> ms as int == now as int - last as int + 0x1_0000_0000
  {
    ((now as int - last as int) % 0x1_0000_0000) as uint32
  }

  /** Extending the applied prefix of a pull by one entry is one more update and one more dispatch. */
  lemma PullPrefixStep(c: seq<Variable>, log: seq<Event>, cbs: seq<CallbackEntry>, arr: seq<Entry>, i: nat)
    requires i < |arr|
    ensures var e, t := arr[i], ParseTypeLabel(arr[i].typeLabel);
      ApplyEntries(c, arr[..i + 1]) == Updated(ApplyEntries(c, arr[..i]), e.name, t, e.value) &&
      log + PullEvents(cbs, arr[..i + 1]) == (log + PullEvents(cbs, arr[..i])) + Dispatch(cbs, e.name, e.value, t)
  {
    assert arr[..i + 1][..i] == arr[..i];
  }

  class IOTServerClient {
    const deviceKey: string
    const serverUrl: string

    var lastHeartbeat: uint32
    var heartbeatInterval: uint32

    /** The local cache, one entry per name. */
    var cache: seq<Variable>
    /** The callback registry, one entry per name. */
    var callbacks: seq<CallbackEntry>
    /** Every handler invocation so far, oldest first. */
    var events: seq<Event>
    /** Every request issued so far (one per `makeRequest` call), oldest first. */
    var requests: seq<Request>

    ghost predicate Valid()
      reads this
    {
      UniqueNames(cache) && UniqueEntryNames(callbacks)
    }

    constructor (key: string, url: string)
      ensures Valid()
      ensures deviceKey == key && serverUrl == TrimSlash(url)
      ensures lastHeartbeat == 0 && heartbeatInterval == DefaultHeartbeatInterval
      ensures cache == [] && callbacks == [] && events == [] && requests == []
    {
      deviceKey := key;
      serverUrl := TrimSlash(url);
      lastHeartbeat := 0;
      heartbeatInterval := DefaultHeartbeatInterval;
      cache := [];
      callbacks := [];
      events := [];
      requests := [];
    }

    /** `begin`: restarts the heartbeat timer at `now` (the value of `millis()`). */
    method Begin(now: uint32) returns (ok: bool)
      modifies this`lastHeartbeat
      ensures ok && lastHeartbeat == now
    {
      lastHeartbeat := now;
      ok := true;
    }

    method SetHeartbeatInterval(ms: uint32)
      modifies this`heartbeatInterval
      ensures heartbeatInterval == ms
    {
      heartbeatInterval := ms;
    }

    /**
     * `loop`, called with `now` = `millis()`. When at least the interval has
     * passed (with wrap-around), it sends a heartbeat, then pulls, then moves
     * the timer to `now`, whatever the heartbeat's verdict; otherwise it does
     * nothing. Cache and handler calls depend on the pull alone.
     */
    method Loop(now: uint32, heartbeatNet: Network, syncNet: Network, json: Json)
      requires Valid()
      modifies this`lastHeartbeat, this`cache, this`events, this`requests
      ensures Valid()
      ensures var due := Elapsed(old(lastHeartbeat), now) >= heartbeatInterval;
        var pulled := PulledEntries(Response(syncNet, DefaultRetries), json);
        if due then
          lastHeartbeat == now &&
          requests == old(requests) + [HeartbeatRequest, VariablesRequest] &&
          cache == (if pulled.Some? then ApplyEntries(old(cache), pulled.value) else old(cache)) &&
          events == old(events) + (if pulled.Some? then PullEvents(callbacks, pulled.value) else [])
        else
          lastHeartbeat == old(lastHeartbeat) && cache == old(cache) && events == old(events) &&
          requests == old(requests)
    {
      if Elapsed(lastHeartbeat, now) >= heartbeatInterval {
        var _ := SendHeartbeat(heartbeatNet, json);
        var _ := SyncNow(syncNet, json);
        lastHeartbeat := now;
      }
    }

    /**
     * `makeRequest`: nothing is attempted when disconnected; otherwise at most
     * `retries + 1` attempts, returning the body of the first 2xx response
     * whose body is non-empty, or "" once every attempt has failed. Also
     * returns the number of attempts made and the pauses taken after failures.
     */
    method MakeRequest(net: Network, retries: int) returns (response: string, tries: nat, waits: seq<nat>)
      ensures response == Response(net, retries) && tries == AttemptsMade(net, retries)
      ensures !net.connected ==> response == "" && tries == 0 && waits == []
      ensures tries <= MaxAttempts(retries)
      ensures net.connected && response == "" ==> tries == MaxAttempts(retries)
      ensures response != "" ==> 0 < tries && Delivered(net.attempt(tries - 1)) && response == net.attempt(tries - 1).body
      ensures forall j :: 0 <= j < tries && (j < tries - 1 || response == "") ==> !Delivered(net.attempt(j))
      ensures |waits| == if response == "" then tries else tries - 1
      ensures forall j :: 0 <= j < |waits| ==> waits[j] == Backoff(net.attempt(j), j)
    {
      if !net.connected {
        return "", 0, [];
      }
      var attempts: nat := 0;
      waits := [];
      while attempts <= retries
        invariant attempts <= MaxAttempts(retries)
        invariant forall j :: 0 <= j < attempts ==> !Delivered(net.attempt(j))
        invariant FirstDelivered(net.attempt, attempts, retries) == FirstDelivered(net.attempt, 0, retries)
        invariant |waits| == attempts
        invariant forall j :: 0 <= j < attempts ==> waits[j] == Backoff(net.attempt(j), j)
        decreases retries + 1 - attempts
      {
        var outcome := net.attempt(attempts);
        if outcome.BeginFailed? {
          attempts := attempts + 1;
          waits := waits + [100];
          continue;
        }
        var body := "";
        if 200 <= outcome.code < 300 {
          body := outcome.body;
        }
        if |body| > 0 {
          return body, attempts + 1, waits;
        }
        attempts := attempts + 1;
        waits := waits + [100 * attempts];
      }
      return "", attempts, waits;
    }

    /** `sendHeartbeat`: one request with the default retry count, judged by `HeartbeatVerdict`. */
    method SendHeartbeat(net: Network, json: Json) returns (ok: bool)
      modifies this`requests
      ensures requests == old(requests) + [HeartbeatRequest]
      ensures ok == HeartbeatVerdict(Response(net, DefaultRetries), json)
      ensures ok ==> Response(net, DefaultRetries) != ""
    {
      requests := requests + [HeartbeatRequest];
      var res, _, _ := MakeRequest(net, DefaultRetries);
      if |res| == 0 {
        return false;
      }
      var rd := json(res);
      if rd.Failed? {
        return false;
      }
      ok := SuccessOr(rd.doc.success, true, false);
    }

    /**
     * `sendVariable`: posts name, value and type label once, and succeeds for
     * every non-empty response except one whose parse failed after reading
     * `"success": false`.
     */
    method SendVariable(name: string, value: string, t: VarType, net: Network, json: Json) returns (ok: bool)
      modifies this`requests
      ensures requests == old(requests) + [VariableRequest(name, value, TypeLabel(t))]
      ensures ok == VariableVerdict(Response(net, DefaultRetries), json)
      ensures ok ==> Response(net, DefaultRetries) != ""
    {
      requests := requests + [VariableRequest(name, value, TypeLabel(t))];
      var res, _, _ := MakeRequest(net, DefaultRetries);
      if |res| == 0 {
        return false;
      }
      var rd := json(res);
      if rd.Parsed? {
        return true;
      }
      ok := SuccessOr(rd.partial.success, true, true);
    }

    /** `findInCache`: the position of the first entry with that name. */
    method FindInCache(name: string) returns (idx: Option<nat>)
      ensures idx.Some? ==> idx.value < |cache| && cache[idx.value].name == name
      ensures idx.Some? ==> forall j :: 0 <= j < idx.value ==> cache[j].name != name
      ensures idx.None? ==> forall j :: 0 <= j < |cache| ==> cache[j].name != name
    {
      var i := 0;
      while i < |cache|
        invariant 0 <= i <= |cache|
        invariant forall j :: 0 <= j < i ==> cache[j].name != name
      {
        if cache[i].name == name {
          return Some(i);
        }
        i := i + 1;
      }
      return None;
    }

    /**
     * `updateCache`: overwrite the entry with that name, or append one, and
     * then dispatch the update exactly once.
     */
    method UpdateCache(name: string, value: string, t: VarType)
      requires Valid()
      modifies this`cache, this`events
      ensures Valid()
      ensures cache == Updated(old(cache), name, t, value)
      ensures events == old(events) + Dispatch(callbacks, name, value, t)
    {
      var idx := FindInCache(name);
      assert idx == IndexOf(cache, name);
      if idx.Some? {
        cache := cache[idx.value := Variable(name, t, value)];
      } else {
        cache := cache + [Variable(name, t, value)];
      }
      ProcessUpdate(name, value, t);
    }

    /** `processUpdate`: visit every registry entry and fire those named `name`. */
    method ProcessUpdate(name: string, value: string, t: VarType)
      modifies this`events
      ensures events == old(events) + Dispatch(callbacks, name, value, t)
    {
      var i := 0;
      while i < |callbacks|
        invariant 0 <= i <= |callbacks|
        invariant events == old(events) + Dispatch(callbacks[..i], name, value, t)
      {
        var e := callbacks[i];
        assert callbacks[..i + 1][..i] == callbacks[..i];
        if e.name == name {
          if t == IntType && e.intCb.Some? {
            events := events + [Invoked(e.intCb.value, IntArg(ToInt(value)))];
          } else if t == FloatType && e.floatCb.Some? {
            events := events + [Invoked(e.floatCb.value, FloatArg(value))];
          } else if t == BooleanType && e.boolCb.Some? {
            events := events + [Invoked(e.boolCb.value, BoolArg(BoolText(value)))];
          } else if t == StringType && e.stringCb.Some? {
            events := events + [Invoked(e.stringCb.value, StringArg(value))];
          }
        }
        i := i + 1;
      }
      assert callbacks[..|callbacks|] == callbacks;
    }

    /**
     * `syncNow`: one request for the variable list. On an empty response, a
     * parse error or a missing `variables` key it fails and changes nothing
     * else; otherwise every pulled entry goes through `updateCache`, in order.
     */
    method SyncNow(net: Network, json: Json) returns (ok: bool)
      requires Valid()
      modifies this`cache, this`events, this`requests
      ensures Valid()
      ensures requests == old(requests) + [VariablesRequest]
      ensures var pulled := PulledEntries(Response(net, DefaultRetries), json);
        ok == pulled.Some? &&
        cache == (if ok then ApplyEntries(old(cache), pulled.value) else old(cache)) &&
        events == old(events) + (if ok then PullEvents(callbacks, pulled.value) else [])
    {
      requests := requests + [VariablesRequest];
      var res, _, _ := MakeRequest(net, DefaultRetries);
      if |res| == 0 {
        return false;
      }
      var d := json(res);
      if d.Failed? {
        return false;
      }
      if d.doc.variables.None? {
        return false;
      }
      ApplyPulled(d.doc.variables.value);
      return true;
    }

    /** The loop of `syncNow` over the pulled array: one `updateCache` per entry, in order. */
    method ApplyPulled(arr: seq<Entry>)
      requires Valid()
      modifies this`cache, this`events
      ensures Valid()
      ensures cache == ApplyEntries(old(cache), arr)
      ensures events == old(events) + PullEvents(callbacks, arr)
    {
      ghost var cache0, events0, cbs := cache, events, callbacks;
      var i := 0;
      while i < |arr|
        invariant 0 <= i <= |arr|
        invariant callbacks == cbs && Valid()
        invariant cache == ApplyEntries(cache0, arr[..i])
        invariant events == events0 + PullEvents(cbs, arr[..i])
      {
        var obj := arr[i];
        var vt := ParseTypeLabel(obj.typeLabel);
        PullPrefixStep(cache0, events0, cbs, arr, i);
        UpdateCache(obj.name, obj.value, vt);
        i := i + 1;
      }
      assert arr[..|arr|] == arr;
    }

    /** `virtualWrite(name, int)`: send `String(value)` once; cache and dispatch it only if the send succeeds. */
    method VirtualWriteInt(name: string, value: int32, net: Network, json: Json) returns (ok: bool)
      requires Valid()
      modifies this`cache, this`events, this`requests
      ensures Valid()
      ensures requests == old(requests) + [VariableRequest(name, IntToText(value), TypeLabel(IntType))]
      ensures ok == VariableVerdict(Response(net, DefaultRetries), json)
      ensures ok ==> cache == Updated(old(cache), name, IntType, IntToText(value)) &&
                     events == old(events) + Dispatch(callbacks, name, IntToText(value), IntType)
      ensures !ok ==> cache == old(cache) && events == old(events)
      ensures ok ==> VirtualReadInt(name) == value as int
    {
      var val := IntToText(value);
      ok := SendVariable(name, val, IntType, net, json);
      if ok {
        UpdateCache(name, val, IntType);
        LookupUpdatedSame(old(cache), name, IntType, val);
        IntTextRoundTrip(value);
      }
    }

    /**
     * `virtualWrite(name, float)`: `text` stands for `String(value, 6)`; it is
     * cached and dispatched as a float only if the send succeeds.
     */
    method VirtualWriteFloat(name: string, text: string, net: Network, json: Json) returns (ok: bool)
      requires Valid()
      modifies this`cache, this`events, this`requests
      ensures Valid()
      ensures requests == old(requests) + [VariableRequest(name, text, TypeLabel(FloatType))]
      ensures ok == VariableVerdict(Response(net, DefaultRetries), json)
      ensures ok ==> cache == Updated(old(cache), name, FloatType, text) &&
                     events == old(events) + Dispatch(callbacks, name, text, FloatType)
      ensures !ok ==> cache == old(cache) && events == old(events)
      ensures ok ==> Lookup(cache, name) == Some(Variable(name, FloatType, text))
    {
      ok := SendVariable(name, text, FloatType, net, json);
      if ok {
        UpdateCache(name, text, FloatType);
        LookupUpdatedSame(old(cache), name, FloatType, text);
      }
    }

    /** `virtualWrite(name, bool)`: send "true" or "false"; cache and dispatch it only if the send succeeds. */
    method VirtualWriteBool(name: string, value: bool, net: Network, json: Json) returns (ok: bool)
      requires Valid()
      modifies this`cache, this`events, this`requests
      ensures Valid()
      ensures requests == old(requests) + [VariableRequest(name, BoolToText(value), TypeLabel(BooleanType))]
      ensures ok == VariableVerdict(Response(net, DefaultRetries), json)
      ensures ok ==> cache == Updated(old(cache), name, BooleanType, BoolToText(value)) &&
                     events == old(events) + Dispatch(callbacks, name, BoolToText(value), BooleanType)
      ensures !ok ==> cache == old(cache) && events == old(events)
      ensures ok ==> VirtualReadBool(name) == value
    {
      var val := if value then "true" else "false";
      ok := SendVariable(name, val, BooleanType, net, json);
      if ok {
        UpdateCache(name, val, BooleanType);
        LookupUpdatedSame(old(cache), name, BooleanType, val);
        BoolTextRoundTrip(value);
      }
    }

    /** `virtualWrite(name, String)`: send the text verbatim; cache and dispatch it only if the send succeeds. */
    method VirtualWriteString(name: string, value: string, net: Network, json: Json) returns (ok: bool)
      requires Valid()
      modifies this`cache, this`events, this`requests
      ensures Valid()
      ensures requests == old(requests) + [VariableRequest(name, value, TypeLabel(StringType))]
      ensures ok == VariableVerdict(Response(net, DefaultRetries), json)
      ensures ok ==> cache == Updated(old(cache), name, StringType, value) &&
                     events == old(events) + Dispatch(callbacks, name, value, StringType)
      ensures !ok ==> cache == old(cache) && events == old(events)
      ensures ok ==> VirtualReadString(name) == value
    {
      ok := SendVariable(name, value, StringType, net, json);
      if ok {
        UpdateCache(name, value, StringType);
        LookupUpdatedSame(old(cache), name, StringType, value);
      }
    }

    /** `virtualReadInt`: `toInt` of the cached text, 0 for an unknown name. No request is made. */
    function VirtualReadInt(name: string): (r: int)
      reads this
      requires Valid()
      ensures (forall v | v in cache :: v.name != name) ==> r == 0
      ensures forall v | v in cache && v.name == name :: r == ToInt(v.value)
    {
      match Lookup(cache, name)
      case None => 0
      case Some(v) => ToInt(v.value)
    }

    /** `virtualReadBool`: "true" in any case or "1" read as true; false for an unknown name. */
    function VirtualReadBool(name: string): (r: bool)
      reads this
      requires Valid()
      ensures (forall v | v in cache :: v.name != name) ==> !r
      ensures forall v | v in cache && v.name == name :: r == BoolText(v.value)
    {
      match Lookup(cache, name)
      case None => false
      case Some(v) => BoolText(v.value)
    }

    /** `virtualReadString`: the cached text verbatim, "" for an unknown name. */
    function VirtualReadString(name: string): (r: string)
      reads this
      requires Valid()
      ensures (forall v | v in cache :: v.name != name) ==> r == ""
      ensures forall v | v in cache && v.name == name :: r == v.value
    {
      match Lookup(cache, name)
      case None => ""
      case Some(v) => v.value
    }

    /**
     * `onWriteInt` / `onWriteFloat` / `onWriteBool` / `onWriteString`, with
     * `kind` naming which: the first entry with that name gets its `kind`
     * slot replaced and nothing else; without one, a new entry is appended.
     */
    method OnWrite(kind: VarType, name: string, h: HandlerId)
      requires Valid()
      modifies this`callbacks
      ensures Valid()
      ensures callbacks == Register(old(callbacks), kind, name, h)
    {
      var i := 0;
      while i < |callbacks|
        invariant 0 <= i <= |callbacks|
        invariant forall j :: 0 <= j < i ==> callbacks[j].name != name
      {
        if callbacks[i].name == name {
          assert EntryIndex(callbacks, name) == Some(i);
          callbacks := callbacks[i := WithSlot(callbacks[i], kind, h)];
          return;
        }
        i := i + 1;
      }
      callbacks := callbacks + [WithSlot(CallbackEntry(name, kind, None, None, None, None), kind, h)];
    }
  }
}
