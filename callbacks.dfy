/**
 * The callback registry (`std::vector<CallbackEntry> callbacks`), what
 * `processUpdate` invokes for one cache update, and what `onWrite*` does to
 * the registry. A handler is identified by an opaque id; invoking it is
 * recorded as an event carrying the argument it receives.
 */
module Callbacks {
  import opened Optional
  import opened Search
  import opened ArduinoText
  import opened VarTypes
  import opened Transport

  /** Identity of a user-supplied `std::function` handler. */
  type HandlerId = nat

  /**
   * One registry entry: a name, the type recorded at its first registration,
   * and four independent handler slots, one per kind.
   */
  datatype CallbackEntry = CallbackEntry(
    name: string,
    vtype: VarType,
    intCb: Option<HandlerId>,
    floatCb: Option<HandlerId>,
    boolCb: Option<HandlerId>,
    stringCb: Option<HandlerId>)

  /**
   * The argument a handler receives: `toInt` of the text, the text a float
   * handler's `toFloat` would convert, the boolean coercion, or the text itself.
   */
  datatype Arg = IntArg(i: int) | FloatArg(text: string) | BoolArg(b: bool) | StringArg(s: string)

  /** One handler invocation. */
  datatype Event = Invoked(handler: HandlerId, arg: Arg)

  /** The slot of `e` that handles values of type `t`. */
  function Slot(e: CallbackEntry, t: VarType): Option<HandlerId>
  {
    match t
    case IntType => e.intCb
    case FloatType => e.floatCb
    case BooleanType => e.boolCb
    case StringType => e.stringCb
  }

  /** What a handler of kind `t` is passed for the cached text `value`. */
  function Argument(t: VarType, value: string): Arg
  {
    match t
    case IntType => IntArg(ToInt(value))
    case FloatType => FloatArg(value)
    case BooleanType => BoolArg(BoolText(value))
    case StringType => StringArg(value)
  }

  /**
   * The body of `processUpdate` for one entry whose name matched: the branch
   * for the INCOMING type runs its slot if that slot is set. The recorded
   * `vtype` of the entry plays no part.
   */
  function Fire(e: CallbackEntry, value: string, t: VarType): (evs: seq<Event>)
    ensures |evs| <= 1
    ensures |evs| == 1 <==> Slot(e, t).Some?
    ensures |evs| == 1 ==> evs[0] == Invoked(Slot(e, t).value, Argument(t, value))
  {
    if t == IntType && e.intCb.Some? then [Invoked(e.intCb.value, IntArg(ToInt(value)))]
    else if t == FloatType && e.floatCb.Some? then [Invoked(e.floatCb.value, FloatArg(value))]
    else if t == BooleanType && e.boolCb.Some? then [Invoked(e.boolCb.value, BoolArg(BoolText(value)))]
    else if t == StringType && e.stringCb.Some? then [Invoked(e.stringCb.value, StringArg(value))]
    else []
  }

  /** `processUpdate(name, value, t)`: every entry is visited in order and each one named `name` fires. */
  function Dispatch(cbs: seq<CallbackEntry>, name: string, value: string, t: VarType): seq<Event>
  {
    if cbs == [] then []
    else
      var e := cbs[|cbs| - 1];
      Dispatch(cbs[..|cbs| - 1], name, value, t) + (if e.name == name then Fire(e, value, t) else [])
  }

  /** At most one entry per name. */
  predicate UniqueEntryNames(cbs: seq<CallbackEntry>)
  {
    forall i, j :: 0 <= i < j < |cbs| ==> cbs[i].name != cbs[j].name
  }

  /** The key a registry entry is found by. */
  function EntryName(e: CallbackEntry): string
  {
    e.name
  }

  /** The position of the first entry with that name, if any (the search in `onWrite*`). */
  function EntryIndex(cbs: seq<CallbackEntry>, name: string): (r: Option<nat>)
    ensures r.Some? ==> r.value < |cbs| && cbs[r.value].name == name
    ensures r.Some? ==> forall j :: 0 <= j < r.value ==> cbs[j].name != name
    ensures r.None? ==> forall j :: 0 <= j < |cbs| ==> cbs[j].name != name
  {
    FirstIndex(NamesOf(cbs, EntryName), name)
  }

  /**
   * With one entry per name, an update invokes at most one handler: the slot
   * for the incoming type on the entry with that name, if the slot is set.
   */
  lemma {:induction false} DispatchAtMostOne(cbs: seq<CallbackEntry>, name: string, value: string, t: VarType)
    requires UniqueEntryNames(cbs)
    ensures Dispatch(cbs, name, value, t) ==
      match EntryIndex(cbs, name)
      case None => []
      case Some(i) => Fire(cbs[i], value, t)
    ensures |Dispatch(cbs, name, value, t)| <= 1
  {
    if cbs != [] {
      var init, e := cbs[..|cbs| - 1], cbs[|cbs| - 1];
      assert UniqueEntryNames(init);
      DispatchAtMostOne(init, name, value, t);
      EntryIndexSnoc(cbs, name);
      if e.name == name {
        assert EntryIndex(init, name).None?;
      }
    }
  }

  /** The search over a registry with one more entry at the end, in terms of the search over the rest. */
  lemma EntryIndexSnoc(cbs: seq<CallbackEntry>, name: string)
    requires cbs != []
    ensures var init := cbs[..|cbs| - 1];
      EntryIndex(cbs, name) ==
        if EntryIndex(init, name).Some? then EntryIndex(init, name)
        else if cbs[|cbs| - 1].name == name then Some(|cbs| - 1)
        else None
  {
    assert NamesOf(cbs, EntryName)[..|cbs| - 1] == NamesOf(cbs[..|cbs| - 1], EntryName);
    FirstIndexSnoc(NamesOf(cbs, EntryName), name);
  }

  /** Two registries that differ only in their recorded types dispatch alike. */
  lemma {:induction false} DispatchIgnoresRecordedType(cbs: seq<CallbackEntry>, other: seq<CallbackEntry>,
                                                      name: string, value: string, t: VarType)
    requires |cbs| == |other|
    requires forall i :: 0 <= i < |cbs| ==> other[i] == cbs[i].(vtype := other[i].vtype)
    ensures Dispatch(cbs, name, value, t) == Dispatch(other, name, value, t)
  {
    if cbs != [] {
      DispatchIgnoresRecordedType(cbs[..|cbs| - 1], other[..|other| - 1], name, value, t);
    }
  }

  /** `e` with the slot of kind `kind` set to `h`. */
  function WithSlot(e: CallbackEntry, kind: VarType, h: HandlerId): CallbackEntry
  {
    match kind
    case IntType => e.(intCb := Some(h))
    case FloatType => e.(floatCb := Some(h))
    case BooleanType => e.(boolCb := Some(h))
    case StringType => e.(stringCb := Some(h))
  }

  /**
   * The registry after `onWrite<kind>(name, h)`: the first entry with that
   * name gets only its `kind` slot replaced (name, recorded type and the
   * other three slots stay); without one, a new entry is appended whose
   * recorded type is `kind` and whose only set slot is `kind`'s.
   */
  function Register(cbs: seq<CallbackEntry>, kind: VarType, name: string, h: HandlerId): (r: seq<CallbackEntry>)
    ensures UniqueEntryNames(cbs) ==> UniqueEntryNames(r)
    ensures EntryIndex(cbs, name).Some? ==> |r| == |cbs|
    ensures EntryIndex(cbs, name).None? ==> |r| == |cbs| + 1
    ensures forall j :: 0 <= j < |cbs| && cbs[j].name != name ==> r[j] == cbs[j]
    ensures forall j :: 0 <= j < |cbs| ==> r[j].name == cbs[j].name && r[j].vtype == cbs[j].vtype
    ensures EntryIndex(r, name).Some?
    ensures EntryIndex(cbs, name).Some? ==> EntryIndex(r, name) == EntryIndex(cbs, name)
    ensures var i := EntryIndex(r, name).value;
      forall k: VarType :: Slot(r[i], k) == if k == kind then Some(h) else if i < |cbs| then Slot(cbs[i], k) else None
    ensures EntryIndex(cbs, name).None? ==> r[|cbs|].name == name && r[|cbs|].vtype == kind
  {
    match EntryIndex(cbs, name)
    case Some(i) => cbs[i := WithSlot(cbs[i], kind, h)]
    case None =>
      var r := cbs + [WithSlot(CallbackEntry(name, kind, None, None, None, None), kind, h)];
      assert r[|cbs|].name == name;
      r
  }

  /**
   * Last registration wins: once `h` is registered for `name` and `kind`, an
   * update of `name` with that type invokes `h`, and only `h`.
   */
  lemma LastRegistrationWins(cbs: seq<CallbackEntry>, kind: VarType, name: string, h: HandlerId, value: string)
    requires UniqueEntryNames(cbs)
    ensures Dispatch(Register(cbs, kind, name, h), name, value, kind) == [Invoked(h, Argument(kind, value))]
  {
    var r := Register(cbs, kind, name, h);
    DispatchAtMostOne(r, name, value, kind);
    var i := EntryIndex(r, name).value;
    assert Slot(r[i], kind) == Some(h);
  }

  /** Registering a handler for one name changes nothing that an update of another name invokes. */
  lemma RegisterOtherName(cbs: seq<CallbackEntry>, kind: VarType, name: string, h: HandlerId,
                          other: string, value: string, t: VarType)
    requires UniqueEntryNames(cbs) && other != name
    ensures Dispatch(Register(cbs, kind, name, h), other, value, t) == Dispatch(cbs, other, value, t)
  {
    var r := Register(cbs, kind, name, h);
    assert EntryIndex(r, other) == EntryIndex(cbs, other) by {
      if EntryIndex(cbs, name).None? {
        assert r[|cbs|].name == name;
      }
    }
    DispatchAtMostOne(r, other, value, t);
    DispatchAtMostOne(cbs, other, value, t);
    if EntryIndex(cbs, other).Some? {
      var i := EntryIndex(cbs, other).value;
      assert r[i] == cbs[i];
    }
  }

  /** The handler invocations of a whole pull: one dispatch per pulled entry, in order. */
  function PullEvents(cbs: seq<CallbackEntry>, es: seq<Entry>): seq<Event>
  {
    if es == [] then []
    else
      var e := es[|es| - 1];
      PullEvents(cbs, es[..|es| - 1]) + Dispatch(cbs, e.name, e.value, ParseTypeLabel(e.typeLabel))
  }

  /** The handler an update of `name` with type `t` reaches, if any. */
  function HandlerFor(cbs: seq<CallbackEntry>, name: string, t: VarType): Option<HandlerId>
  {
    match EntryIndex(cbs, name)
    case None => None
    case Some(i) => Slot(cbs[i], t)
  }

  /**
   * Dispatch fires once per pulled entry, whether or not the value changed:
   * when every entry of the pull has a handler for its type, the k-th event
   * is that handler's invocation for the k-th entry.
   */
  lemma {:induction false} PullFiresPerEntry(cbs: seq<CallbackEntry>, es: seq<Entry>)
    requires UniqueEntryNames(cbs)
    requires forall k :: 0 <= k < |es| ==> HandlerFor(cbs, es[k].name, ParseTypeLabel(es[k].typeLabel)).Some?
    ensures |PullEvents(cbs, es)| == |es|
    ensures forall k :: 0 <= k < |es| ==>
      var t := ParseTypeLabel(es[k].typeLabel);
      Some(PullEvents(cbs, es)[k].handler) == HandlerFor(cbs, es[k].name, t) &&
      PullEvents(cbs, es)[k].arg == Argument(t, es[k].value)
  {
    if es != [] {
      var init, e := es[..|es| - 1], es[|es| - 1];
      assert forall k :: 0 <= k < |init| ==> init[k] == es[k];
      PullFiresPerEntry(cbs, init);
      var t := ParseTypeLabel(e.typeLabel);
      var h := HandlerFor(cbs, e.name, t);
      assert h.Some? by {
        assert es[|es| - 1] == e;
      }
      DispatchAtMostOne(cbs, e.name, e.value, t);
      var d := Dispatch(cbs, e.name, e.value, t);
      assert d == [Invoked(h.value, Argument(t, e.value))];
      var before := PullEvents(cbs, init);
      var after := PullEvents(cbs, es);
      assert after == before + d;
      forall k | 0 <= k < |es|
        ensures var tk := ParseTypeLabel(es[k].typeLabel);
          Some(after[k].handler) == HandlerFor(cbs, es[k].name, tk) && after[k].arg == Argument(tk, es[k].value)
      {
        if k < |init| {
          assert es[k] == init[k];
          assert after[k] == before[k];
        } else {
          assert k == |es| - 1;
          assert es[k] == e;
          assert after[k] == d[0] == Invoked(h.value, Argument(t, e.value));
        }
      }
    }
  }

  /** An update typed differently from every set slot of its entry invokes nothing. */
  lemma MismatchedTypeNotDispatched(cbs: seq<CallbackEntry>, name: string, value: string, t: VarType)
    requires UniqueEntryNames(cbs) && HandlerFor(cbs, name, t).None?
    ensures Dispatch(cbs, name, value, t) == []
  {
    DispatchAtMostOne(cbs, name, value, t);
  }
}
