/** Concrete runs of the pull path that pin down how dispatch behaves. */
module Scenarios {
  import opened Optional
  import opened VarTypes
  import opened Transport
  import opened VariableCache
  import opened Callbacks

  /** A pulled `{"name":"led","type":"bool","value":"true"}` calls the boolean handler of "led" once, with true. */
  lemma BoolPullDispatchesOnce(h: HandlerId)
    ensures var cbs := [CallbackEntry("led", BooleanType, None, None, Some(h), None)];
      PullEvents(cbs, [Entry("led", "bool", "true")]) == [Invoked(h, BoolArg(true))]
  {
    var cbs := [CallbackEntry("led", BooleanType, None, None, Some(h), None)];
    assert [Entry("led", "bool", "true")][..0] == [];
    assert cbs[..0] == [];
    assert ParseTypeLabel("bool") == BooleanType;
    assert ArduinoText.BoolText("true");
    DispatchAtMostOne(cbs, "led", "true", BooleanType);
    assert EntryIndex(cbs, "led") == Some(0);
  }

  /**
   * With only an int handler on "x", a pull reporting "x" as a float calls
   * nothing, and the cache still takes the float value.
   */
  lemma FloatPullSkipsIntHandler(h: HandlerId)
    ensures var cbs := [CallbackEntry("x", IntType, Some(h), None, None, None)];
      var es := [Entry("x", "float", "2.5")];
      PullEvents(cbs, es) == [] &&
      Lookup(ApplyEntries([], es), "x") == Some(Variable("x", FloatType, "2.5"))
  {
    var cbs := [CallbackEntry("x", IntType, Some(h), None, None, None)];
    var es := [Entry("x", "float", "2.5")];
    assert es[..0] == [] && cbs[..0] == [];
    assert ParseTypeLabel("float") == FloatType;
    DispatchAtMostOne(cbs, "x", "2.5", FloatType);
    assert EntryIndex(cbs, "x") == Some(0);
    ApplyLastWins([], es, "x");
  }

  /**
   * An entry registered as int that later also gets a float handler (its
   * recorded type stays int) does call that float handler on a float update.
   */
  lemma SecondKindStillDispatched(hi: HandlerId, hf: HandlerId, value: string)
    ensures var cbs := Register(Register([], IntType, "x", hi), FloatType, "x", hf);
      |cbs| == 1 && cbs[0].vtype == IntType &&
      Dispatch(cbs, "x", value, FloatType) == [Invoked(hf, FloatArg(value))] &&
      Dispatch(cbs, "x", value, IntType) == [Invoked(hi, IntArg(ArduinoText.ToInt(value)))]
  {
    var c1 := Register([], IntType, "x", hi);
    var cbs := Register(c1, FloatType, "x", hf);
    LastRegistrationWins(c1, FloatType, "x", hf, value);
    DispatchAtMostOne(cbs, "x", value, IntType);
    assert EntryIndex(cbs, "x") == Some(0);
  }
}
