/**
 * The local cache (`std::vector<Variable> cache`) as a sequence: lookup by
 * name (`findInCache`), the effect of `updateCache` on the sequence, and the
 * effect of a whole pull (`syncNow` applying every pulled entry in order).
 */
module VariableCache {
  import opened Optional
  import opened Search
  import opened VarTypes
  import opened Transport

  /** At most one entry per name. */
  predicate UniqueNames(c: seq<Variable>)
  {
    forall i, j :: 0 <= i < j < |c| ==> c[i].name != c[j].name
  }

  /** The key a cache entry is found by. */
  function VarName(v: Variable): string
  {
    v.name
  }

  /** `findInCache`: the position of the first entry with that name, if any. */
  function IndexOf(c: seq<Variable>, name: string): (r: Option<nat>)
    ensures r.Some? ==> r.value < |c| && c[r.value].name == name
    ensures r.Some? ==> forall j :: 0 <= j < r.value ==> c[j].name != name
    ensures r.None? ==> forall j :: 0 <= j < |c| ==> c[j].name != name
  {
    FirstIndex(NamesOf(c, VarName), name)
  }

  /** The entry a read finds for `name`. */
  function Lookup(c: seq<Variable>, name: string): Option<Variable>
  {
    match IndexOf(c, name)
    case None => None
    case Some(i) => Some(c[i])
  }

  /**
   * The cache after `updateCache(name, value, t)`: an entry with that name
   * gets its type and value overwritten in place, otherwise a new entry is
   * appended. Names already present keep their positions.
   */
  function Updated(c: seq<Variable>, name: string, t: VarType, value: string): (r: seq<Variable>)
    ensures UniqueNames(c) ==> UniqueNames(r)
    ensures |r| == if IndexOf(c, name).Some? then |c| else |c| + 1
    ensures forall j :: 0 <= j < |c| ==> r[j].name == c[j].name
    ensures forall j :: 0 <= j < |c| && c[j].name != name ==> r[j] == c[j]
    ensures IndexOf(c, name).None? ==> r[|c|] == Variable(name, t, value)
  {
    match IndexOf(c, name)
    case Some(i) => c[i := Variable(name, t, value)]
    case None => c + [Variable(name, t, value)]
  }

  /** After an update, a read of that name sees exactly the new type and value. */
  lemma LookupUpdatedSame(c: seq<Variable>, name: string, t: VarType, value: string)
    ensures Lookup(Updated(c, name, t, value), name) == Some(Variable(name, t, value))
  {
    var r := Updated(c, name, t, value);
    match IndexOf(c, name)
    case Some(i) =>
      assert r[i].name == name;
      assert IndexOf(r, name) == Some(i);
    case None =>
      assert r[|c|].name == name;
      assert IndexOf(r, name) == Some(|c|);
  }

  /** An update leaves what a read of every other name sees unchanged. */
  lemma LookupUpdatedOther(c: seq<Variable>, name: string, t: VarType, value: string, other: string)
    requires other != name
    ensures Lookup(Updated(c, name, t, value), other) == Lookup(c, other)
  {
    var r := Updated(c, name, t, value);
    match IndexOf(c, other)
    case Some(i) =>
      assert r[i] == c[i];
      assert IndexOf(r, other) == Some(i);
    case None =>
      assert IndexOf(r, other).None?;
  }

  /** The cache after a pull has applied `es`, one `updateCache` per entry, in order. */
  function ApplyEntries(c: seq<Variable>, es: seq<Entry>): seq<Variable>
  {
    if es == [] then c
    else
      var e := es[|es| - 1];
      Updated(ApplyEntries(c, es[..|es| - 1]), e.name, ParseTypeLabel(e.typeLabel), e.value)
  }

  /**
   * A pull never removes or renames a cached entry, and it keeps the cache
   * free of duplicate names.
   */
  lemma {:induction false} ApplyEntriesKeepsNames(c: seq<Variable>, es: seq<Entry>)
    ensures UniqueNames(c) ==> UniqueNames(ApplyEntries(c, es))
    ensures |ApplyEntries(c, es)| >= |c|
    ensures forall j :: 0 <= j < |c| ==> ApplyEntries(c, es)[j].name == c[j].name
  {
    if es != [] {
      ApplyEntriesKeepsNames(c, es[..|es| - 1]);
    }
  }

  /** The position of the last pulled entry with that name, if any. */
  function LastIndexOf(es: seq<Entry>, name: string): (r: Option<nat>)
    ensures r.Some? ==> r.value < |es| && es[r.value].name == name
    ensures r.Some? ==> forall j :: r.value < j < |es| ==> es[j].name != name
    ensures r.None? ==> forall j :: 0 <= j < |es| ==> es[j].name != name
  {
    if es == [] then None
    else if es[|es| - 1].name == name then Some(|es| - 1)
    else LastIndexOf(es[..|es| - 1], name)
  }

  /**
   * After a pull, a name that occurs in the pulled list reads as its LAST
   * occurrence (with the type its label parses to); any other name reads as
   * it did before the pull.
   */
  lemma {:induction false} ApplyLastWins(c: seq<Variable>, es: seq<Entry>, name: string)
    ensures Lookup(ApplyEntries(c, es), name) ==
      match LastIndexOf(es, name)
      case None => Lookup(c, name)
      case Some(k) => Some(Variable(name, ParseTypeLabel(es[k].typeLabel), es[k].value))
  {
    if es != [] {
      var init, e := es[..|es| - 1], es[|es| - 1];
      var before := ApplyEntries(c, init);
      if e.name == name {
        LookupUpdatedSame(before, e.name, ParseTypeLabel(e.typeLabel), e.value);
      } else {
        LookupUpdatedOther(before, e.name, ParseTypeLabel(e.typeLabel), e.value, name);
        ApplyLastWins(c, init, name);
        assert LastIndexOf(es, name) == LastIndexOf(init, name);
      }
    }
  }
}
