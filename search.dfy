/** The first-match search by name that both the cache and the callback registry perform. */
module Search {
  import opened Optional

  /** The name of every element of `s`, in order. */
  function NamesOf<T>(s: seq<T>, nameOf: T -> string): (ns: seq<string>)
    ensures |ns| == |s| && forall j :: 0 <= j < |s| ==> ns[j] == nameOf(s[j])
  {
    seq(|s|, j requires 0 <= j < |s| => nameOf(s[j]))
  }

  /** The position of the first occurrence of `name` in `names`, if any. */
  function FirstIndex(names: seq<string>, name: string): (r: Option<nat>)
    ensures r.Some? ==> r.value < |names| && names[r.value] == name
    ensures r.Some? ==> forall j :: 0 <= j < r.value ==> names[j] != name
    ensures r.None? ==> forall j :: 0 <= j < |names| ==> names[j] != name
  {
    if names == [] then None
    else if names[0] == name then Some(0)
    else match FirstIndex(names[1..], name)
      case None => None
      case Some(k) => Some(k + 1)
  }

  /** Searching a list with one more name at the end finds the earlier match first, else the new last name. */
  lemma FirstIndexSnoc(names: seq<string>, name: string)
    requires names != []
    ensures var init := names[..|names| - 1];
      FirstIndex(names, name) ==
        if FirstIndex(init, name).Some? then FirstIndex(init, name)
        else if names[|names| - 1] == name then Some(|names| - 1)
        else None
  {
    var init := names[..|names| - 1];
    match FirstIndex(init, name)
    case Some(k) =>
      assert names[k] == name;
    case None =>
      assert forall j :: 0 <= j < |names| - 1 ==> names[j] == init[j];
  }
}
