/**
 * The first-match search every handler runs over a list of records:
 * `list.some(r => { if (r.name === name) { ...; return true; } })` stops at the
 * first record whose name is `name` and touches nothing after it.
 */
module NameSearch {
  import opened Wrappers

  /** The index of the first occurrence of `name`, or None when there is none. */
  function FirstIndex(names: seq<string>, name: string): (r: Option<nat>)
    ensures r.Some? ==> r.value < |names| && names[r.value] == name
    ensures r.Some? ==> forall j :: 0 <= j < r.value ==> names[j] != name
    ensures r.None? <==> name !in names
  {
    if |names| == 0 then None
    else if names[0] == name then Some(0)
    else match FirstIndex(names[1..], name)
      case None => None
      case Some(i) => Some(i + 1)
  }

  /** The `some` loop itself: walks the list front to back and stops at the first hit. */
  method FirstMatch(names: seq<string>, name: string) returns (r: Option<nat>)
    ensures r == FirstIndex(names, name)
  {
    var i := 0;
    while i < |names|
      invariant 0 <= i <= |names|
      invariant forall j :: 0 <= j < i ==> names[j] != name
    {
      if names[i] == name {
        return Some(i);
      }
      i := i + 1;
    }
    return None;
  }
}
