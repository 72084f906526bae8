/** The merge both manifest writers make: the names a manifest already
    lists and the discovered ones, through a set, into a sorted list. */
module Merge {
  import opened StringOrder

  /** The merge: the names already listed (the keys of `existing`) and the
      given ones, each once, in increasing order. */
  method MergeDependencies(existing: map<string, bool>, dependencies: seq<string>) returns (merged: seq<string>)
    ensures merged == SortedSet(existing.Keys + Elems(dependencies))
  {
    var names := EnumerateKeys(existing);
    var allDeps := AddNames(map[], names);
    allDeps := AddNames(allDeps, dependencies);
    var keys := EnumerateKeys(allDeps);
    SortDistinct(keys);
    merged := Sort(keys);
    StrictlySortedUnique(merged, SortedSet(existing.Keys + Elems(dependencies)));
  }

  /** Marks each of `names` as present in the set `allDeps`. */
  method AddNames(allDeps: map<string, bool>, names: seq<string>) returns (r: map<string, bool>)
    ensures r.Keys == allDeps.Keys + Elems(names)
  {
    r := allDeps;
    for k := 0 to |names|
      invariant r.Keys == allDeps.Keys + Elems(names[..k])
    {
      TakeOneMore(names, k);
      ElemsAppend(names[..k], names[k]);
      r := r[names[k] := true];
    }
    TakeAll(names);
  }

}
