/** The check for repeated request ids that the scheduler and the prefix planner both start with. */
module Duplicates {
  import opened Options
  import opened Sorting

  /** Finds an id that occurs twice, if there is one. */
  method FindDuplicate(ids: seq<string>) returns (dup: Option<string>)
    ensures dup.None? <==> NoDup(ids)
    ensures dup.Some? ==> exists i, j :: 0 <= i < j < |ids| && ids[i] == ids[j] == dup.value
  {
    var seen: set<string> := {};
    for n := 0 to |ids|
      invariant seen == set i | 0 <= i < n :: ids[i]
      invariant NoDup(ids[..n])
    {
      if ids[n] in seen {
        var i :| 0 <= i < n && ids[i] == ids[n];
        return Some(ids[n]);
      }
      seen := seen + {ids[n]};
    }
    assert ids[..|ids|] == ids;
    return None;
  }
}
