/** String helpers shared by the naming code and the driver. */
module Strings {
  import opened Wrappers

  /** The index of the last occurrence of `c` in `s`, as Rust's `str::rfind`
      gives it for a one-character pattern; `None` when `c` does not occur. */
  function RFind(s: string, c: char): (r: Option<nat>)
    ensures r.Some? ==> r.value < |s| && s[r.value] == c
    ensures r.Some? ==> forall j :: r.value < j < |s| ==> s[j] != c
    ensures r.None? <==> c !in s
  {
    if s == [] then None
    else if s[|s| - 1] == c then Some(|s| - 1)
    else RFind(s[..|s| - 1], c)
  }

  /** `c` found after a prefix, with no further `c` after it, is the last one. */
  lemma RFindAfter(a: string, c: char, b: string)
    requires c !in b
    ensures RFind(a + [c] + b, c) == Some(|a|)
  {
    var s := a + [c] + b;
    assert s[|a|] == c;
    var r := RFind(s, c);
    assert r.Some?;
  }
}
