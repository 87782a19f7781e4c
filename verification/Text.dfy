/** The string searches of the C++ library that the URI code relies on. */
module Text {
  import opened Wrappers

  predicate OccursAt(s: string, t: string, i: nat) {
    i + |t| <= |s| && s[i..i + |t|] == t
  }

  /** `s.find(t, from)`, with `None` for `npos`. */
  function Find(s: string, t: string, from: nat): (r: Option<nat>)
    ensures r.Some? ==> from <= r.value && r.value + |t| <= |s| && OccursAt(s, t, r.value)
    ensures forall i :: from <= i && OccursAt(s, t, i) ==> r.Some? && r.value <= i
    decreases |s| - from
  {
    if from + |t| > |s| then None
    else if s[from..from + |t|] == t then Some(from)
    else Find(s, t, from + 1)
  }

  /** `s.rfind(c)` among the first `n` characters. */
  function FindLast(s: string, c: char, n: nat): (r: Option<nat>)
    requires n <= |s|
    ensures r.Some? ==> r.value < n && s[r.value] == c
    ensures forall i :: 0 <= i < n && s[i] == c ==> r.Some? && i <= r.value
  {
    if n == 0 then None
    else if s[n - 1] == c then Some(n - 1)
    else FindLast(s, c, n - 1)
  }

  predicate StartsWith(s: string, t: string) {
    t <= s
  }
}
