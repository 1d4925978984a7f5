/**
 Path matching as the navigation guards perform it: every test is a call to
 JavaScript's `String.prototype.indexOf`, compared with `0` (a prefix test)
 or with `-1` (a substring test).

 Indices here count Dafny `char`s (Unicode scalar values), not UTF-16 code
 units as JavaScript does. The two can differ on a positive index, but they
 agree on whether the result is 0 or -1, the only comparisons made.
 */
module Paths {

  /** `sub` occurs in `s` starting at index `k`. */
  ghost predicate OccursAt(s: string, sub: string, k: int) {
    0 <= k && k + |sub| <= |s| && s[k..k + |sub|] == sub
  }

  /** `s.indexOf(sub)` up to the unit of indexing: the least index at which
      `sub` occurs in `s`, or -1 when it occurs nowhere. As in JavaScript, the
      empty string occurs at 0. */
  function IndexOf(s: string, sub: string): (r: int)
    ensures r == -1 <==> !exists k :: OccursAt(s, sub, k)
    ensures r != -1 ==> OccursAt(s, sub, r)
    ensures forall k :: 0 <= k < r ==> !OccursAt(s, sub, k)
  {
    IndexOfFrom(s, sub, 0)
  }

  /** The search of `IndexOf`, resumed at position `from`. */
  function IndexOfFrom(s: string, sub: string, from: nat): (r: int)
    ensures r == -1 || (from <= r && OccursAt(s, sub, r))
    ensures forall k :: from <= k && (r == -1 || k < r) ==> !OccursAt(s, sub, k)
    decreases |s| - from
  {
    if from + |sub| > |s| then -1
    else if s[from..from + |sub|] == sub then from
    else IndexOfFrom(s, sub, from + 1)
  }

  /** `s.indexOf(p) === 0`, the test the restricted-path scan applies. */
  predicate StartsWith(s: string, p: string) {
    IndexOf(s, p) == 0
  }

  /** `s.indexOf(sub) !== -1`, the test the metrics-only rule applies. */
  predicate Contains(s: string, sub: string) {
    IndexOf(s, sub) != -1
  }

  /** Comparing `indexOf` with 0 is exactly a prefix test. */
  lemma StartsWithIsPrefix(s: string, p: string)
    ensures StartsWith(s, p) <==> p <= s
  {
  }

  /** Every string contains itself, so a path equal to `sub` passes a
      `Contains` test for `sub`. */
  lemma ContainsItself(s: string)
    ensures Contains(s, s)
  {
  }
}
