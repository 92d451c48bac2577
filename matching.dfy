/**
 * Leftmost and global regular-expression matching over a subject of length `n`,
 * parameterised by a matcher that tries the pattern at one position.
 * A matcher `at` answers, for a start position k, the captured group and the end
 * of the whole match, or None when the pattern does not match at k.
 */
module Matching {
  import opened Wrappers

  /** Every match lies inside the subject and is non-empty. */
  ghost predicate Matcher(n: nat, at: nat -> Option<(string, nat)>) {
    forall k :: 0 <= k < n && at(k).Some? ==> k < at(k).value.1 <= n
  }

  /** `s.match(re)` without /g: the leftmost position at or after `i` where the pattern matches. */
  function Leftmost(n: nat, i: nat, at: nat -> Option<(string, nat)>): (r: Option<nat>)
    requires i <= n
    ensures r.Some? ==> i <= r.value < n && at(r.value).Some?
    ensures r.Some? ==> forall k :: i <= k < r.value ==> at(k).None?
    ensures r.None? ==> forall k :: i <= k < n ==> at(k).None?
    decreases n - i
  {
    if i == n then None
    else if at(i).Some? then Some(i)
    else Leftmost(n, i + 1, at)
  }

  /** The captured group of the leftmost match, if any. */
  function FirstGroup(n: nat, at: nat -> Option<(string, nat)>): (r: Option<string>)
    ensures r.Some? <==> exists k :: 0 <= k < n && at(k).Some?
    ensures r.Some? ==> exists k :: 0 <= k < n && at(k).Some? && r.value == at(k).value.0 &&
                                    (forall j :: 0 <= j < k ==> at(j).None?)
  {
    match Leftmost(n, 0, at)
    case None => None
    case Some(k) => Some(at(k).value.0)
  }

  /**
   * `s.replace(re, f)` without /g: the leftmost match, from its start to its end,
   * is replaced by `f` of its captured group; no match leaves `s` as it is.
   */
  function ReplaceFirst(s: string, at: nat -> Option<(string, nat)>, f: string -> string): string
    requires Matcher(|s|, at)
  {
    match Leftmost(|s|, 0, at)
    case None => s
    case Some(k) => s[..k] + f(at(k).value.0) + s[at(k).value.1..]
  }

  /**
   * `[...s.matchAll(re)].map(m => m[1])`: the groups of successive leftmost matches,
   * each search resuming where the previous match ended.
   */
  function Scan(n: nat, i: nat, at: nat -> Option<(string, nat)>): (r: seq<string>)
    requires i <= n && Matcher(n, at)
    ensures forall g :: g in r ==> exists k :: i <= k < n && at(k).Some? && at(k).value.0 == g
    ensures r == [] <==> forall k :: i <= k < n ==> at(k).None?
    ensures r != [] ==> exists k :: i <= k < n && at(k).Some? && (forall j :: i <= j < k ==> at(j).None?) &&
                                    r[0] == at(k).value.0 && r[1..] == Scan(n, at(k).value.1, at)
    decreases n - i
  {
    match Leftmost(n, i, at)
    case None => []
    case Some(k) =>
      var rest := Scan(n, at(k).value.1, at);
      [at(k).value.0] + rest
  }

  /** A property every captured group has, every scanned group has. */
  lemma {:induction false} ScanGroups(n: nat, i: nat, at: nat -> Option<(string, nat)>, p: string -> bool)
    requires i <= n && Matcher(n, at)
    requires forall k :: 0 <= k < n && at(k).Some? ==> p(at(k).value.0)
    ensures forall j :: 0 <= j < |Scan(n, i, at)| ==> p(Scan(n, i, at)[j])
    decreases n - i
  {
    match Leftmost(n, i, at)
    case None =>
    case Some(k) =>
      ScanGroups(n, at(k).value.1, at, p);
  }
}
