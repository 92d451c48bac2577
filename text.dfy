/**
 * String primitives shared by the backend and the frontend: JavaScript's
 * whitespace class and `trim`, ASCII case mapping, decimal numerals,
 * literal global replacement, and the money token that both the poller's
 * price normalisation and the scraper's `extractMoney` look for.
 */
module Text {
  import opened Wrappers

  /** The characters matched by `\s` and removed by `String.prototype.trim`. */
  predicate IsSpace(c: char) {
    c == ' ' || c == '\t' || c == '\n' || c == '\r' || c == '\U{000B}' || c == '\U{000C}'
    || c == '\U{00A0}' || c == '\U{1680}' || ('\U{2000}' <= c <= '\U{200A}')
    || c == '\U{2028}' || c == '\U{2029}' || c == '\U{202F}' || c == '\U{205F}'
    || c == '\U{3000}' || c == '\U{FEFF}'
  }

  predicate IsDigit(c: char) { '0' <= c <= '9' }

  predicate IsAsciiLetter(c: char) { 'a' <= c <= 'z' || 'A' <= c <= 'Z' }

  /** `[A-Za-z0-9]` */
  predicate IsAlnum(c: char) { IsDigit(c) || IsAsciiLetter(c) }

  /** `\w`, that is `[A-Za-z0-9_]` */
  predicate IsWordChar(c: char) { IsAlnum(c) || c == '_' }

  predicate AllDigits(s: string) { forall i :: 0 <= i < |s| ==> IsDigit(s[i]) }

  predicate NoSpace(s: string) { forall i :: 0 <= i < |s| ==> !IsSpace(s[i]) }

  predicate IsBlank(s: string) { forall i :: 0 <= i < |s| ==> IsSpace(s[i]) }

  // ---------------------------------------------------------------- trimming

  function TrimStart(s: string): (r: string)
    ensures |r| <= |s|
    ensures r == [] || !IsSpace(r[0])
    ensures forall k :: 0 <= k < |s| - |r| ==> IsSpace(s[k])
  {
    if s != [] && IsSpace(s[0]) then TrimStart(s[1..]) else s
  }

  /** `trimStart` keeps a suffix. */
  lemma {:induction false} TrimStartSuffix(s: string)
    ensures TrimStart(s) == s[|s| - |TrimStart(s)|..]
  {
    if s != [] && IsSpace(s[0]) {
      TrimStartSuffix(s[1..]);
      assert s[1..][|s| - 1 - |TrimStart(s)|..] == s[|s| - |TrimStart(s)|..];
    }
  }

  function TrimEnd(s: string): (r: string)
    ensures |r| <= |s|
    ensures r == [] || !IsSpace(r[|r| - 1])
    ensures forall k :: |r| <= k < |s| ==> IsSpace(s[k])
  {
    if s != [] && IsSpace(s[|s| - 1]) then TrimEnd(s[..|s| - 1]) else s
  }

  /** `trimEnd` keeps a prefix. */
  lemma {:induction false} TrimEndPrefix(s: string)
    ensures TrimEnd(s) == s[..|TrimEnd(s)|]
  {
    if s != [] && IsSpace(s[|s| - 1]) {
      TrimEndPrefix(s[..|s| - 1]);
      assert s[..|s| - 1][..|TrimEnd(s)|] == s[..|TrimEnd(s)|];
    }
  }

  /** `String.prototype.trim`: the longest slice with no whitespace at either end. */
  function Trim(s: string): (r: string)
    ensures exists i, j :: 0 <= i <= j <= |s| && r == s[i..j]
    ensures r == [] || (!IsSpace(r[0]) && !IsSpace(r[|r| - 1]))
    ensures r == [] <==> IsBlank(s)
  {
    var t := TrimStart(s);
    var r := TrimEnd(t);
    ghost var i := |s| - |t|;
    TrimStartSuffix(s);
    TrimEndPrefix(t);
    assert t == s[i..];
    assert r == t[..|r|];
    assert r == s[i..i + |r|];
    TrimEmptyOnlyIfBlank(s);
    r
  }

  /** `r` is `s` with a whitespace prefix and a whitespace suffix cut off. */
  ghost predicate StripsEnds(s: string, r: string) {
    exists i, j :: 0 <= i <= j <= |s| && r == s[i..j] && IsBlank(s[..i]) && IsBlank(s[j..])
  }

  /**
   * `trim` removes whitespace at the two ends and nothing else. Stated beside
   * Trim rather than in its contract, where it would be assumed at every use.
   */
  lemma TrimStripsEnds(s: string)
    ensures StripsEnds(s, Trim(s))
  {
    var t := TrimStart(s);
    var r := TrimEnd(t);
    var i := |s| - |t|;
    TrimStartSuffix(s);
    TrimEndPrefix(t);
    assert t == s[i..];
    assert r == s[i..i + |r|];
    assert IsBlank(s[..i]) && IsBlank(s[i + |r|..]);
  }

  lemma TrimEmptyOnlyIfBlank(s: string)
    ensures TrimEnd(TrimStart(s)) == [] ==> IsBlank(s)
  {
    var t := TrimStart(s);
    if TrimEnd(t) == [] {
      assert t == [];
    }
  }

  lemma TrimOfTrimmed(s: string)
    requires s == [] || (!IsSpace(s[0]) && !IsSpace(s[|s| - 1]))
    ensures Trim(s) == s
  {
  }

  lemma TrimIdempotent(s: string)
    ensures Trim(Trim(s)) == Trim(s)
  {
    TrimOfTrimmed(Trim(s));
  }

  // ----------------------------------------------------------- case mapping

  function LowerChar(c: char): char {
    if 'A' <= c <= 'Z' then (c as int + 32) as char else c
  }

  /** `toLowerCase` on the ASCII range. */
  function ToLower(s: string): (r: string)
    ensures |r| == |s|
    ensures forall i :: 0 <= i < |s| ==> r[i] == LowerChar(s[i])
  {
    seq(|s|, i requires 0 <= i < |s| => LowerChar(s[i]))
  }

  lemma ToLowerIdempotent(s: string)
    ensures ToLower(ToLower(s)) == ToLower(s)
  {
  }

  lemma LowerCharSpace(c: char)
    ensures IsSpace(LowerChar(c)) <==> IsSpace(c)
  {
  }

  /** Lower-casing never creates or removes whitespace, so it commutes with trimming. */
  lemma {:induction false} TrimStartToLower(s: string)
    ensures TrimStart(ToLower(s)) == ToLower(TrimStart(s))
  {
    if s != [] {
      assert ToLower(s)[1..] == ToLower(s[1..]);
      LowerCharSpace(s[0]);
      if IsSpace(s[0]) {
        TrimStartToLower(s[1..]);
      }
    }
  }

  lemma {:induction false} TrimEndToLower(s: string)
    ensures TrimEnd(ToLower(s)) == ToLower(TrimEnd(s))
  {
    if s != [] {
      assert ToLower(s)[..|s| - 1] == ToLower(s[..|s| - 1]);
      LowerCharSpace(s[|s| - 1]);
      if IsSpace(s[|s| - 1]) {
        TrimEndToLower(s[..|s| - 1]);
      }
    }
  }

  lemma TrimToLower(s: string)
    ensures Trim(ToLower(s)) == ToLower(Trim(s))
  {
    TrimStartToLower(s);
    TrimEndToLower(TrimStart(s));
  }

  /** Case-insensitive (ASCII) prefix test; `p` is given in lower case. */
  predicate StartsWithCI(s: string, p: string) {
    |p| <= |s| && ToLower(s[..|p|]) == p
  }

  predicate StartsWith(s: string, p: string) {
    |p| <= |s| && s[..|p|] == p
  }

  predicate StartsAt(s: string, i: nat, p: string) {
    i + |p| <= |s| && s[i..i + |p|] == p
  }

  predicate StartsAtCI(s: string, i: nat, p: string) {
    i + |p| <= |s| && ToLower(s[i..i + |p|]) == p
  }

  /** `s.includes(p)` */
  predicate Contains(s: string, p: string) {
    exists i :: 0 <= i <= |s| && StartsAt(s, i, p)
  }

  // ------------------------------------------------------ decimal numerals

  function DigitChar(d: nat): (c: char)
    requires d < 10
    ensures IsDigit(c)
  {
    ('0' as int + d) as char
  }

  function DigitValue(c: char): (d: nat)
    requires IsDigit(c)
    ensures d < 10 && DigitChar(d) == c
  {
    c as int - '0' as int
  }

  /** `String(n)` for a non-negative integer. */
  function NatToString(n: nat): (r: string)
    ensures |r| > 0 && AllDigits(r)
    ensures r[0] == '0' ==> n == 0
  {
    if n < 10 then [DigitChar(n)] else NatToString(n / 10) + [DigitChar(n % 10)]
  }

  /** `String(n)` for an integer. */
  function IntToString(n: int): (r: string)
    ensures |r| > 0
  {
    if n < 0 then "-" + NatToString(-n) else NatToString(n)
  }

  /** The value of a string of decimal digits. */
  function ParseDigits(s: string): nat
    requires AllDigits(s)
  {
    if s == [] then 0 else ParseDigits(s[..|s| - 1]) * 10 + DigitValue(s[|s| - 1])
  }

  lemma {:induction false} ParseNatToString(n: nat)
    ensures ParseDigits(NatToString(n)) == n
  {
    if n >= 10 {
      var r := NatToString(n);
      assert r[..|r| - 1] == NatToString(n / 10);
      ParseNatToString(n / 10);
    }
  }

  lemma {:induction false} NatToStringInjective(m: nat, n: nat)
    requires NatToString(m) == NatToString(n)
    ensures m == n
  {
    ParseNatToString(m);
    ParseNatToString(n);
  }

  // -------------------------------------------------------------- replacing

  /** `s.replace(/pat/g, rep)` for a literal pattern: leftmost, non-overlapping, not rescanned. */
  function ReplaceAll(s: string, pat: string, rep: string): (r: string)
    requires |pat| > 0
    decreases |s|
  {
    if |s| < |pat| then s
    else if s[..|pat|] == pat then rep + ReplaceAll(s[|pat|..], pat, rep)
    else [s[0]] + ReplaceAll(s[1..], pat, rep)
  }

  /** A replacement no longer than the pattern never lengthens the text. */
  lemma {:induction false} ReplaceAllNoLonger(s: string, pat: string, rep: string)
    requires |pat| > 0 && |rep| <= |pat|
    ensures |ReplaceAll(s, pat, rep)| <= |s|
    decreases |s|
  {
    if |s| >= |pat| {
      if s[..|pat|] == pat {
        ReplaceAllNoLonger(s[|pat|..], pat, rep);
      } else {
        ReplaceAllNoLonger(s[1..], pat, rep);
      }
    }
  }

  /** A prefix in which no match starts is copied through unchanged. */
  lemma {:induction false} ReplaceAllKeepsPrefix(a: string, t: string, pat: string, rep: string)
    requires |pat| > 0 && forall i :: 0 <= i < |a| ==> !StartsAt(a + t, i, pat)
    ensures ReplaceAll(a + t, pat, rep) == a + ReplaceAll(t, pat, rep)
    decreases |a|
  {
    if a == [] {
      assert a + t == t;
    } else {
      var s := a + t;
      if |s| >= |pat| {
        assert !StartsAt(s, 0, pat);
        assert s[1..] == a[1..] + t;
        forall i | 0 <= i < |a| - 1 ensures !StartsAt(a[1..] + t, i, pat) {
          assert !StartsAt(s, i + 1, pat);
          if i + |pat| <= |a[1..] + t| {
            assert (a[1..] + t)[i..i + |pat|] == s[i + 1..i + 1 + |pat|];
          }
        }
        ReplaceAllKeepsPrefix(a[1..], t, pat, rep);
        assert [a[0]] + a[1..] == a;
      }
    }
  }

  lemma {:induction false} ReplaceAllAbsent(s: string, pat: string, rep: string)
    requires |pat| > 0 && !Contains(s, pat)
    ensures ReplaceAll(s, pat, rep) == s
    decreases |s|
  {
    if |s| >= |pat| {
      assert !StartsAt(s, 0, pat);
      assert !Contains(s[1..], pat) by {
        forall i | 0 <= i <= |s[1..]| ensures !StartsAt(s[1..], i, pat) {
          assert !StartsAt(s, i + 1, pat);
          if i + |pat| <= |s[1..]| { assert s[1..][i..i + |pat|] == s[i + 1..i + 1 + |pat|]; }
        }
      }
      ReplaceAllAbsent(s[1..], pat, rep);
    }
  }

  /** `s.replace(/\s+/g, " ")`: every maximal run of whitespace becomes one space. */
  function CollapseSpaces(s: string): (r: string)
    ensures |r| <= |s|
    ensures r == [] <==> s == []
    ensures r != [] && r[0] == ' ' <==> s != [] && IsSpace(s[0])
    ensures forall k :: 0 <= k < |r| && IsSpace(r[k]) ==> r[k] == ' '
    ensures forall k :: 0 <= k < |r| - 1 && r[k] == ' ' ==> r[k + 1] != ' '
    decreases |s|
  {
    if s == [] then []
    else if IsSpace(s[0]) then " " + CollapseSpaces(TrimStart(s))
    else [s[0]] + CollapseSpaces(s[1..])
  }

  predicate NotSpace(c: char) { !IsSpace(c) }

  /** Collapsing whitespace keeps every other character, in order. */
  lemma {:induction false} CollapseKeepsWords(s: string)
    ensures KeepOnly(CollapseSpaces(s), NotSpace) == KeepOnly(s, NotSpace)
    decreases |s|
  {
    if s != [] {
      if IsSpace(s[0]) {
        TrimStartKeepsWords(s);
        CollapseKeepsWords(TrimStart(s));
        assert (" " + CollapseSpaces(TrimStart(s)))[1..] == CollapseSpaces(TrimStart(s));
      } else {
        CollapseKeepsWords(s[1..]);
        assert ([s[0]] + CollapseSpaces(s[1..]))[1..] == CollapseSpaces(s[1..]);
      }
    }
  }

  /** `trimStart` drops only whitespace. */
  lemma {:induction false} TrimStartKeepsWords(s: string)
    ensures KeepOnly(TrimStart(s), NotSpace) == KeepOnly(s, NotSpace)
    decreases |s|
  {
    if s != [] && IsSpace(s[0]) {
      TrimStartKeepsWords(s[1..]);
    }
  }

  /** Keep only the characters `keep` accepts (`s.replace(/[^...]/g, "")`). */
  function KeepOnly(s: string, keep: char -> bool): (r: string)
    ensures |r| <= |s|
    ensures forall i :: 0 <= i < |r| ==> keep(r[i])
  {
    if s == [] then [] else (if keep(s[0]) then [s[0]] else []) + KeepOnly(s[1..], keep)
  }

  /** Every kept character comes from `s`, every accepted character of `s` is kept, and nothing is kept only when nothing is accepted. */
  lemma {:induction false} KeepOnlyExact(s: string, keep: char -> bool)
    ensures forall c :: c in KeepOnly(s, keep) <==> c in s && keep(c)
    ensures KeepOnly(s, keep) == [] <==> forall i :: 0 <= i < |s| ==> !keep(s[i])
  {
    if s != [] {
      KeepOnlyExact(s[1..], keep);
      assert s == [s[0]] + s[1..];
      if KeepOnly(s, keep) == [] {
        forall i | 0 <= i < |s| ensures !keep(s[i]) {
          if i > 0 { assert s[i] == s[1..][i - 1]; }
        }
      }
    }
  }

  /** The kept characters of a concatenation are those of each part, in order. */
  lemma {:induction false} KeepOnlyAppend(a: string, b: string, keep: char -> bool)
    ensures KeepOnly(a + b, keep) == KeepOnly(a, keep) + KeepOnly(b, keep)
  {
    if a == [] {
      assert a + b == b;
    } else {
      assert (a + b)[1..] == a[1..] + b;
      KeepOnlyAppend(a[1..], b, keep);
    }
  }

  /** One character is kept exactly when `keep` accepts it. */
  lemma KeepOnlyChar(c: char, keep: char -> bool)
    ensures KeepOnly([c], keep) == if keep(c) then [c] else []
  {
    assert [c][1..] == [];
  }

  lemma {:induction false} KeepOnlyAll(s: string, keep: char -> bool)
    requires forall i :: 0 <= i < |s| ==> keep(s[i])
    ensures KeepOnly(s, keep) == s
  {
    if s != [] { KeepOnlyAll(s[1..], keep); }
  }

  /** The end of the longest run of characters satisfying `p` that starts at `i`. */
  function RunEnd(s: string, i: nat, p: char -> bool): (j: nat)
    requires i <= |s|
    ensures i <= j <= |s|
    ensures forall k :: i <= k < j ==> p(s[k])
    ensures j == |s| || !p(s[j])
    decreases |s| - i
  {
    if i < |s| && p(s[i]) then RunEnd(s, i + 1, p) else i
  }

  /** The run ends at the first character past `i` that fails `p`. */
  lemma RunEndAt(s: string, i: nat, j: nat, p: char -> bool)
    requires i <= j <= |s| && (j == |s| || !p(s[j])) && forall k :: i <= k < j ==> p(s[k])
    ensures RunEnd(s, i, p) == j
  {
  }

  /** A run known to reach `m` ends at or after `m`. */
  lemma {:induction false} RunEndReaches(s: string, i: nat, m: nat, p: char -> bool)
    requires i <= m <= |s| && forall k :: i <= k < m ==> p(s[k])
    ensures m <= RunEnd(s, i, p)
    decreases m - i
  {
    if i < m { RunEndReaches(s, i + 1, m, p); }
  }

  /** A case-insensitive match, character by character. */
  lemma StartsAtCIByChars(s: string, k: nat, p: string)
    requires k + |p| <= |s| && forall d :: 0 <= d < |p| ==> LowerChar(s[k + d]) == p[d]
    ensures StartsAtCI(s, k, p)
  {
    forall d | 0 <= d < |p| ensures ToLower(s[k..k + |p|])[d] == p[d] {
      assert s[k..k + |p|][d] == s[k + d];
    }
  }

  /** One character of a case-insensitive match. */
  lemma StartsAtCIChar(s: string, k: nat, p: string, d: nat)
    requires StartsAtCI(s, k, p) && d < |p|
    ensures LowerChar(s[k + d]) == p[d]
  {
    assert ToLower(s[k..k + |p|])[d] == LowerChar(s[k..k + |p|][d]);
  }

  /** One differing character rules a prefix out. */
  lemma NotStartsWith(s: string, p: string, d: nat)
    requires d < |p| && d < |s| && s[d] != p[d]
    ensures !StartsWith(s, p)
  {
    if |p| <= |s| {
      assert s[..|p|][d] == s[d];
    }
  }

  /** One differing character rules a case-insensitive match out. */
  lemma StartsAtCIMismatch(s: string, k: nat, p: string, d: nat)
    requires d < |p| && k + d < |s| && LowerChar(s[k + d]) != p[d]
    ensures !StartsAtCI(s, k, p)
  {
    if StartsAtCI(s, k, p) {
      StartsAtCIChar(s, k, p, d);
    }
  }

  // ------------------------------------------------------------ money token

  predicate IsDigitOrComma(c: char) { IsDigit(c) || c == ',' }

  predicate IsDigitOrDot(c: char) { IsDigit(c) || c == '.' }

  /** `$` followed by digits, commas and dots. */
  predicate MoneyShape(t: string) {
    |t| >= 2 && t[0] == '$' && forall i :: 1 <= i < |t| ==> IsDigitOrComma(t[i]) || t[i] == '.'
  }

  /**
   * The language of `\$[\d,]+(?:\.\d{2})?`: a dollar sign, a non-empty run of digits
   * and commas, then either nothing or a dot and exactly two digits.
   */
  predicate MoneyLang(t: string) {
    |t| >= 2 && t[0] == '$' &&
    var j := RunEnd(t, 1, IsDigitOrComma);
    j >= 2 && (j == |t| || (j + 3 == |t| && t[j] == '.' && IsDigit(t[j + 1]) && IsDigit(t[j + 2])))
  }

  /** Some word of the money language starts at `i`. */
  ghost predicate HasMoneyAt(s: string, i: nat) {
    exists t :: MoneyLang(t) && StartsAt(s, i, t)
  }

  /** `t` is the match at `i`: a word of the language there, and the longest one, as greedy matching takes. */
  ghost predicate MoneyMatch(s: string, i: nat, t: string) {
    MoneyLang(t) && StartsAt(s, i, t) && forall u :: MoneyLang(u) && StartsAt(s, i, u) ==> |u| <= |t|
  }

  /** Where the greedy match that starts with `$` at `i` ends: the digit/comma run, then `.dd` if present. */
  function MoneyEnd(s: string, i: nat): (k: nat)
    requires i + 1 <= |s|
    ensures i + 1 <= k <= |s|
  {
    var j := RunEnd(s, i + 1, IsDigitOrComma);
    if j + 3 <= |s| && s[j] == '.' && IsDigit(s[j + 1]) && IsDigit(s[j + 2]) then j + 3 else j
  }

  /** Any word of the language at `i` begins `$` and a digit or comma, and ends no later than `MoneyEnd`. */
  lemma MoneyPrefixBound(s: string, i: nat, t: string)
    requires MoneyLang(t) && StartsAt(s, i, t)
    ensures i + 1 < |s| && s[i] == '$' && IsDigitOrComma(s[i + 1]) && i + |t| <= MoneyEnd(s, i)
  {
    var jt := RunEnd(t, 1, IsDigitOrComma);
    assert t == s[i..i + |t|];
    assert s[i] == t[0] && s[i + 1] == t[1];
    forall k | i + 1 <= k < i + jt ensures IsDigitOrComma(s[k]) {
      assert s[k] == t[k - i];
    }
    RunEndReaches(s, i + 1, i + jt, IsDigitOrComma);
    if jt < |t| {
      assert s[i + jt] == t[jt] && s[i + jt + 1] == t[jt + 1] && s[i + jt + 2] == t[jt + 2];
      RunEndAt(s, i + 1, i + jt, IsDigitOrComma);
    }
  }

  /** The greedy match is a word of the language that starts at `i`. */
  lemma MoneyEndInLang(s: string, i: nat)
    requires i + 1 < |s| && s[i] == '$' && IsDigitOrComma(s[i + 1])
    ensures MoneyLang(s[i..MoneyEnd(s, i)]) && StartsAt(s, i, s[i..MoneyEnd(s, i)])
  {
    var j := RunEnd(s, i + 1, IsDigitOrComma);
    var k := MoneyEnd(s, i);
    var t := s[i..k];
    RunEndReaches(s, i + 1, i + 2, IsDigitOrComma);
    forall d | 1 <= d < j - i ensures IsDigitOrComma(t[d]) {
      assert t[d] == s[i + d];
    }
    if k != j {
      assert t[j - i] == s[j];
    }
    RunEndAt(t, 1, j - i, IsDigitOrComma);
  }

  /** The match of `\$[\d,]+(?:\.\d{2})?` that starts at `i`, if there is one. */
  function MoneyAt(s: string, i: nat): (r: Option<string>)
    requires i <= |s|
    ensures r.Some? ==> MoneyShape(r.value) && MoneyMatch(s, i, r.value)
    ensures r.None? <==> !HasMoneyAt(s, i)
    ensures r.Some? <==> i + 1 < |s| && s[i] == '$' && IsDigitOrComma(s[i + 1])
  {
    if i + 1 < |s| && s[i] == '$' && IsDigitOrComma(s[i + 1]) then
      MoneyAtLongest(s, i);
      MoneyEndInLang(s, i);
      Some(s[i..MoneyEnd(s, i)])
    else
      MoneyAtLongest(s, i);
      None
  }

  /** Every word of the language at `i` is bounded by the greedy match. */
  lemma MoneyAtLongest(s: string, i: nat)
    requires i <= |s|
    ensures forall t :: MoneyLang(t) && StartsAt(s, i, t) ==>
      i + 1 < |s| && s[i] == '$' && IsDigitOrComma(s[i + 1]) && i + |t| <= MoneyEnd(s, i)
  {
    forall t | MoneyLang(t) && StartsAt(s, i, t)
      ensures i + 1 < |s| && s[i] == '$' && IsDigitOrComma(s[i + 1]) && i + |t| <= MoneyEnd(s, i)
    {
      MoneyPrefixBound(s, i, t);
    }
  }

  /** The leftmost money token at or after `i` (`s.match(/\$[\d,]+(?:\.\d{2})?/)`). */
  function MoneyFrom(s: string, i: nat): (r: Option<string>)
    requires i <= |s|
    ensures r.Some? ==> MoneyShape(r.value) && exists k :: i <= k <= |s| && MoneyAt(s, k) == r &&
                                                        (forall j :: i <= j < k ==> MoneyAt(s, j).None?)
    ensures r.None? ==> forall k :: i <= k <= |s| ==> MoneyAt(s, k).None?
    decreases |s| - i
  {
    if i == |s| then None
    else if MoneyAt(s, i).Some? then MoneyAt(s, i)
    else MoneyFrom(s, i + 1)
  }

  function MoneyToken(s: string): Option<string> { MoneyFrom(s, 0) }

  /** The token is the longest word of the language at the leftmost position where one starts. */
  lemma MoneyFromMatch(s: string, i: nat)
    requires i <= |s|
    ensures MoneyFrom(s, i).Some? ==>
      exists k :: i <= k <= |s| && MoneyMatch(s, k, MoneyFrom(s, i).value) &&
                  (forall j :: i <= j < k ==> !HasMoneyAt(s, j))
    ensures MoneyFrom(s, i).None? <==> forall k :: i <= k <= |s| ==> !HasMoneyAt(s, k)
  {
    var r := MoneyFrom(s, i);
    if r.Some? {
      var k :| i <= k <= |s| && MoneyAt(s, k) == r && (forall j :: i <= j < k ==> MoneyAt(s, j).None?);
      assert MoneyMatch(s, k, r.value);
      assert HasMoneyAt(s, k);
      forall j | i <= j < k ensures !HasMoneyAt(s, j) {
        assert MoneyAt(s, j).None?;
      }
    } else {
      forall k | i <= k <= |s| ensures !HasMoneyAt(s, k) {
        assert MoneyAt(s, k).None?;
      }
    }
  }

  /** A string without a dollar sign holds no money token. */
  lemma NoDollarNoMoney(s: string, i: nat)
    requires i <= |s|
    requires forall k :: 0 <= k < |s| ==> s[k] != '$'
    ensures MoneyFrom(s, i).None?
  {
  }
}
