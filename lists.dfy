/**
 * Insertion-ordered de-duplication, as JavaScript's `Set` and `Map` give it:
 * `Array.from(new Set(xs))` keeps the first occurrence of every element, and a
 * `Map` filled with "set only if absent" keeps the first element per key.
 */
module Lists {
  import opened Wrappers

  predicate Distinct<T(==)>(s: seq<T>) {
    forall i, j :: 0 <= i < j < |s| ==> s[i] != s[j]
  }

  /** The position of the first occurrence of `x` in `xs`. */
  function FirstIndex<T(==)>(xs: seq<T>, x: T): (i: nat)
    requires x in xs
    ensures i < |xs| && xs[i] == x && x !in xs[..i]
  {
    if xs[0] == x then 0 else 1 + FirstIndex(xs[1..], x)
  }

  lemma {:induction false} FirstIndexPrefix<T>(xs: seq<T>, y: T, x: T)
    requires x in xs
    ensures x in xs + [y] && FirstIndex(xs + [y], x) == FirstIndex(xs, x)
  {
    if xs[0] != x {
      assert (xs + [y])[1..] == xs[1..] + [y];
      FirstIndexPrefix(xs[1..], y, x);
    }
  }

  lemma {:induction false} FirstIndexLast<T>(xs: seq<T>, y: T)
    requires y !in xs
    ensures FirstIndex(xs + [y], y) == |xs|
  {
    if xs != [] {
      assert (xs + [y])[1..] == xs[1..] + [y];
      FirstIndexLast(xs[1..], y);
    }
  }

  /** `Array.from(new Set(xs))`, written the way a loop builds it: append each element not yet present. */
  function Dedup<T(==)>(xs: seq<T>): (r: seq<T>)
    ensures |r| <= |xs|
  {
    if xs == [] then []
    else
      var d := Dedup(xs[..|xs| - 1]);
      if xs[|xs| - 1] in d then d else d + [xs[|xs| - 1]]
  }

  /** De-duplication keeps exactly the elements of its input ... */
  lemma {:induction false} DedupElements<T>(xs: seq<T>)
    ensures forall x :: x in Dedup(xs) <==> x in xs
  {
    if xs != [] {
      DedupElements(xs[..|xs| - 1]);
      assert xs == xs[..|xs| - 1] + [xs[|xs| - 1]];
    }
  }

  /** ... each once ... */
  lemma {:induction false} DedupDistinct<T>(xs: seq<T>)
    ensures Distinct(Dedup(xs))
  {
    if xs != [] {
      DedupDistinct(xs[..|xs| - 1]);
    }
  }

  /** ... in the order of their first occurrences. */
  lemma {:induction false} DedupOrder<T>(xs: seq<T>)
    ensures forall x :: x in Dedup(xs) ==> x in xs
    ensures forall i, j :: 0 <= i < j < |Dedup(xs)| ==>
      FirstIndex(xs, Dedup(xs)[i]) < FirstIndex(xs, Dedup(xs)[j])
  {
    DedupElements(xs);
    if xs != [] {
      var p, y := xs[..|xs| - 1], xs[|xs| - 1];
      assert xs == p + [y];
      DedupOrder(p);
      DedupElements(p);
      var d := Dedup(p);
      forall x | x in d ensures FirstIndex(xs, x) == FirstIndex(p, x) {
        FirstIndexPrefix(p, y, x);
      }
      if y !in d {
        FirstIndexLast(p, y);
        var r := Dedup(xs);
        assert r == d + [y];
        forall i, j | 0 <= i < j < |r| ensures FirstIndex(xs, r[i]) < FirstIndex(xs, r[j]) {
          assert r[i] == d[i];
          if j < |d| {
            assert r[j] == d[j];
          } else {
            assert r[j] == y;
          }
        }
      } else {
        assert Dedup(xs) == d;
      }
    }
  }

  lemma {:induction false} DedupOfDistinct<T>(xs: seq<T>)
    requires Distinct(xs)
    ensures Dedup(xs) == xs
  {
    if xs != [] {
      var p := xs[..|xs| - 1];
      DedupOfDistinct(p);
      assert xs[|xs| - 1] !in p;
    }
  }

  /** The keys that elements of `s` carry. */
  function KeySet<T, K(==)>(s: seq<T>, key: T -> Option<K>): set<K> {
    set i | 0 <= i < |s| && key(s[i]).Some? :: key(s[i]).value
  }

  /**
   * A `Map` keyed by `key` filled with `if (k && !m.has(k)) m.set(k, x)`, read back
   * with `Array.from(m.values())`: elements without a key are dropped, and per key
   * the first element wins.
   */
  function FirstByKey<T, K(==)>(xs: seq<T>, key: T -> Option<K>): (r: seq<T>)
    ensures |r| <= |xs|
  {
    if xs == [] then []
    else
      var d := FirstByKey(xs[..|xs| - 1], key);
      var k := key(xs[|xs| - 1]);
      if k.None? || k.value in KeySet(d, key) then d else d + [xs[|xs| - 1]]
  }

  lemma KeySetAppend<T, K>(s: seq<T>, x: T, key: T -> Option<K>)
    ensures KeySet(s + [x], key) == KeySet(s, key) + (if key(x).Some? then {key(x).value} else {})
  {
    var l := KeySet(s + [x], key);
    var rr := KeySet(s, key) + (if key(x).Some? then {key(x).value} else {});
    forall k | k in l ensures k in rr {
      var i :| 0 <= i < |s + [x]| && key((s + [x])[i]).Some? && key((s + [x])[i]).value == k;
      if i < |s| { assert (s + [x])[i] == s[i]; }
    }
    forall k | k in rr ensures k in l {
      if k in KeySet(s, key) {
        var i :| 0 <= i < |s| && key(s[i]).Some? && key(s[i]).value == k;
        assert (s + [x])[i] == s[i];
      } else {
        assert (s + [x])[|s|] == x;
      }
    }
  }

  /** Every element kept has a key, the keys kept are pairwise different, and they are exactly the keys of the input. */
  lemma {:induction false} FirstByKeyKeys<T, K>(xs: seq<T>, key: T -> Option<K>)
    ensures forall i :: 0 <= i < |FirstByKey(xs, key)| ==> key(FirstByKey(xs, key)[i]).Some?
    ensures forall i, j :: 0 <= i < j < |FirstByKey(xs, key)| ==>
      key(FirstByKey(xs, key)[i]) != key(FirstByKey(xs, key)[j])
    ensures KeySet(FirstByKey(xs, key), key) == KeySet(xs, key)
  {
    if xs != [] {
      var p, y := xs[..|xs| - 1], xs[|xs| - 1];
      assert xs == p + [y];
      FirstByKeyKeys(p, key);
      var d := FirstByKey(p, key);
      KeySetAppend(p, y, key);
      KeySetAppend(d, y, key);
      if key(y).Some? && key(y).value !in KeySet(d, key) {
        var r := d + [y];
        forall i | 0 <= i < |d| ensures key(r[i]) != key(y) {
          assert r[i] == d[i];
          assert key(d[i]).value in KeySet(d, key);
        }
      }
    }
  }

  /** The position of the first element of `xs` whose key is `k`. */
  function FirstWithKey<T, K(==)>(xs: seq<T>, key: T -> Option<K>, k: K): (i: nat)
    requires k in KeySet(xs, key)
    ensures i < |xs| && key(xs[i]) == Some(k)
    ensures forall j :: 0 <= j < i ==> key(xs[j]) != Some(k)
  {
    if key(xs[0]) == Some(k) then 0
    else
      assert k in KeySet(xs[1..], key) by {
        var i :| 0 <= i < |xs| && key(xs[i]).Some? && key(xs[i]).value == k;
        assert i != 0 && xs[1..][i - 1] == xs[i];
      }
      1 + FirstWithKey(xs[1..], key, k)
  }

  /** Each element kept is the first element of the input with its key (the first one wins). */
  lemma {:induction false} FirstByKeyFirstWins<T, K>(xs: seq<T>, key: T -> Option<K>)
    ensures forall i :: 0 <= i < |FirstByKey(xs, key)| ==>
      key(FirstByKey(xs, key)[i]).Some? &&
      key(FirstByKey(xs, key)[i]).value in KeySet(xs, key) &&
      FirstByKey(xs, key)[i] == xs[FirstWithKey(xs, key, key(FirstByKey(xs, key)[i]).value)]
  {
    FirstByKeyKeys(xs, key);
    if xs != [] {
      var p, y := xs[..|xs| - 1], xs[|xs| - 1];
      assert xs == p + [y];
      FirstByKeyFirstWins(p, key);
      FirstByKeyKeys(p, key);
      KeySetAppend(p, y, key);
      var d := FirstByKey(p, key);
      forall k | k in KeySet(p, key) ensures FirstWithKey(xs, key, k) == FirstWithKey(p, key, k) {
        FirstWithKeyPrefix(p, y, key, k);
      }
      if key(y).Some? && key(y).value !in KeySet(d, key) {
        FirstWithKeyLast(p, y, key);
      }
    }
  }

  lemma {:induction false} FirstWithKeyPrefix<T, K>(p: seq<T>, y: T, key: T -> Option<K>, k: K)
    requires k in KeySet(p, key)
    ensures k in KeySet(p + [y], key) && FirstWithKey(p + [y], key, k) == FirstWithKey(p, key, k)
  {
    KeySetAppend(p, y, key);
    if key(p[0]) != Some(k) {
      assert (p + [y])[1..] == p[1..] + [y];
      assert k in KeySet(p[1..], key) by {
        var i :| 0 <= i < |p| && key(p[i]).Some? && key(p[i]).value == k;
        assert i != 0 && p[1..][i - 1] == p[i];
      }
      FirstWithKeyPrefix(p[1..], y, key, k);
    }
  }

  lemma {:induction false} FirstWithKeyLast<T, K>(p: seq<T>, y: T, key: T -> Option<K>)
    requires key(y).Some? && key(y).value !in KeySet(p, key)
    ensures key(y).value in KeySet(p + [y], key) && FirstWithKey(p + [y], key, key(y).value) == |p|
  {
    KeySetAppend(p, y, key);
    if p != [] {
      assert (p + [y])[1..] == p[1..] + [y];
      assert KeySet(p[1..], key) <= KeySet(p, key) by {
        forall k | k in KeySet(p[1..], key) ensures k in KeySet(p, key) {
          var i :| 0 <= i < |p[1..]| && key(p[1..][i]).Some? && key(p[1..][i]).value == k;
          assert p[1..][i] == p[i + 1];
        }
      }
      assert key(p[0]) != key(y);
      FirstWithKeyLast(p[1..], y, key);
    }
  }

  /** `xs.filter(keep)` */
  function Filter<T>(xs: seq<T>, keep: T -> bool): (r: seq<T>)
    ensures |r| <= |xs|
    ensures forall i :: 0 <= i < |r| ==> r[i] in xs && keep(r[i])
    ensures forall i :: 0 <= i < |xs| && keep(xs[i]) ==> xs[i] in r
  {
    if xs == [] then [] else (if keep(xs[0]) then [xs[0]] else []) + Filter(xs[1..], keep)
  }

  /** The present values, in order (`.map(f).filter(Boolean)` where `f` returns an object or null). */
  function Somes<T>(xs: seq<Option<T>>): (r: seq<T>)
    ensures |r| <= |xs|
    ensures forall i :: 0 <= i < |r| ==> Some(r[i]) in xs
    ensures forall i :: 0 <= i < |xs| && xs[i].Some? ==> xs[i].value in r
  {
    if xs == [] then [] else ToSeq(xs[0]) + Somes(xs[1..])
  }

  /** A property every present value has, every value of `Somes` has. */
  lemma SomesAll<T>(xs: seq<Option<T>>, p: T -> bool)
    requires forall i :: 0 <= i < |xs| && xs[i].Some? ==> p(xs[i].value)
    ensures forall x :: x in Somes(xs) ==> p(x)
  {
    forall x | x in Somes(xs) ensures p(x) {
      var i :| 0 <= i < |Somes(xs)| && Somes(xs)[i] == x;
      var j :| 0 <= j < |xs| && xs[j] == Some(x);
    }
  }

  /** `xs.slice(0, n)` for a non-negative `n`. */
  function Take<T>(xs: seq<T>, n: nat): (r: seq<T>)
    ensures |r| <= n && |r| <= |xs| && r == xs[..|r|]
    ensures |r| == if n < |xs| then n else |xs|
  {
    if n < |xs| then xs[..n] else xs
  }

  /** Whatever follows, de-duplication keeps what it had already kept, in front. */
  lemma {:induction false} DedupExtends<T>(xs: seq<T>, ys: seq<T>)
    ensures |Dedup(xs)| <= |Dedup(xs + ys)| && Dedup(xs + ys)[..|Dedup(xs)|] == Dedup(xs)
  {
    if ys == [] {
      assert xs + ys == xs;
    } else {
      var p := ys[..|ys| - 1];
      DedupExtends(xs, p);
      assert (xs + ys)[..|xs + ys| - 1] == xs + p;
    }
  }

  lemma {:induction false} FilterAppend<T>(xs: seq<T>, ys: seq<T>, keep: T -> bool)
    ensures Filter(xs + ys, keep) == Filter(xs, keep) + Filter(ys, keep)
  {
    if xs == [] {
      assert xs + ys == ys;
    } else {
      assert (xs + ys)[1..] == xs[1..] + ys;
      FilterAppend(xs[1..], ys, keep);
    }
  }

  lemma {:induction false} FilterAll<T>(xs: seq<T>, keep: T -> bool)
    requires forall i :: 0 <= i < |xs| ==> keep(xs[i])
    ensures Filter(xs, keep) == xs
  {
    if xs != [] {
      FilterAll(xs[1..], keep);
    }
  }

  /**
   * The generic loop behind `byLink` and `byName`: a Map filled with
   * `if (k && !m.has(k)) m.set(k, x)`, represented by the keys seen so far and
   * the values in insertion order.
   */
  method CollectFirstByKey<T, K(==)>(xs: seq<T>, key: T -> Option<K>) returns (out: seq<T>)
    ensures out == FirstByKey(xs, key)
  {
    var seen: set<K> := {};
    out := [];
    for i := 0 to |xs|
      invariant out == FirstByKey(xs[..i], key)
      invariant seen == KeySet(out, key)
    {
      assert xs[..i + 1][..i] == xs[..i];
      var k := key(xs[i]);
      if k.Some? && k.value !in seen {
        KeySetAppend(out, xs[i], key);
        seen := seen + {k.value};
        out := out + [xs[i]];
      }
    }
    assert xs[..|xs|] == xs;
  }

  lemma {:induction false} FirstByKeySubset<T, K>(xs: seq<T>, key: T -> Option<K>)
    ensures forall i :: 0 <= i < |FirstByKey(xs, key)| ==> FirstByKey(xs, key)[i] in xs
  {
    if xs != [] {
      FirstByKeySubset(xs[..|xs| - 1], key);
      assert forall x :: x in xs[..|xs| - 1] ==> x in xs;
    }
  }

  /** An empty piece in the middle of a concatenation can be dropped. */
  lemma ConcatEmpty<T>(a: seq<T>, e: seq<T>, b: seq<T>)
    requires e == []
    ensures a + e + b == a + b
  {
  }

  /** Concatenation is associative. */
  lemma ConcatAssoc<T>(a: seq<T>, b: seq<T>, c: seq<T>)
    ensures (a + b) + c == a + (b + c)
  {
  }

  function FlatMap<T, U>(xs: seq<T>, f: T -> seq<U>): seq<U> {
    if xs == [] then [] else FlatMap(xs[..|xs| - 1], f) + f(xs[|xs| - 1])
  }

  lemma {:induction false} FlatMapAppend<T, U>(a: seq<T>, b: seq<T>, f: T -> seq<U>)
    ensures FlatMap(a + b, f) == FlatMap(a, f) + FlatMap(b, f)
  {
    if b == [] {
      assert a + b == a;
    } else {
      assert (a + b)[..|a + b| - 1] == a + b[..|b| - 1];
      FlatMapAppend(a, b[..|b| - 1], f);
    }
  }

  /** Each element's contribution sits between those of the elements before and after it. */
  lemma FlatMapSplit<T, U>(xs: seq<T>, i: nat, f: T -> seq<U>)
    requires i < |xs|
    ensures FlatMap(xs, f) == FlatMap(xs[..i], f) + f(xs[i]) + FlatMap(xs[i + 1..], f)
  {
    var a, x, b := xs[..i], [xs[i]], xs[i + 1..];
    SplitAt(xs, i);
    FlatMapAppend(a + x, b, f);
    FlatMapAppend(a, x, f);
    FlatMapSingle(xs[i], f);
  }

  lemma SplitAt<T>(xs: seq<T>, i: nat)
    requires i < |xs|
    ensures xs == xs[..i] + [xs[i]] + xs[i + 1..]
  {
  }

  lemma FlatMapSingle<T, U>(x: T, f: T -> seq<U>)
    ensures FlatMap([x], f) == f(x)
  {
    assert [x][..0] == [];
  }

  /** Everything in the result comes from some element's contribution. */
  lemma {:induction false} FlatMapFrom<T, U>(xs: seq<T>, f: T -> seq<U>)
    ensures forall u :: u in FlatMap(xs, f) ==> exists i :: 0 <= i < |xs| && u in f(xs[i])
  {
    if xs != [] {
      var p := xs[..|xs| - 1];
      FlatMapFrom(p, f);
      forall u | u in FlatMap(xs, f) ensures exists i :: 0 <= i < |xs| && u in f(xs[i]) {
        if u !in f(xs[|xs| - 1]) {
          assert u in FlatMap(p, f);
          var i :| 0 <= i < |p| && u in f(p[i]);
          assert p[i] == xs[i];
        }
      }
    }
  }

  /**
   * An object filled with `if (k) o[k] = val(x)` for each `x` in order: the
   * keyed elements, later ones overwriting earlier ones.
   */
  function FoldKeys<T, K, V>(xs: seq<T>, key: T -> Option<K>, val: T -> V): map<K, V> {
    if xs == [] then map[]
    else
      var m := FoldKeys(xs[..|xs| - 1], key, val);
      var k := key(xs[|xs| - 1]);
      if k.Some? then m[k.value := val(xs[|xs| - 1])] else m
  }

  /** The keys are exactly the keys of the elements, each mapped to the value of the last element with it. */
  lemma {:induction false} FoldKeysLastWins<T, K, V>(xs: seq<T>, key: T -> Option<K>, val: T -> V)
    ensures forall k :: k in FoldKeys(xs, key, val) <==> exists i :: 0 <= i < |xs| && key(xs[i]) == Some(k)
    ensures forall k :: k in FoldKeys(xs, key, val) ==>
      exists i :: 0 <= i < |xs| && key(xs[i]) == Some(k) && FoldKeys(xs, key, val)[k] == val(xs[i]) &&
        (forall j :: i < j < |xs| ==> key(xs[j]) != Some(k))
  {
    if xs != [] {
      var p, y := xs[..|xs| - 1], xs[|xs| - 1];
      var m := FoldKeys(xs, key, val);
      FoldKeysLastWins(p, key, val);
      forall k | k in m
        ensures exists i :: 0 <= i < |xs| && key(xs[i]) == Some(k) && m[k] == val(xs[i]) &&
                            (forall j :: i < j < |xs| ==> key(xs[j]) != Some(k))
      {
        if key(y) != Some(k) {
          var i :| 0 <= i < |p| && key(p[i]) == Some(k) && FoldKeys(p, key, val)[k] == val(p[i]) &&
                   (forall j :: i < j < |p| ==> key(p[j]) != Some(k));
          assert xs[i] == p[i];
          assert forall j :: i < j < |p| ==> xs[j] == p[j];
        }
      }
      forall k | exists i :: 0 <= i < |xs| && key(xs[i]) == Some(k) ensures k in m {
        var i :| 0 <= i < |xs| && key(xs[i]) == Some(k);
        if i < |p| {
          assert p[i] == xs[i];
        }
      }
    }
  }

  /** A contribution of one item exactly for the kept elements is the kept elements, mapped. */
  lemma {:induction false} FlatMapFilter<T, U>(xs: seq<T>, f: T -> seq<U>, keep: T -> bool, g: T -> U)
    requires forall x :: f(x) == if keep(x) then [g(x)] else []
    ensures |FlatMap(xs, f)| == |Filter(xs, keep)|
    ensures forall i :: 0 <= i < |FlatMap(xs, f)| ==> FlatMap(xs, f)[i] == g(Filter(xs, keep)[i])
  {
    if xs != [] {
      var x, rest := xs[0], xs[1..];
      assert xs == [x] + rest;
      FlatMapAppend([x], rest, f);
      assert [x][..0] == [];
      FlatMapFilter(rest, f, keep, g);
      MappedCons(x, FlatMap(rest, f), Filter(rest, keep), keep(x), g);
    }
  }

  lemma MappedCons<T, U>(x: T, a: seq<U>, b: seq<T>, k: bool, g: T -> U)
    requires |a| == |b| && forall i :: 0 <= i < |a| ==> a[i] == g(b[i])
    ensures var a', b' := (if k then [g(x)] else []) + a, (if k then [x] else []) + b;
      |a'| == |b'| && forall i :: 0 <= i < |a'| ==> a'[i] == g(b'[i])
  {
  }

  /** Filtering keeps exactly the accepted elements, and keeps a list without repeats free of them. */
  lemma {:induction false} FilterDistinct<T>(xs: seq<T>, keep: T -> bool)
    requires Distinct(xs)
    ensures Distinct(Filter(xs, keep))
    ensures forall x :: x in Filter(xs, keep) <==> x in xs && keep(x)
  {
    if xs != [] {
      var rest := xs[1..];
      assert Distinct(rest) by {
        forall i, j | 0 <= i < j < |rest| ensures rest[i] != rest[j] {
          assert rest[i] == xs[i + 1] && rest[j] == xs[j + 1];
        }
      }
      FilterDistinct(rest, keep);
      assert xs[0] !in rest by {
        forall i | 0 <= i < |rest| ensures rest[i] != xs[0] {
          assert rest[i] == xs[i + 1];
        }
      }
      assert xs == [xs[0]] + rest;
    }
  }

  /** Two predicates that agree on the elements filter alike. */
  lemma {:induction false} FilterSame<T>(xs: seq<T>, p: T -> bool, q: T -> bool)
    requires forall i :: 0 <= i < |xs| ==> p(xs[i]) == q(xs[i])
    ensures Filter(xs, p) == Filter(xs, q)
  {
    if xs != [] {
      assert forall i :: 0 <= i < |xs[1..]| ==> xs[1..][i] == xs[i + 1];
      FilterSame(xs[1..], p, q);
    }
  }

  /** A property every element has, every kept element has. */
  lemma FilterKeeps<T>(xs: seq<T>, keep: T -> bool, p: T -> bool)
    requires forall i :: 0 <= i < |xs| ==> p(xs[i])
    ensures forall i :: 0 <= i < |Filter(xs, keep)| ==> p(Filter(xs, keep)[i])
  {
    var r := Filter(xs, keep);
    forall i | 0 <= i < |r| ensures p(r[i]) {
      var j :| 0 <= j < |xs| && xs[j] == r[i];
    }
  }

  /** Without its first element a distinct sequence stays distinct and no longer holds that element. */
  lemma DistinctTail<T>(xs: seq<T>)
    requires xs != [] && Distinct(xs)
    ensures Distinct(xs[1..]) && xs[0] !in xs[1..]
  {
    var t := xs[1..];
    forall i, j | 0 <= i < j < |t| ensures t[i] != t[j] {
      assert t[i] == xs[i + 1] && t[j] == xs[j + 1];
    }
    forall j | 0 <= j < |t| ensures t[j] != xs[0] {
      assert t[j] == xs[j + 1];
    }
  }
}
