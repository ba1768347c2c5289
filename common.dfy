/** Helpers shared by the backend and the client models: an optional value,
    JavaScript/Python truthiness of strings, decimal rendering of numbers,
    prefix and substring tests, and the two list operations both halves of
    the system rely on (keep the rows that satisfy a test, find the first). */
module Common {

  datatype Option<T> = None | Some(value: T)

  /** A string is truthy, in JavaScript and in Python alike, exactly when it is non-empty. */
  predicate Truthy(s: string) {
    s != ""
  }

  /** A possibly absent string (`null`, `undefined`, a missing JSON key) is truthy
      when it is present and non-empty. */
  predicate Present(o: Option<string>) {
    o.Some? && o.value != ""
  }

  predicate IsDigit(c: char) {
    '0' <= c <= '9'
  }

  function DigitChar(d: nat): (c: char)
    requires d < 10
    ensures IsDigit(c) && c as int - '0' as int == d
  {
    ('0' as int + d) as char
  }

  /** The value of a non-empty run of decimal digits. */
  function DigitsValue(s: string): nat
    requires forall i :: 0 <= i < |s| ==> IsDigit(s[i])
  {
    if s == [] then 0
    else
      assert IsDigit(s[|s| - 1]);
      DigitsValue(s[..|s| - 1]) * 10 + (s[|s| - 1] as int - '0' as int)
  }

  /** `String(n)` in JavaScript, `str(n)` in Python, for a natural number. */
  function DecimalString(n: nat): (s: string)
    ensures |s| >= 1
    ensures forall i :: 0 <= i < |s| ==> IsDigit(s[i])
    ensures DigitsValue(s) == n
  {
    if n < 10 then [DigitChar(n)]
    else
      var prefix := DecimalString(n / 10);
      var s := prefix + [DigitChar(n % 10)];
      assert s[..|s| - 1] == prefix;
      s
  }

  predicate StartsWith(s: string, prefix: string) {
    |prefix| <= |s| && s[..|prefix|] == prefix
  }

  predicate EndsWith(s: string, suffix: string) {
    |suffix| <= |s| && s[|s| - |suffix|..] == suffix
  }

  /** `s.includes(sub)` in JavaScript. */
  predicate Contains(s: string, sub: string)
    decreases |s|
  {
    StartsWith(s, sub) || (s != [] && Contains(s[1..], sub))
  }

  /** The rows of `s` that satisfy `p`, in their original order
      (a Django `filter`, a Python comprehension with a condition). */
  function Filter<T>(s: seq<T>, p: T -> bool): (r: seq<T>)
    ensures |r| <= |s|
    ensures forall i :: 0 <= i < |r| ==> r[i] in s && p(r[i])
  {
    if s == [] then []
    else (if p(s[0]) then [s[0]] else []) + Filter(s[1..], p)
  }

  /** No row that satisfies `p` is dropped. */
  lemma {:induction false} FilterComplete<T>(s: seq<T>, p: T -> bool)
    ensures forall i :: 0 <= i < |s| && p(s[i]) ==> s[i] in Filter(s, p)
  {
    if s != [] {
      FilterComplete(s[1..], p);
      forall i | 0 <= i < |s| && p(s[i]) ensures s[i] in Filter(s, p) {
        if i > 0 {
          assert s[i] == s[1..][i - 1];
        }
      }
    }
  }

  lemma {:induction false} FilterNone<T>(s: seq<T>, p: T -> bool)
    requires forall i :: 0 <= i < |s| ==> !p(s[i])
    ensures Filter(s, p) == []
  {
    if s != [] {
      FilterNone(s[1..], p);
    }
  }

  lemma {:induction false} FilterAppend<T>(a: seq<T>, b: seq<T>, p: T -> bool)
    ensures Filter(a + b, p) == Filter(a, p) + Filter(b, p)
  {
    if a == [] {
      assert a + b == b;
    } else {
      assert (a + b)[1..] == a[1..] + b;
      FilterAppend(a[1..], b, p);
    }
  }

  /** Two tests that agree on every row keep the same rows. */
  lemma {:induction false} FilterSameOn<T>(s: seq<T>, p: T -> bool, q: T -> bool)
    requires forall i :: 0 <= i < |s| ==> p(s[i]) == q(s[i])
    ensures Filter(s, p) == Filter(s, q)
  {
    if s != [] {
      FilterSameOn(s[1..], p, q);
    }
  }

  lemma TakeCons<T>(s: seq<T>, k: nat)
    requires 0 < k <= |s|
    ensures s[..k] == [s[0]] + s[1..][..k - 1]
  {
    assert forall i :: 0 <= i < k ==> s[..k][i] == ([s[0]] + s[1..][..k - 1])[i];
  }

  lemma AppendAssoc<T>(a: seq<T>, b: seq<T>, c: seq<T>)
    ensures a + (b + c) == (a + b) + c
  {
  }

  /** Index of the first element that satisfies `p`: JavaScript's `Array.find`,
      and Django's `objects.get` on a key that is unique. */
  function FirstIndex<T>(s: seq<T>, p: T -> bool): (r: Option<nat>)
    ensures r.Some? ==> r.value < |s| && p(s[r.value]) && forall j :: 0 <= j < r.value ==> !p(s[j])
    ensures r.None? <==> forall j :: 0 <= j < |s| ==> !p(s[j])
  {
    if s == [] then None
    else if p(s[0]) then Some(0)
    else match FirstIndex(s[1..], p)
      case None => None
      case Some(k) => Some(k + 1)
  }

  /** Two tests that agree on every row find the same first row. */
  lemma {:induction false} FirstIndexSameOn<T>(s: seq<T>, p: T -> bool, q: T -> bool)
    requires forall i :: 0 <= i < |s| ==> p(s[i]) == q(s[i])
    ensures FirstIndex(s, p) == FirstIndex(s, q)
  {
    if s != [] {
      FirstIndexSameOn(s[1..], p, q);
    }
  }

  /** No two rows of `s` share a key: a primary key or a unique constraint.
      Stated row by row (the first row's key differs from every later one, and
      so on down the table) so that a proof unfolds it only as far as it needs. */
  ghost predicate DistinctBy<T, K>(s: seq<T>, key: T -> K)
    decreases |s|
  {
    s == [] || ((forall j :: 1 <= j < |s| ==> key(s[j]) != key(s[0])) && DistinctBy(s[1..], key))
  }

  /** The same constraint, stated pair by pair. */
  ghost predicate PairwiseDistinct<T, K>(s: seq<T>, key: T -> K) {
    forall i, j :: 0 <= i < j < |s| ==> key(s[i]) != key(s[j])
  }

  lemma {:induction false} DistinctByPairwise<T, K>(s: seq<T>, key: T -> K)
    ensures DistinctBy(s, key) <==> PairwiseDistinct(s, key)
  {
    if s != [] {
      DistinctByPairwise(s[1..], key);
      if PairwiseDistinct(s, key) {
        assert PairwiseDistinct(s[1..], key) by {
          forall i, j | 0 <= i < j < |s[1..]| ensures key(s[1..][i]) != key(s[1..][j]) {
            assert s[1..][i] == s[i + 1] && s[1..][j] == s[j + 1];
          }
        }
      }
      if DistinctBy(s, key) {
        forall i, j | 0 <= i < j < |s| ensures key(s[i]) != key(s[j]) {
          if i > 0 {
            assert s[i] == s[1..][i - 1] && s[j] == s[1..][j - 1];
          }
        }
      }
    }
  }

  /** Two different rows of a table with distinct keys have different keys. */
  lemma DistinctAt<T, K>(s: seq<T>, key: T -> K, a: nat, b: nat)
    requires DistinctBy(s, key) && a < |s| && b < |s| && a != b
    ensures key(s[a]) != key(s[b])
  {
    DistinctByPairwise(s, key);
    if a < b {
      assert key(s[a]) != key(s[b]);
    } else {
      assert key(s[b]) != key(s[a]);
    }
  }

  lemma DistinctAppend<T, K>(s: seq<T>, x: T, key: T -> K)
    requires DistinctBy(s, key)
    requires forall i :: 0 <= i < |s| ==> key(s[i]) != key(x)
    ensures DistinctBy(s + [x], key)
  {
    var r := s + [x];
    forall i, j | 0 <= i < j < |r| ensures key(r[i]) != key(r[j]) {
      assert r[i] == s[i];
      if j < |s| {
        assert r[j] == s[j];
        DistinctAt(s, key, i, j);
      }
    }
    DistinctByPairwise(r, key);
  }

  lemma DistinctReplace<T, K>(s: seq<T>, i: nat, x: T, key: T -> K)
    requires i < |s| && DistinctBy(s, key) && key(x) == key(s[i])
    ensures DistinctBy(s[i := x], key)
  {
    var r := s[i := x];
    forall a, b | 0 <= a < b < |r| ensures key(r[a]) != key(r[b]) {
      DistinctAt(s, key, a, b);
    }
    DistinctByPairwise(r, key);
  }

  lemma DistinctRemove<T, K>(s: seq<T>, i: nat, key: T -> K)
    requires i < |s| && DistinctBy(s, key)
    ensures DistinctBy(s[..i] + s[i + 1..], key)
  {
    var r := s[..i] + s[i + 1..];
    forall a, b | 0 <= a < b < |r| ensures key(r[a]) != key(r[b]) {
      var a' := if a < i then a else a + 1;
      var b' := if b < i then b else b + 1;
      assert r[a] == s[a'] && r[b] == s[b'];
      DistinctAt(s, key, a', b');
    }
    DistinctByPairwise(r, key);
  }

  /** Keeping only some rows never makes two rows share a key. */
  lemma {:induction false} FilterDistinct<T, K>(s: seq<T>, p: T -> bool, key: T -> K)
    requires DistinctBy(s, key)
    ensures DistinctBy(Filter(s, p), key)
  {
    if s != [] {
      FilterDistinct(s[1..], p, key);
      var rest := Filter(s[1..], p);
      if p(s[0]) {
        var r := [s[0]] + rest;
        forall k | 1 <= k < |r| ensures key(r[k]) != key(r[0]) {
          var m :| 0 <= m < |s[1..]| && s[1..][m] == rest[k - 1];
          assert s[m + 1] == r[k];
        }
        assert r[1..] == rest;
      } else {
        assert Filter(s, p) == rest;
      }
    }
  }
}
