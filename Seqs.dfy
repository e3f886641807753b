/**
 * Sequence helpers shared by the model. A collection of the document store is a
 * sequence in insertion order; `Find` is its findOne (the first match on a key),
 * `Where` its owner-scoped find, and `Filter`, `Count` and `Sum` are the
 * filter/length/reduce folds the handlers apply to query results.
 *
 * Every helper takes its key, owner or predicate as a named top-level function,
 * so that two mentions of the same query are the same term to the verifier.
 */
module Seqs {

  datatype Option<T> = None | Some(value: T)

  /** Index of the first element of `s` whose key is `k`, or None. */
  function Find<T, K(==)>(s: seq<T>, key: T -> K, k: K): (r: Option<nat>)
    ensures r.Some? ==> r.value < |s| && key(s[r.value]) == k
    ensures r.Some? ==> forall j :: 0 <= j < r.value ==> key(s[j]) != k
    ensures r.None? <==> forall j :: 0 <= j < |s| ==> key(s[j]) != k
  {
    if |s| == 0 then None
    else if key(s[0]) == k then Some(0)
    else
      match Find(s[1..], key, k)
      case None => None
      case Some(j) => Some(j + 1)
  }

  /** No two elements of `s` share a key. */
  ghost predicate Unique<T, K>(s: seq<T>, key: T -> K) {
    forall i, j :: 0 <= i < j < |s| ==> key(s[i]) != key(s[j])
  }

  /** The keys present in `s`. */
  ghost function Keys<T, K>(s: seq<T>, key: T -> K): set<K> {
    set i | 0 <= i < |s| :: key(s[i])
  }

  /** `s` without its element at index `i`: what a delete of one document leaves. */
  function RemoveAt<T>(s: seq<T>, i: nat): (r: seq<T>)
    requires i < |s|
    ensures |r| == |s| - 1
    ensures forall j :: 0 <= j < i ==> r[j] == s[j]
    ensures forall j :: i <= j < |r| ==> r[j] == s[j + 1]
  {
    s[..i] + s[i + 1..]
  }

  /** The elements of `s` whose `f` is `v`, in order (a find filtered on one field). */
  function Where<T, U(==)>(s: seq<T>, f: T -> U, v: U): (r: seq<T>)
    ensures |r| <= |s|
    ensures forall x | x in r :: x in s && f(x) == v
    ensures forall x | x in s && f(x) == v :: x in r
  {
    if |s| == 0 then []
    else Where(s[..|s| - 1], f, v) + (if f(s[|s| - 1]) == v then [s[|s| - 1]] else [])
  }

  /** The elements of `s` that satisfy `p`, in order. */
  function Filter<T>(s: seq<T>, p: T -> bool): (r: seq<T>)
    ensures |r| <= |s|
    ensures forall x | x in r :: x in s && p(x)
    ensures forall x | x in s && p(x) :: x in r
  {
    if |s| == 0 then []
    else Filter(s[..|s| - 1], p) + (if p(s[|s| - 1]) then [s[|s| - 1]] else [])
  }

  /** Left-to-right sum of `f` over `s`, starting from 0 (a reduce). */
  function Sum<T>(s: seq<T>, f: T -> real): real {
    if |s| == 0 then 0.0 else Sum(s[..|s| - 1], f) + f(s[|s| - 1])
  }

  /** The owner-scoped view of `s` is the same before and after, for every owner but `v`. */
  ghost predicate Isolated<T, U(!new)>(before: seq<T>, after: seq<T>, f: T -> U, v: U) {
    forall w :: w != v ==> Where(after, f, w) == Where(before, f, w)
  }

  // ---------------------------------------------------------------- lemmas

  lemma {:induction false} FindIffKey<T, K>(s: seq<T>, key: T -> K, k: K)
    ensures Find(s, key, k).Some? <==> k in Keys(s, key)
  {
    var r := Find(s, key, k);
    if r.Some? {
      assert key(s[r.value]) in Keys(s, key);
    }
  }

  /** In a key-unique sequence an element is determined by its key. */
  lemma UniqueSameKey<T, K>(s: seq<T>, key: T -> K, a: T, b: T)
    requires Unique(s, key) && a in s && b in s && key(a) == key(b)
    ensures a == b
  {
    var i :| 0 <= i < |s| && s[i] == a;
    var j :| 0 <= j < |s| && s[j] == b;
    assert !(i < j) && !(j < i);
  }

  lemma FindInUnique<T, K>(s: seq<T>, key: T -> K, i: nat)
    requires Unique(s, key) && i < |s|
    ensures Find(s, key, key(s[i])) == Some(i)
  {
  }

  lemma {:induction false} KeysAppend<T, K>(s: seq<T>, x: T, key: T -> K)
    ensures Keys(s + [x], key) == Keys(s, key) + {key(x)}
  {
    var t := s + [x];
    forall k | k in Keys(t, key) ensures k in Keys(s, key) + {key(x)} {
      var i :| 0 <= i < |t| && key(t[i]) == k;
      if i < |s| { assert t[i] == s[i]; }
    }
    forall k | k in Keys(s, key) + {key(x)} ensures k in Keys(t, key) {
      if k == key(x) {
        assert key(t[|s|]) == k;
      } else {
        var i :| 0 <= i < |s| && key(s[i]) == k;
        assert key(t[i]) == k;
      }
    }
  }

  /** Appending an element whose key is new keeps keys unique. */
  lemma {:induction false} UniqueAppend<T, K>(s: seq<T>, x: T, key: T -> K)
    requires Unique(s, key) && key(x) !in Keys(s, key)
    ensures Unique(s + [x], key)
    ensures Keys(s + [x], key) == Keys(s, key) + {key(x)}
  {
    KeysAppend(s, x, key);
    var t := s + [x];
    forall i, j | 0 <= i < j < |t| ensures key(t[i]) != key(t[j]) {
      assert t[i] == s[i];
      if j == |s| {
        assert key(s[i]) in Keys(s, key);
      } else {
        assert t[j] == s[j];
      }
    }
  }

  /** Replacing an element by one with the same key keeps the keys and their uniqueness. */
  lemma {:induction false} UniqueUpdate<T, K>(s: seq<T>, i: nat, x: T, key: T -> K)
    requires Unique(s, key) && i < |s| && key(x) == key(s[i])
    ensures Unique(s[i := x], key)
    ensures Keys(s[i := x], key) == Keys(s, key)
  {
    var t := s[i := x];
    forall k | k in Keys(t, key) ensures k in Keys(s, key) {
      var j :| 0 <= j < |t| && key(t[j]) == k;
      assert key(s[j]) == k;
    }
    forall k | k in Keys(s, key) ensures k in Keys(t, key) {
      var j :| 0 <= j < |s| && key(s[j]) == k;
      assert key(t[j]) == k;
    }
  }

  /** Removing the element with key `key(s[i])` removes exactly that key. */
  lemma {:induction false} UniqueRemove<T, K>(s: seq<T>, i: nat, key: T -> K)
    requires Unique(s, key) && i < |s|
    ensures Unique(RemoveAt(s, i), key)
    ensures Keys(RemoveAt(s, i), key) == Keys(s, key) - {key(s[i])}
  {
    var t := RemoveAt(s, i);
    forall a, b | 0 <= a < b < |t| ensures key(t[a]) != key(t[b]) {
      var a' := if a < i then a else a + 1;
      var b' := if b < i then b else b + 1;
      assert t[a] == s[a'] && t[b] == s[b'];
    }
    forall k | k in Keys(t, key) ensures k in Keys(s, key) - {key(s[i])} {
      var j :| 0 <= j < |t| && key(t[j]) == k;
      var j' := if j < i then j else j + 1;
      assert t[j] == s[j'];
    }
    forall k | k in Keys(s, key) - {key(s[i])} ensures k in Keys(t, key) {
      var j :| 0 <= j < |s| && key(s[j]) == k;
      if j < i {
        assert key(t[j]) == k;
      } else {
        assert key(t[j - 1]) == k;
      }
    }
  }

  /** Removing an element keeps a property every element has. */
  lemma RemoveAtKeeps<T>(s: seq<T>, i: nat, p: T -> bool)
    requires i < |s| && forall j :: 0 <= j < |s| ==> p(s[j])
    ensures forall j :: 0 <= j < |RemoveAt(s, i)| ==> p(RemoveAt(s, i)[j])
  {
  }

  /** Distinct keys are as many as the elements. */
  lemma {:induction false} UniqueCard<T, K>(s: seq<T>, key: T -> K)
    requires Unique(s, key)
    ensures |Keys(s, key)| == |s|
  {
    if |s| > 0 {
      var p := s[..|s| - 1];
      var x := s[|s| - 1];
      assert s == p + [x];
      assert Unique(p, key);
      UniqueCard(p, key);
      KeysAppend(p, x, key);
    } else {
      assert Keys(s, key) == {};
    }
  }

  lemma {:induction false} WhereAppend<T, U>(s: seq<T>, x: T, f: T -> U, v: U)
    ensures Where(s + [x], f, v) == Where(s, f, v) + (if f(x) == v then [x] else [])
  {
    assert (s + [x])[..|s|] == s;
  }

  /** An owner's slice of a key-unique sequence is key-unique. */
  lemma {:induction false} WhereUnique<T, U, K>(s: seq<T>, f: T -> U, v: U, key: T -> K)
    requires Unique(s, key)
    ensures Unique(Where(s, f, v), key)
  {
    if |s| > 0 {
      var p := s[..|s| - 1];
      var x := s[|s| - 1];
      assert Unique(p, key);
      WhereUnique(p, f, v, key);
      if f(x) == v {
        forall k | k in Keys(Where(p, f, v), key) ensures k != key(x) {
          var i :| 0 <= i < |Where(p, f, v)| && key(Where(p, f, v)[i]) == k;
          assert Where(p, f, v)[i] in Where(p, f, v);
          var j :| 0 <= j < |p| && p[j] == Where(p, f, v)[i];
          assert s[j] == p[j];
        }
        UniqueAppend(Where(p, f, v), x, key);
      }
    }
  }

  lemma {:induction false} WhereConcat<T, U>(a: seq<T>, b: seq<T>, f: T -> U, v: U)
    ensures Where(a + b, f, v) == Where(a, f, v) + Where(b, f, v)
  {
    if |b| == 0 {
      assert a + b == a;
    } else {
      var p := b[..|b| - 1];
      var x := b[|b| - 1];
      var tail := if f(x) == v then [x] else [];
      calc {
        Where(a + b, f, v);
      == { assert a + b == (a + p) + [x]; }
        Where((a + p) + [x], f, v);
      == { WhereAppend(a + p, x, f, v); }
        Where(a + p, f, v) + tail;
      == { WhereConcat(a, p, f, v); }
        (Where(a, f, v) + Where(p, f, v)) + tail;
      ==
        Where(a, f, v) + (Where(p, f, v) + tail);
      == { assert b == p + [x]; WhereAppend(p, x, f, v); }
        Where(a, f, v) + Where(b, f, v);
      }
    }
  }

  /**
   * Two sequences of equal length that agree on every field `f`, and agree
   * element-wise wherever that field is `v`, have the same `v`-view.
   */
  lemma {:induction false} WherePointwise<T, U>(s: seq<T>, t: seq<T>, f: T -> U, v: U)
    requires |s| == |t|
    requires forall i :: 0 <= i < |s| ==> f(s[i]) == f(t[i])
    requires forall i :: 0 <= i < |s| && f(s[i]) == v ==> s[i] == t[i]
    ensures Where(s, f, v) == Where(t, f, v)
  {
    if |s| > 0 {
      WherePointwise(s[..|s| - 1], t[..|t| - 1], f, v);
    }
  }

  lemma {:induction false} IsolatedAppend<T, U(!new)>(s: seq<T>, x: T, f: T -> U, v: U)
    requires f(x) == v
    ensures Isolated(s, s + [x], f, v)
  {
    forall w | w != v ensures Where(s + [x], f, w) == Where(s, f, w) {
      WhereAppend(s, x, f, w);
    }
  }

  /** Changing only elements whose field `f` is `v`, and keeping `f`, isolates the other owners. */
  lemma {:induction false} IsolatedPointwise<T, U(!new)>(s: seq<T>, t: seq<T>, f: T -> U, v: U)
    requires |s| == |t|
    requires forall i :: 0 <= i < |s| ==> f(s[i]) == f(t[i])
    requires forall i :: 0 <= i < |s| && f(s[i]) != v ==> s[i] == t[i]
    ensures Isolated(s, t, f, v)
  {
    forall w | w != v ensures Where(t, f, w) == Where(s, f, w) {
      WherePointwise(s, t, f, w);
    }
  }

  /** Dropping one element whose field is not `w` leaves the `w`-selection unchanged. */
  lemma {:induction false} WhereDropOther<T, U>(a: seq<T>, x: T, b: seq<T>, f: T -> U, w: U)
    requires f(x) != w
    ensures Where(a + [x] + b, f, w) == Where(a + b, f, w)
  {
    WhereConcat(a + [x], b, f, w);
    WhereAppend(a, x, f, w);
    WhereConcat(a, b, f, w);
  }

  lemma {:induction false} IsolatedRemove<T, U(!new)>(s: seq<T>, i: nat, f: T -> U, v: U)
    requires i < |s| && f(s[i]) == v
    ensures Isolated(s, RemoveAt(s, i), f, v)
  {
    var a, b := s[..i], s[i + 1..];
    assert s == a + [s[i]] + b;
    assert RemoveAt(s, i) == a + b;
    forall w | w != v ensures Where(RemoveAt(s, i), f, w) == Where(s, f, w) {
      WhereDropOther(a, s[i], b, f, w);
    }
  }

  lemma {:induction false} SumAppend<T>(s: seq<T>, x: T, f: T -> real)
    ensures Sum(s + [x], f) == Sum(s, f) + f(x)
  {
    assert (s + [x])[..|s|] == s;
  }

  /**
   * When every element satisfies exactly one of `p`, `q` and `r`, the three
   * filters together have as many elements as `s`.
   */
  lemma {:induction false} FilterPartition<T>(s: seq<T>, p: T -> bool, q: T -> bool, r: T -> bool)
    requires forall x :: x in s ==> (p(x) || q(x) || r(x))
    requires forall x :: x in s ==> !(p(x) && q(x)) && !(p(x) && r(x)) && !(q(x) && r(x))
    ensures |Filter(s, p)| + |Filter(s, q)| + |Filter(s, r)| == |s|
  {
    if |s| > 0 {
      var x := s[|s| - 1];
      assert x in s;
      var p' := s[..|s| - 1];
      assert forall y :: y in p' ==> y in s;
      FilterPartition(p', p, q, r);
    }
  }

  /** Filtering keeps a key-unique sequence key-unique and adds no key. */
  lemma {:induction false} FilterUnique<T, K>(s: seq<T>, p: T -> bool, key: T -> K)
    requires Unique(s, key)
    ensures Unique(Filter(s, p), key)
    ensures Keys(Filter(s, p), key) <= Keys(s, key)
  {
    forall k | k in Keys(Filter(s, p), key) ensures k in Keys(s, key) {
      var m :| 0 <= m < |Filter(s, p)| && key(Filter(s, p)[m]) == k;
      assert Filter(s, p)[m] in Filter(s, p);
      var i :| 0 <= i < |s| && s[i] == Filter(s, p)[m];
    }
    if |s| > 0 {
      var q := s[..|s| - 1];
      var x := s[|s| - 1];
      assert s == q + [x];
      assert Unique(q, key);
      FilterUnique(q, p, key);
      FilterAppendOne(q, x, p);
      if p(x) {
        assert key(x) !in Keys(q, key);
        UniqueAppend(Filter(q, p), x, key);
      }
    }
  }

  /** Scoping to an owner and filtering commute. */
  lemma {:induction false} WhereFilterCommute<T, U>(s: seq<T>, f: T -> U, v: U, p: T -> bool)
    ensures Where(Filter(s, p), f, v) == Filter(Where(s, f, v), p)
  {
    if |s| > 0 {
      var q := s[..|s| - 1];
      var x := s[|s| - 1];
      var tail := if p(x) && f(x) == v then [x] else [];
      calc {
        Where(Filter(s, p), f, v);
      == { assert s == q + [x]; FilterAppendOne(q, x, p); WhereAppendIf(Filter(q, p), x, p(x), f, v); }
        Where(Filter(q, p), f, v) + tail;
      == { WhereFilterCommute(q, f, v, p); }
        Filter(Where(q, f, v), p) + tail;
      == { assert s == q + [x]; WhereAppend(q, x, f, v); FilterAppendIf(Where(q, f, v), x, f(x) == v, p); }
        Filter(Where(s, f, v), p);
      }
    }
  }

  /** `Where` over a sequence extended by `x` exactly when `c`. */
  lemma WhereAppendIf<T, U>(s: seq<T>, x: T, c: bool, f: T -> U, v: U)
    ensures Where(s + (if c then [x] else []), f, v) == Where(s, f, v) + (if c && f(x) == v then [x] else [])
  {
    if c {
      WhereAppend(s, x, f, v);
    } else {
      assert s + [] == s;
    }
  }

  /** `Filter` over a sequence extended by `x` exactly when `c`. */
  lemma FilterAppendIf<T>(s: seq<T>, x: T, c: bool, p: T -> bool)
    ensures Filter(s + (if c then [x] else []), p) == Filter(s, p) + (if c && p(x) then [x] else [])
  {
    if c {
      FilterAppendOne(s, x, p);
    } else {
      assert s + [] == s;
    }
  }

  /** Two predicates that agree on every element of `s` filter it the same way. */
  lemma {:induction false} FilterSame<T>(s: seq<T>, p: T -> bool, q: T -> bool)
    requires forall x :: x in s ==> (p(x) <==> q(x))
    ensures Filter(s, p) == Filter(s, q)
  {
    if |s| > 0 {
      var p' := s[..|s| - 1];
      assert s[|s| - 1] in s;
      assert forall y :: y in p' ==> y in s;
      FilterSame(p', p, q);
    }
  }

  lemma FilterAppendOne<T>(s: seq<T>, x: T, p: T -> bool)
    ensures Filter(s + [x], p) == Filter(s, p) + (if p(x) then [x] else [])
  {
    assert (s + [x])[..|s|] == s;
  }
}
