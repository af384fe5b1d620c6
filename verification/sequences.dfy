/** Facts about sequences used as Python lists and as enumerations of Python sets. */
module Sequences {

  /** The set of elements of a list: Python's `set(s)`. */
  function Elems<T>(s: seq<T>): set<T>
  {
    set x | x in s
  }

  /** No element occurs twice. */
  predicate Distinct<T(==)>(s: seq<T>)
  {
    forall i, j :: 0 <= i < j < |s| ==> s[i] != s[j]
  }

  /** `s` lists every element of `xs` exactly once, in some order: what `list(xs)`
      may return for a Python set `xs`, whose iteration order is unspecified. */
  predicate IsEnumeration<T(==)>(s: seq<T>, xs: set<T>)
  {
    Distinct(s) && Elems(s) == xs
  }

  /** `a` is `b` with some elements dropped, the rest kept in their order. */
  predicate SubsequenceOf<T(==)>(a: seq<T>, b: seq<T>)
    decreases |b|
  {
    if |a| == 0 then true
    else if |b| == 0 then false
    else (a[0] == b[0] && SubsequenceOf(a[1..], b[1..])) || SubsequenceOf(a, b[1..])
  }

  /** Whenever `r` lists `x` before `y`, `x` occurs in `s` before the first
      occurrence of `y`: `r` follows the order of first appearance in `s`. */
  predicate FirstAppearanceOrder<T(==)>(r: seq<T>, s: seq<T>)
  {
    forall i, j, k :: 0 <= i < j < |r| && 0 <= k < |s| && s[k] == r[j] ==> r[i] in s[..k]
  }

  lemma InElems<T>(s: seq<T>)
    ensures forall x :: x in Elems(s) <==> x in s
  {
  }

  lemma HeadInElems<T>(s: seq<T>)
    ensures |s| > 0 ==> s[0] in Elems(s)
  {
  }

  lemma ElemsCons<T>(x: T, s: seq<T>)
    ensures Elems([x] + s) == {x} + Elems(s)
  {
    assert forall y :: y in [x] + s <==> y == x || y in s;
  }

  lemma ElemsAppend<T>(s: seq<T>, x: T)
    ensures Elems(s + [x]) == Elems(s) + {x}
  {
    assert forall y :: y in s + [x] <==> y in s || y == x;
  }

  /** The distinct elements of `s` in order of first appearance: one deterministic
      enumeration of `set(s)`. */
  function Dedup<T(==)>(s: seq<T>): (r: seq<T>)
    ensures IsEnumeration(r, Elems(s))
    ensures SubsequenceOf(r, s)
    ensures FirstAppearanceOrder(r, s)
  {
    if |s| == 0 then []
    else
      var init, last := s[..|s| - 1], s[|s| - 1];
      var d := Dedup(init);
      assert s == init + [last];
      ElemsAppend(init, last);
      if last in d then
        SubsequenceExtend(d, init, last);
        KeepFirstAppearance(d, init, last);
        d
      else
        ElemsAppend(d, last);
        SubsequenceAppend(d, init, last);
        ExtendFirstAppearance(d, init, last);
        d + [last]
  }

  /** Appending an element already listed keeps the first-appearance order. */
  lemma KeepFirstAppearance<T>(d: seq<T>, init: seq<T>, last: T)
    requires FirstAppearanceOrder(d, init) && Elems(d) == Elems(init) && last in d
    ensures FirstAppearanceOrder(d, init + [last])
  {
    var s := init + [last];
    InElems(init);
    InElems(d);
    forall i, j, k | 0 <= i < j < |d| && 0 <= k < |s| && s[k] == d[j]
      ensures d[i] in s[..k]
    {
      if k == |init| {
        assert s[..k] == init;
        assert d[i] in d;
      } else {
        assert s[..k] == init[..k];
      }
    }
  }

  /** Appending a new element at the end of both lists keeps the first-appearance order. */
  lemma ExtendFirstAppearance<T>(d: seq<T>, init: seq<T>, last: T)
    requires FirstAppearanceOrder(d, init) && Elems(d) == Elems(init) && last !in d
    ensures FirstAppearanceOrder(d + [last], init + [last])
  {
    var s, r := init + [last], d + [last];
    InElems(init);
    InElems(d);
    forall i, j, k | 0 <= i < j < |r| && 0 <= k < |s| && s[k] == r[j]
      ensures r[i] in s[..k]
    {
      if j == |d| {
        assert last !in init;
        assert forall m :: 0 <= m < |init| ==> s[m] == init[m];
        assert k == |init|;
        assert s[..k] == init;
        assert d[i] in d;
      } else {
        assert d[j] in d;
        assert s[k] != last;
        assert k < |init|;
        assert s[..k] == init[..k];
      }
    }
  }

  /** Every list is a subsequence of itself. */
  lemma {:induction false} SubsequenceReflexive<T>(a: seq<T>)
    ensures SubsequenceOf(a, a)
    decreases |a|
  {
    if |a| > 0 {
      SubsequenceReflexive(a[1..]);
    }
  }

  /** Dropping the head of `b` keeps what was already a subsequence of its tail. */
  lemma SubsequenceSkip<T>(a: seq<T>, b: seq<T>)
    requires |b| > 0 && SubsequenceOf(a, b[1..])
    ensures SubsequenceOf(a, b)
  {
  }

  lemma {:induction false} SubsequenceExtend<T>(a: seq<T>, b: seq<T>, x: T)
    requires SubsequenceOf(a, b)
    ensures SubsequenceOf(a, b + [x])
    decreases |b|
  {
    if |a| > 0 {
      assert (b + [x])[1..] == b[1..] + [x];
      if a[0] == b[0] && SubsequenceOf(a[1..], b[1..]) {
        SubsequenceExtend(a[1..], b[1..], x);
      } else {
        SubsequenceExtend(a, b[1..], x);
      }
    }
  }

  lemma {:induction false} SubsequenceAppend<T>(a: seq<T>, b: seq<T>, x: T)
    requires SubsequenceOf(a, b)
    ensures SubsequenceOf(a + [x], b + [x])
    decreases |b|
  {
    if |a| == 0 {
      assert a + [x] == [x] && SubsequenceOf([x], [x]);
      SubsequenceDropPrefix([x], b, [x]);
    } else {
      assert (b + [x])[1..] == b[1..] + [x];
      assert (a + [x])[1..] == a[1..] + [x];
      if a[0] == b[0] && SubsequenceOf(a[1..], b[1..]) {
        SubsequenceAppend(a[1..], b[1..], x);
      } else {
        SubsequenceAppend(a, b[1..], x);
      }
    }
  }

  /** A subsequence of a suffix is a subsequence of the whole list. */
  lemma {:induction false} SubsequenceDropPrefix<T>(a: seq<T>, b: seq<T>, c: seq<T>)
    requires SubsequenceOf(a, c)
    ensures SubsequenceOf(a, b + c)
    decreases |b|
  {
    if |b| == 0 {
      assert b + c == c;
    } else {
      assert (b + c)[1..] == b[1..] + c;
      SubsequenceDropPrefix(a, b[1..], c);
    }
  }

  /** A subsequence of a subsequence is a subsequence. */
  lemma {:induction false} SubsequenceTransitive<T>(a: seq<T>, b: seq<T>, c: seq<T>)
    requires SubsequenceOf(a, b) && SubsequenceOf(b, c)
    ensures SubsequenceOf(a, c)
    decreases |c|
  {
    if |a| > 0 {
      if b[0] == c[0] && SubsequenceOf(b[1..], c[1..]) {
        if a[0] == b[0] && SubsequenceOf(a[1..], b[1..]) {
          SubsequenceTransitive(a[1..], b[1..], c[1..]);
        } else {
          SubsequenceTransitive(a, b[1..], c[1..]);
        }
      } else {
        SubsequenceTransitive(a, b, c[1..]);
      }
    }
  }

  /** The position of the first occurrence of `x` in `s`. */
  function FirstIndex<T(==)>(x: T, s: seq<T>): (k: nat)
    requires x in s
    ensures k < |s| && s[k] == x && x !in s[..k]
  {
    if s[0] == x then 0
    else
      var k := 1 + FirstIndex(x, s[1..]);
      assert s[..k] == [s[0]] + s[1..][..k - 1];
      k
  }

  /** In a list following first-appearance order, the head appears in `s` no later than any other entry. */
  lemma HeadAppearsFirst<T>(r: seq<T>, s: seq<T>, j: nat)
    requires FirstAppearanceOrder(r, s)
    requires j < |r| && r[j] in s && r[0] in s
    ensures FirstIndex(r[0], s) <= FirstIndex(r[j], s)
  {
    if j > 0 {
      var k := FirstIndex(r[j], s);
      assert r[0] in s[..k];
      var m :| 0 <= m < k && s[m] == r[0];
      var f := FirstIndex(r[0], s);
      forall m' | 0 <= m' < f
        ensures s[m'] != r[0]
      {
        assert s[m'] == s[..f][m'];
      }
    }
  }

  /** Two repeat-free lists of the same elements of `s`, both following the
      first-appearance order of `s`, are equal. */
  lemma {:induction false} FirstAppearanceUnique<T>(r: seq<T>, q: seq<T>, s: seq<T>)
    requires Distinct(r) && Distinct(q) && Elems(r) == Elems(q)
    requires forall x :: x in r ==> x in s
    requires FirstAppearanceOrder(r, s) && FirstAppearanceOrder(q, s)
    ensures r == q
    decreases |r|
  {
    InElems(r);
    InElems(q);
    if |r| == 0 {
      HeadInElems(q);
    } else {
      assert |q| > 0 by { assert r[0] in Elems(r); }
      assert q[0] in Elems(q) && r[0] in Elems(r);
      var i :| 0 <= i < |r| && r[i] == q[0];
      var j :| 0 <= j < |q| && q[j] == r[0];
      HeadAppearsFirst(r, s, i);
      HeadAppearsFirst(q, s, j);
      assert FirstIndex(r[0], s) == FirstIndex(q[0], s);
      assert r[0] == q[0];
      var r', q' := r[1..], q[1..];
      assert Elems(r') == Elems(r) - {r[0]} by {
        assert forall x :: x in r' <==> x in r && x != r[0];
      }
      assert Elems(q') == Elems(q) - {q[0]} by {
        assert forall x :: x in q' <==> x in q && x != q[0];
      }
      InElems(r');
      FirstAppearanceUnique(r', q', s);
      assert r == [r[0]] + r' && q == [q[0]] + q';
    }
  }

  /** `Dedup` is the only repeat-free listing of `set(s)` in first-appearance order. */
  lemma DedupUnique<T>(s: seq<T>, r: seq<T>)
    requires IsEnumeration(r, Elems(s)) && FirstAppearanceOrder(r, s)
    ensures r == Dedup(s)
  {
    InElems(r);
    InElems(s);
    FirstAppearanceUnique(r, Dedup(s), s);
  }
}
