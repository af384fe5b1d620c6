/** Python string comparisons the builder relies on: `str.match` with a literal
    pattern, and the ordering `sorted` uses on column names. */
module Strings {
  import opened Sequences

  /** `re.match(prefix, s)` for a pattern without metacharacters: `s` begins with `prefix`. */
  predicate StartsWith(s: string, prefix: string)
  {
    |prefix| <= |s| && s[..|prefix|] == prefix
  }

  /** Python's `<` on `str`: code point by code point, a proper prefix sorting first. */
  predicate Less(a: string, b: string)
    decreases |a|
  {
    if |a| == 0 then |b| > 0
    else |b| > 0 && (a[0] < b[0] || (a[0] == b[0] && Less(a[1..], b[1..])))
  }

  lemma {:induction false} LessIrreflexive(a: string)
    ensures !Less(a, a)
    decreases |a|
  {
    if |a| > 0 {
      LessIrreflexive(a[1..]);
    }
  }

  lemma {:induction false} LessTransitive(a: string, b: string, c: string)
    requires Less(a, b) && Less(b, c)
    ensures Less(a, c)
    decreases |a|
  {
    if |a| > 0 && a[0] == b[0] && b[0] == c[0] {
      LessTransitive(a[1..], b[1..], c[1..]);
    }
  }

  lemma LessAsymmetric(a: string, b: string)
    ensures Less(a, b) ==> !Less(b, a)
  {
    if Less(a, b) && Less(b, a) {
      LessTransitive(a, b, a);
      LessIrreflexive(a);
    }
  }

  lemma {:induction false} LessTotal(a: string, b: string)
    requires a != b
    ensures Less(a, b) || Less(b, a)
    decreases |a|
  {
    if |a| > 0 && |b| > 0 && a[0] == b[0] {
      assert a == [a[0]] + a[1..] && b == [b[0]] + b[1..];
      LessTotal(a[1..], b[1..]);
    }
  }

  /** Ascending with no repeats: what `sorted(set(...))` returns. */
  predicate StrictlySorted(s: seq<string>)
  {
    forall i, j :: 0 <= i < j < |s| ==> Less(s[i], s[j])
  }

  lemma StrictlySortedIsDistinct(s: seq<string>)
    requires StrictlySorted(s)
    ensures Distinct(s)
  {
    forall i, j | 0 <= i < j < |s|
      ensures s[i] != s[j]
    {
      LessIrreflexive(s[i]);
    }
  }

  lemma ConsSorted(h: string, t: seq<string>)
    requires StrictlySorted(t)
    requires forall e :: e in t ==> Less(h, e)
    ensures StrictlySorted([h] + t)
  {
    var s := [h] + t;
    forall i, j | 0 <= i < j < |s|
      ensures Less(s[i], s[j])
    {
      if i == 0 {
        assert s[j] == t[j - 1];
      } else {
        assert s[i] == t[i - 1] && s[j] == t[j - 1];
      }
    }
  }

  /** Adds `x` to an ascending list without repeats, keeping it one. */
  function Insert(x: string, s: seq<string>): (r: seq<string>)
    requires StrictlySorted(s)
    ensures StrictlySorted(r)
    ensures Elems(r) == Elems(s) + {x}
  {
    if |s| == 0 then [x]
    else
      assert s == [s[0]] + s[1..];
      if x == s[0] then s
      else if Less(x, s[0]) then
        assert forall e :: e in s ==> Less(x, e) by {
          forall e | e in s
            ensures Less(x, e)
          {
            if e != s[0] {
              var j :| 0 < j < |s| && s[j] == e;
              LessTransitive(x, s[0], e);
            }
          }
        }
        ConsSorted(x, s);
        [x] + s
      else
        LessTotal(x, s[0]);
        var t := Insert(x, s[1..]);
        assert forall e :: e in t ==> Less(s[0], e) by {
          forall e | e in t
            ensures Less(s[0], e)
          {
            assert e in Elems(t);
            if e != x {
              var j :| 1 <= j < |s| && s[j] == e;
            }
          }
        }
        ConsSorted(s[0], t);
        ElemsCons(s[0], t);
        ElemsCons(s[0], s[1..]);
        [s[0]] + t
  }

  /** Python's `sorted(set(s))` on strings. */
  function SortStrings(s: seq<string>): (r: seq<string>)
    ensures StrictlySorted(r)
    ensures Elems(r) == Elems(s)
  {
    if |s| == 0 then []
    else
      assert s == [s[0]] + s[1..];
      Insert(s[0], SortStrings(s[1..]))
  }

  lemma SortedHeadIsLeast(s: seq<string>)
    requires StrictlySorted(s) && |s| > 0
    ensures forall e :: e in s ==> e == s[0] || Less(s[0], e)
  {
  }

  lemma SortedTail(s: seq<string>)
    requires StrictlySorted(s) && |s| > 0
    ensures StrictlySorted(s[1..])
    ensures Elems(s[1..]) == Elems(s) - {s[0]}
  {
    assert s == [s[0]] + s[1..];
    forall i | 1 <= i < |s|
      ensures s[i] != s[0]
    {
      LessIrreflexive(s[0]);
    }
  }

  /** There is only one ascending repeat-free listing of a set of strings: the
      result of `sorted(set(...))` is determined by the set alone. */
  lemma {:induction false} SortedUnique(a: seq<string>, b: seq<string>)
    requires StrictlySorted(a) && StrictlySorted(b)
    requires Elems(a) == Elems(b)
    ensures a == b
    decreases |a|
  {
    HeadInElems(a);
    HeadInElems(b);
    if |a| > 0 {
      SortedHeadIsLeast(a);
      SortedHeadIsLeast(b);
      LessAsymmetric(a[0], b[0]);
      assert a[0] == b[0];
      SortedTail(a);
      SortedTail(b);
      SortedUnique(a[1..], b[1..]);
      assert a == [a[0]] + a[1..] && b == [b[0]] + b[1..];
    }
  }
}
