/**
 * The order the storages list metrics in: `sort.Slice` by id with Go's `<` on
 * strings. Go compares strings byte by byte in UTF-8, which orders like comparing
 * code points, so the order is the lexicographic order on `seq<char>` below.
 * `sort.Slice` is not stable; all a caller may rely on is sortedness and that the
 * result is a permutation, so that is all `SortById` promises.
 */
module Sorting {
  import opened Models

  /** Go's `a < b` on strings. */
  predicate StrLess(a: string, b: string)
    decreases |a|
  {
    if |a| == 0 then |b| > 0
    else if |b| == 0 then false
    else if a[0] != b[0] then a[0] < b[0]
    else StrLess(a[1..], b[1..])
  }

  /** Go's `a <= b` on strings. */
  predicate StrLeq(a: string, b: string) {
    !StrLess(b, a)
  }

  lemma {:induction false} StrLessIrreflexive(a: string)
    ensures !StrLess(a, a)
    decreases |a|
  {
    if |a| > 0 {
      StrLessIrreflexive(a[1..]);
    }
  }

  lemma {:induction false} StrLessTransitive(a: string, b: string, c: string)
    requires StrLess(a, b) && StrLess(b, c)
    ensures StrLess(a, c)
    decreases |a|
  {
    if |a| > 0 && a[0] == b[0] && b[0] == c[0] {
      StrLessTransitive(a[1..], b[1..], c[1..]);
    }
  }

  /** Any two different strings are ordered one way. */
  lemma {:induction false} StrLessTotal(a: string, b: string)
    ensures a == b || StrLess(a, b) || StrLess(b, a)
    decreases |a|
  {
    if |a| > 0 && |b| > 0 && a[0] == b[0] {
      StrLessTotal(a[1..], b[1..]);
      if a[1..] == b[1..] {
        assert a == [a[0]] + a[1..] && b == [b[0]] + b[1..];
      }
    }
  }

  lemma {:induction false} StrLessAsymmetric(a: string, b: string)
    requires StrLess(a, b)
    ensures !StrLess(b, a)
  {
    if StrLess(b, a) {
      StrLessTransitive(a, b, a);
      StrLessIrreflexive(a);
    }
  }

  /** `<=` is transitive, which is what a sorted sequence needs of its order. */
  lemma StrLeqTransitive(a: string, b: string, c: string)
    requires StrLeq(a, b) && StrLeq(b, c)
    ensures StrLeq(a, c)
  {
    if StrLess(c, a) {
      StrLessTotal(a, b);
      StrLessTotal(b, c);
      if a == b {
      } else if b == c {
      } else {
        StrLessTransitive(a, b, c);
        StrLessAsymmetric(a, c);
      }
    }
  }

  predicate SortedById(ms: seq<MetricModel>) {
    forall i, j :: 0 <= i < j < |ms| ==> StrLeq(ms[i].id, ms[j].id)
  }

  /** Prepending an element no greater than any other keeps a sequence sorted. */
  lemma SortedCons(x: MetricModel, t: seq<MetricModel>)
    requires SortedById(t)
    requires forall k :: 0 <= k < |t| ==> StrLeq(x.id, t[k].id)
    ensures SortedById([x] + t)
  {
    var r := [x] + t;
    forall i, j | 0 <= i < j < |r| ensures StrLeq(r[i].id, r[j].id) {
      if i > 0 {
        assert r[i] == t[i - 1] && r[j] == t[j - 1];
      } else {
        assert r[j] == t[j - 1];
      }
    }
  }

  /** The head of a sorted sequence is no greater than any element. */
  lemma SortedHeadLeq(x: MetricModel, s: seq<MetricModel>)
    requires SortedById(s) && |s| > 0
    requires StrLeq(x.id, s[0].id)
    ensures forall k :: 0 <= k < |s| ==> StrLeq(x.id, s[k].id)
  {
    forall k | 0 <= k < |s| ensures StrLeq(x.id, s[k].id) {
      if k > 0 {
        StrLeqTransitive(x.id, s[0].id, s[k].id);
      }
    }
  }

  /** Inserts `m` into a sorted sequence, keeping it sorted. */
  function InsertById(m: MetricModel, s: seq<MetricModel>): (r: seq<MetricModel>)
    requires SortedById(s)
    ensures SortedById(r)
    ensures multiset(r) == multiset(s) + multiset{m}
    ensures forall k :: 0 <= k < |r| ==> r[k] == m || r[k] in s
    decreases |s|
  {
    if |s| == 0 then [m]
    else if StrLess(s[0].id, m.id) then
      var tail := InsertById(m, s[1..]);
      InsertTailAbove(m, s, tail);
      SortedCons(s[0], tail);
      assert s == [s[0]] + s[1..];
      [s[0]] + tail
    else
      SortedHeadLeq(m, s);
      SortedCons(m, s);
      [m] + s
  }

  /** Every element of the insertion into the tail is no smaller than the head. */
  lemma InsertTailAbove(m: MetricModel, s: seq<MetricModel>, tail: seq<MetricModel>)
    requires SortedById(s) && |s| > 0
    requires StrLess(s[0].id, m.id)
    requires forall k :: 0 <= k < |tail| ==> tail[k] == m || tail[k] in s[1..]
    ensures forall k :: 0 <= k < |tail| ==> StrLeq(s[0].id, tail[k].id)
  {
    StrLessAsymmetric(s[0].id, m.id);
    forall k | 0 <= k < |tail| ensures StrLeq(s[0].id, tail[k].id) {
      if tail[k] != m {
        var j :| 0 <= j < |s[1..]| && s[1..][j] == tail[k];
        assert s[j + 1] == tail[k];
      }
    }
  }

  /** `sort.Slice(ms, func(i, j) { return ms[i].ID < ms[j].ID })`. */
  function SortById(ms: seq<MetricModel>): (r: seq<MetricModel>)
    ensures SortedById(r)
    ensures multiset(r) == multiset(ms)
    ensures forall i :: 0 <= i < |r| ==> r[i] in ms
    decreases |ms|
  {
    if |ms| == 0 then []
    else
      assert ms == [ms[0]] + ms[1..];
      InsertById(ms[0], SortById(ms[1..]))
  }

  /** A sorted permutation has the same length and the same elements. */
  lemma SortByIdSameElements(ms: seq<MetricModel>)
    ensures |SortById(ms)| == |ms|
    ensures forall m :: m in SortById(ms) <==> m in ms
  {
    var r := SortById(ms);
    assert |r| == |multiset(r)| == |multiset(ms)| == |ms|;
    forall m ensures m in r <==> m in ms {
      assert m in r <==> m in multiset(r);
      assert m in ms <==> m in multiset(ms);
    }
  }
}
