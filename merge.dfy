/** What the four set operations yield over their sources, `(self, *others)`
    in argument order.  The crate's k-way merge is not part of this model;
    its documented result is: the keys the operation selects, once each, in
    key order.  `Combine` is that result, built as the sorted union of all
    sources filtered by the selection rule. */
module Merge {
  import opened Order

  datatype SetOp = Union | Intersection | Difference | SymmetricDifference

  /** Whether `key` belongs to the result of `op` over `srcs`: in any source;
      in all sources; in the first source and in none of the others; in
      exactly one source. */
  predicate InResult(op: SetOp, key: string, srcs: seq<seq<string>>)
    ensures InResult(op, key, srcs) && |srcs| > 0 ==> exists i :: 0 <= i < |srcs| && key in srcs[i]
    ensures (op == Intersection || op == Difference) && InResult(op, key, srcs) && |srcs| > 0 ==> key in srcs[0]
  {
    assert |srcs| > 0 && key in srcs[0] ==> 0 <= 0 < |srcs| && key in srcs[0];
    match op
    case Union => exists i :: 0 <= i < |srcs| && key in srcs[i]
    case Intersection => forall i :: 0 <= i < |srcs| ==> key in srcs[i]
    case Difference =>
      && |srcs| > 0 && key in srcs[0]
      && forall i :: 1 <= i < |srcs| ==> key !in srcs[i]
    case SymmetricDifference =>
      exists i :: 0 <= i < |srcs| && key in srcs[i]
        && forall j :: 0 <= j < |srcs| && j != i ==> key !in srcs[j]
  }

  /** Every source is in key order, as every index is. */
  predicate AllSorted(srcs: seq<seq<string>>)
  {
    forall i :: 0 <= i < |srcs| ==> StrictlySorted(srcs[i])
  }

  /** `key` is smaller than every element of `s`. */
  predicate Below(key: string, s: seq<string>)
  {
    forall k :: k in s ==> Less(key, k)
  }

  lemma SortedHeadBelow(s: seq<string>)
    requires StrictlySorted(s) && |s| > 0
    ensures Below(s[0], s[1..])
  {
    forall k | k in s[1..] ensures Less(s[0], k) {
      var j :| 0 <= j < |s[1..]| && s[1..][j] == k;
      assert s[j + 1] == k;
    }
  }

  lemma BelowSorted(s: seq<string>)
    requires StrictlySorted(s) && |s| > 0
    ensures forall k :: k in s ==> k == s[0] || Less(s[0], k)
  {
    SortedHeadBelow(s);
    forall k | k in s ensures k == s[0] || Less(s[0], k) {
      if k != s[0] {
        assert k in s[1..] by {
          var j :| 0 <= j < |s| && s[j] == k;
          assert j > 0 && s[1..][j - 1] == k;
        }
      }
    }
  }

  /** Putting a smaller key in front keeps the order. */
  lemma ConsSorted(key: string, s: seq<string>)
    requires StrictlySorted(s) && Below(key, s)
    ensures StrictlySorted([key] + s)
  {
    var t := [key] + s;
    forall i, j | 0 <= i < j < |t| ensures Less(t[i], t[j]) {
      if i == 0 {
        assert t[j] == s[j - 1] && s[j - 1] in s;
      } else {
        assert t[i] == s[i - 1] && t[j] == s[j - 1];
      }
    }
  }

  /** The sorted union of two sorted sources, each key once. */
  function Union2(a: seq<string>, b: seq<string>): (r: seq<string>)
    requires StrictlySorted(a) && StrictlySorted(b)
    ensures StrictlySorted(r)
    ensures forall k :: k in r <==> k in a || k in b
    decreases |a| + |b|
  {
    if a == [] then b
    else if b == [] then a
    else
      SortedHeadBelow(a);
      SortedHeadBelow(b);
      BelowSorted(a);
      BelowSorted(b);
      if Less(a[0], b[0]) then
        var rest := Union2(a[1..], b);
        assert forall k :: k in b ==> Less(a[0], k) by {
          forall k | k in b ensures Less(a[0], k) {
            if k != b[0] { LessTransitive(a[0], b[0], k); }
          }
        }
        ConsSorted(a[0], rest);
        assert a == [a[0]] + a[1..];
        [a[0]] + rest
      else if Less(b[0], a[0]) then
        var rest := Union2(a, b[1..]);
        assert forall k :: k in a ==> Less(b[0], k) by {
          forall k | k in a ensures Less(b[0], k) {
            if k != a[0] { LessTransitive(b[0], a[0], k); }
          }
        }
        ConsSorted(b[0], rest);
        assert b == [b[0]] + b[1..];
        [b[0]] + rest
      else
        LessTotal(a[0], b[0]);
        var rest := Union2(a[1..], b[1..]);
        ConsSorted(a[0], rest);
        assert a == [a[0]] + a[1..] && b == [b[0]] + b[1..];
        [a[0]] + rest
  }

  /** The sorted union of all sources. */
  function UnionAll(srcs: seq<seq<string>>): (r: seq<string>)
    requires AllSorted(srcs)
    ensures StrictlySorted(r)
    ensures forall k :: k in r <==> exists i :: 0 <= i < |srcs| && k in srcs[i]
    decreases |srcs|
  {
    if srcs == [] then []
    else
      var rest := UnionAll(srcs[1..]);
      var r := Union2(srcs[0], rest);
      assert forall k :: k in r <==> exists i :: 0 <= i < |srcs| && k in srcs[i] by {
        forall k ensures k in r <==> exists i :: 0 <= i < |srcs| && k in srcs[i] {
          if k in rest {
            var i :| 0 <= i < |srcs[1..]| && k in srcs[1..][i];
            assert k in srcs[i + 1];
          }
          if exists i :: 0 <= i < |srcs| && k in srcs[i] {
            var i :| 0 <= i < |srcs| && k in srcs[i];
            if i > 0 { assert k in srcs[1..][i - 1]; }
          }
        }
      }
      r
  }

  /** The result of `op` over `srcs`: the selected keys, once each, in key
      order. */
  function Combine(op: SetOp, srcs: seq<seq<string>>): (r: seq<string>)
    requires |srcs| > 0 && AllSorted(srcs)
    ensures StrictlySorted(r)
    ensures forall k :: k in r <==> InResult(op, k, srcs)
  {
    var r := Filter(UnionAll(srcs), k => InResult(op, k, srcs));
    assert forall k :: InResult(op, k, srcs) ==> k in UnionAll(srcs) by {
      forall k | InResult(op, k, srcs) ensures k in UnionAll(srcs) {
        assert exists i :: 0 <= i < |srcs| && k in srcs[i];
      }
    }
    r
  }

  /** The result is determined by its key set: a stream that yields the
      selected keys once each in key order yields exactly `Combine`. */
  lemma CombineUnique(op: SetOp, srcs: seq<seq<string>>, out: seq<string>)
    requires |srcs| > 0 && AllSorted(srcs)
    requires StrictlySorted(out) && forall k :: k in out <==> InResult(op, k, srcs)
    ensures out == Combine(op, srcs)
  {
    SortedUnique(out, Combine(op, srcs));
  }

  /** A single source is its own union and intersection. */
  lemma {:induction false} SingleSource(a: seq<string>)
    requires StrictlySorted(a)
    ensures Combine(Union, [a]) == a && Combine(Intersection, [a]) == a
    ensures Combine(Difference, [a]) == a && Combine(SymmetricDifference, [a]) == a
  {
    assert forall k :: InResult(Union, k, [a]) <==> k in a by {
      forall k ensures InResult(Union, k, [a]) <==> k in a {
        if k in a { assert 0 <= 0 < 1 && k in [a][0]; }
      }
    }
    assert forall k :: InResult(SymmetricDifference, k, [a]) <==> k in a by {
      forall k ensures InResult(SymmetricDifference, k, [a]) <==> k in a {
        if k in a { assert 0 <= 0 < 1 && k in [a][0]; }
      }
    }
    SortedUnique(Combine(Union, [a]), a);
    SortedUnique(Combine(Intersection, [a]), a);
    SortedUnique(Combine(Difference, [a]), a);
    SortedUnique(Combine(SymmetricDifference, [a]), a);
  }

  /** Two-source membership, spelled out. */
  lemma {:induction false} TwoSources(op: SetOp, a: seq<string>, b: seq<string>, k: string)
    ensures InResult(op, k, [a, b]) <==>
      match op
      case Union => k in a || k in b
      case Intersection => k in a && k in b
      case Difference => k in a && k !in b
      case SymmetricDifference => (k in a) != (k in b)
  {
    var s := [a, b];
    assert s[0] == a && s[1] == b;
    if op == Union || op == SymmetricDifference {
      if k in a { assert 0 <= 0 < 2 && k in s[0]; }
      if k in b { assert 0 <= 1 < 2 && k in s[1]; }
    }
  }

  /** Two-source membership as a predicate of its own. */
  predicate InTwo(op: SetOp, k: string, a: seq<string>, b: seq<string>)
  {
    match op
    case Union => k in a || k in b
    case Intersection => k in a && k in b
    case Difference => k in a && k !in b
    case SymmetricDifference => (k in a) != (k in b)
  }

  /** A sorted sequence with the two-source membership is the result. */
  lemma TwoSourceCombine(op: SetOp, a: seq<string>, b: seq<string>, out: seq<string>)
    requires StrictlySorted(a) && StrictlySorted(b) && StrictlySorted(out)
    requires forall k :: k in out <==> InTwo(op, k, a, b)
    ensures Combine(op, [a, b]) == out
  {
    forall k ensures k in out <==> InResult(op, k, [a, b]) {
      TwoSources(op, a, b, k);
    }
    CombineUnique(op, [a, b], out);
  }

  /** Union, intersection and symmetric difference do not depend on the
      order of two sources. */
  lemma Commutes(op: SetOp, a: seq<string>, b: seq<string>)
    requires op != Difference
    requires StrictlySorted(a) && StrictlySorted(b)
    ensures Combine(op, [a, b]) == Combine(op, [b, a])
  {
    forall k ensures k in Combine(op, [a, b]) <==> k in Combine(op, [b, a]) {
      TwoSources(op, a, b, k);
      TwoSources(op, b, a, k);
    }
    SortedUnique(Combine(op, [a, b]), Combine(op, [b, a]));
  }

  /** For two sources the symmetric difference is the union without the
      intersection, and the difference shares no key with the other source. */
  lemma TwoSourceLaws(a: seq<string>, b: seq<string>, k: string)
    requires StrictlySorted(a) && StrictlySorted(b)
    ensures k in Combine(SymmetricDifference, [a, b]) <==>
      k in Combine(Union, [a, b]) && k !in Combine(Intersection, [a, b])
    ensures k in Combine(Difference, [a, b]) ==> k in a && k !in b
    ensures k in Combine(Intersection, [a, b]) ==> k in Combine(Union, [a, b])
  {
    TwoSources(SymmetricDifference, a, b, k);
    TwoSources(Union, a, b, k);
    TwoSources(Intersection, a, b, k);
    TwoSources(Difference, a, b, k);
  }

  /** Nothing is left of a source after taking it away from itself. */
  lemma DifferenceWithSelf(a: seq<string>)
    requires StrictlySorted(a)
    ensures Combine(Difference, [a, a]) == []
  {
    var d := Combine(Difference, [a, a]);
    assert |d| > 0 ==> d[0] in d;
    forall k ensures k !in d {
      TwoSources(Difference, a, a, k);
    }
  }

  /** `a` is a subset of `b`. */
  predicate SubsetOf(a: seq<string>, b: seq<string>)
  {
    forall k :: k in a ==> k in b
  }

  /** `a` and `b` share no key. */
  predicate DisjointFrom(a: seq<string>, b: seq<string>)
  {
    forall k :: k in a ==> k !in b
  }
}
