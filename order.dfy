/** The key order of every container: Python's `str` comparison, which
    compares code point by code point.  For the index's UTF-8 keys this is the
    same order as byte-wise comparison, so one definition serves both sides. */
module Order {

  /** `a < b` on Python strings (lexicographic, a proper prefix is smaller). */
  predicate Less(a: string, b: string)
    decreases |a|
  {
    if |a| == 0 then |b| > 0
    else if |b| == 0 then false
    else if a[0] != b[0] then a[0] < b[0]
    else Less(a[1..], b[1..])
  }

  lemma {:induction false} LessIrreflexive(a: string)
    ensures !Less(a, a)
    decreases |a|
  {
    if |a| > 0 {
      LessIrreflexive(a[1..]);
    }
  }

  lemma {:induction false} LessTransitive(a: string, b: string, c: string)
    requires Less(a, b) && Less(b, c)
    ensures Less(a, c)
    decreases |a|
  {
    if |a| > 0 && a[0] == b[0] && b[0] == c[0] {
      LessTransitive(a[1..], b[1..], c[1..]);
    }
  }

  /** Any two keys are equal or ordered one way round. */
  lemma {:induction false} LessTotal(a: string, b: string)
    ensures a == b || Less(a, b) || Less(b, a)
    decreases |a|
  {
    if |a| > 0 && |b| > 0 && a[0] == b[0] {
      LessTotal(a[1..], b[1..]);
      if a[1..] == b[1..] {
        assert a == [a[0]] + a[1..] && b == [b[0]] + b[1..];
      }
    }
  }

  lemma LessAsymmetric(a: string, b: string)
    requires Less(a, b)
    ensures !Less(b, a)
  {
    if Less(b, a) {
      LessTransitive(a, b, a);
      LessIrreflexive(a);
    }
  }

  /** Every key is smaller than every later key: the index's key order. */
  predicate StrictlySorted(s: seq<string>)
  {
    forall i, j :: 0 <= i < j < |s| ==> Less(s[i], s[j])
  }

  /** Each key is greater than the one before it: what a builder checks
      insert by insert. */
  predicate Ascending(s: seq<string>)
  {
    forall i :: 0 < i < |s| ==> Less(s[i - 1], s[i])
  }

  /** Checking neighbours is enough: the adjacent test of the builders and the
      all-pairs order of the index agree. */
  lemma {:induction false} AscendingIsSorted(s: seq<string>)
    ensures Ascending(s) <==> StrictlySorted(s)
    decreases |s|
  {
    if |s| > 1 && Ascending(s) {
      var t := s[..|s| - 1];
      assert Ascending(t) by {
        forall i | 0 < i < |t| ensures Less(t[i - 1], t[i]) {
          assert t[i - 1] == s[i - 1] && t[i] == s[i];
        }
      }
      AscendingIsSorted(t);
      forall i, j | 0 <= i < j < |s| ensures Less(s[i], s[j]) {
        if j < |s| - 1 {
          assert s[i] == t[i] && s[j] == t[j];
        } else if i < |s| - 2 {
          assert s[i] == t[i] && s[|s| - 2] == t[|s| - 2];
          LessTransitive(s[i], s[|s| - 2], s[j]);
        }
      }
    }
  }

  /** Distinct positions of a sorted sequence hold distinct keys. */
  lemma SortedDistinct(s: seq<string>, i: nat, j: nat)
    requires StrictlySorted(s) && i < j < |s|
    ensures s[i] != s[j]
  {
    LessIrreflexive(s[i]);
  }

  /** Extending by one key keeps the neighbour order exactly when the new
      key is greater than the last. */
  lemma AscendingSnoc(s: seq<string>, x: string)
    ensures Ascending(s + [x]) <==> Ascending(s) && (|s| == 0 || Less(s[|s| - 1], x))
  {
    var t := s + [x];
    assert forall i :: 0 <= i < |s| ==> t[i] == s[i];
    assert |s| > 0 ==> t[|s| - 1] == s[|s| - 1] && t[|s|] == x;
    if Ascending(t) {
      forall i | 0 < i < |s| ensures Less(s[i - 1], s[i]) {
        assert t[i - 1] == s[i - 1] && t[i] == s[i];
      }
    }
  }

  /** An ascending prefix grows by one key exactly when that key is greater
      than the one before it; a key that is not leaves `s` unsorted. */
  lemma {:induction false} AscendingStep(s: seq<string>, n: nat)
    requires n < |s| && Ascending(s[..n])
    ensures Ascending(s[..n + 1]) <==> n == 0 || Less(s[n - 1], s[n])
    ensures !Ascending(s[..n + 1]) ==> !StrictlySorted(s)
  {
    PrefixSnoc(s, n);
    AscendingSnoc(s[..n], s[n]);
    assert n > 0 ==> s[..n][n - 1] == s[n - 1];
  }

  /** A prefix one longer is the prefix and the next element. */
  lemma PrefixSnoc<T>(s: seq<T>, n: nat)
    requires n < |s|
    ensures s[..n + 1] == s[..n] + [s[n]]
  {
  }

  /** The ascending prefixes of an ascending prefix. */
  lemma AscendingPrefix(s: seq<string>, m: nat, n: nat)
    requires n <= m <= |s| && Ascending(s[..m])
    ensures Ascending(s[..n])
  {
    forall i | 0 < i < n ensures Less(s[..n][i - 1], s[..n][i]) {
      assert s[..n][i - 1] == s[..m][i - 1] && s[..n][i] == s[..m][i];
    }
  }

  /** The length of the longest ascending prefix of `s` from `n` on: a
      builder fed `s` key by key refuses the key at this index, if any. */
  function RunFrom(s: seq<string>, n: nat): (r: nat)
    requires n <= |s| && Ascending(s[..n])
    ensures n <= r <= |s| && Ascending(s[..r])
    ensures r < |s| ==> !Ascending(s[..r + 1])
    decreases |s| - n
  {
    if n < |s| && Ascending(s[..n + 1]) then RunFrom(s, n + 1) else n
  }

  /** The length of the longest ascending prefix of `s`. */
  function OrderedRun(s: seq<string>): (r: nat)
    ensures r <= |s| && Ascending(s[..r])
    ensures r < |s| ==> !Ascending(s[..r + 1])
  {
    RunFrom(s, 0)
  }

  /** Every ascending prefix lies within the run. */
  lemma OrderedRunBound(s: seq<string>, n: nat)
    requires n <= |s| && Ascending(s[..n])
    ensures n <= OrderedRun(s)
  {
    var r := OrderedRun(s);
    if r < n {
      AscendingPrefix(s, n, r + 1);
    }
  }

  /** Every prefix within the run is ascending. */
  lemma RunPrefix(s: seq<string>, n: nat)
    requires n <= OrderedRun(s)
    ensures Ascending(s[..n])
  {
    AscendingPrefix(s, OrderedRun(s), n);
  }

  /** The first key that breaks the order ends the run. */
  lemma OrderedRunAt(s: seq<string>, n: nat)
    requires n < |s| && Ascending(s[..n]) && !Ascending(s[..n + 1])
    ensures OrderedRun(s) == n
  {
    OrderedRunBound(s, n);
    var r := OrderedRun(s);
    if r > n {
      AscendingPrefix(s, r, n + 1);
    }
  }

  /** Where a builder refuses the key at `n`: after an ascending prefix, a
      key that keeps the order lies within the run, one that breaks it ends
      the run and leaves the whole sequence unsorted. */
  lemma RunAtInsert(s: seq<string>, n: nat)
    requires n < |s| && Ascending(s[..n])
    ensures Ascending(s[..n + 1]) ==> n + 1 <= OrderedRun(s)
    ensures !Ascending(s[..n + 1]) ==> OrderedRun(s) == n && !StrictlySorted(s)
  {
    if Ascending(s[..n + 1]) {
      OrderedRunBound(s, n + 1);
    } else {
      OrderedRunAt(s, n);
      OrderedRunSorted(s);
    }
  }

  /** The run covers all of `s` exactly when `s` is sorted. */
  lemma OrderedRunSorted(s: seq<string>)
    ensures StrictlySorted(s) <==> OrderedRun(s) == |s|
  {
    assert s[..|s|] == s;
    AscendingIsSorted(s);
    if StrictlySorted(s) {
      OrderedRunBound(s, |s|);
    }
  }

  /** Appending a key greater than the last keeps the order. */
  lemma SortedAppend(s: seq<string>, k: string)
    requires StrictlySorted(s)
    requires |s| == 0 || Less(s[|s| - 1], k)
    ensures StrictlySorted(s + [k])
  {
    var t := s + [k];
    forall i, j | 0 <= i < j < |t| ensures Less(t[i], t[j]) {
      if j == |s| && i < |s| - 1 {
        LessTransitive(s[i], s[|s| - 1], k);
      }
    }
  }

  /** A strictly sorted sequence is determined by its elements: an ordered
      enumeration of a key set is unique. */
  lemma {:induction false} SortedUnique(a: seq<string>, b: seq<string>)
    requires StrictlySorted(a) && StrictlySorted(b)
    requires forall k :: k in a <==> k in b
    ensures a == b
    decreases |a|
  {
    assert |b| > 0 ==> b[0] in b;
    if |a| > 0 {
      assert a[0] in a && a[0] in b;
      var j :| 0 <= j < |b| && b[j] == a[0];
      assert b[0] in b && b[0] in a;
      var i :| 0 <= i < |a| && a[i] == b[0];
      if j > 0 {
        if i > 0 {
          LessAsymmetric(b[0], b[j]);
        } else {
          LessIrreflexive(a[0]);
        }
      }
      assert a[0] == b[0];
      forall k ensures k in a[1..] <==> k in b[1..] {
        LessIrreflexive(k);
        if k in a[1..] {
          var p :| 1 <= p < |a| && a[p] == k;
          assert Less(a[0], a[p]);
          assert k in b;
          var q :| 0 <= q < |b| && b[q] == k;
          assert q != 0;
          assert b[q] in b[1..];
        }
        if k in b[1..] {
          var p :| 1 <= p < |b| && b[p] == k;
          assert Less(b[0], b[p]);
          assert k in a;
          var q :| 0 <= q < |a| && a[q] == k;
          assert q != 0;
          assert a[q] in a[1..];
        }
      }
      SortedUnique(a[1..], b[1..]);
      assert a == [a[0]] + a[1..] && b == [b[0]] + b[1..];
    }
  }

  /** The members of a key sequence. */
  function KeySet(s: seq<string>): set<string>
  {
    set k | k in s
  }

  /** The members of a nonempty sequence: its head and the members of its
      tail. */
  lemma KeySetCons(s: seq<string>)
    requires s != []
    ensures KeySet(s) == {s[0]} + KeySet(s[1..])
  {
    assert s == [s[0]] + s[1..];
  }

  /** The tail of a strictly sorted sequence is strictly sorted and does
      not hold the head. */
  lemma SortedHeadFresh(s: seq<string>)
    requires s != [] && StrictlySorted(s)
    ensures StrictlySorted(s[1..]) && s[0] !in KeySet(s[1..])
  {
    var t := s[1..];
    forall i, j | 0 <= i < j < |t| ensures Less(t[i], t[j]) {
      assert t[i] == s[i + 1] && t[j] == s[j + 1];
    }
    if s[0] in t {
      var j :| 0 <= j < |t| && t[j] == s[0];
      assert Less(s[0], s[j + 1]);
      LessIrreflexive(s[0]);
    }
  }

  /** A strictly sorted sequence holds each member once: its length is the
      number of its members. */
  lemma {:induction false} SortedCount(s: seq<string>)
    ensures StrictlySorted(s) ==> |KeySet(s)| == |s|
    decreases |s|
  {
    if s != [] && StrictlySorted(s) {
      SortedHeadFresh(s);
      KeySetCons(s);
      SortedCount(s[1..]);
    }
  }

  /** The key column of a sequence of entries. */
  function Keys<V>(entries: seq<(string, V)>): (r: seq<string>)
    ensures |r| == |entries|
    ensures forall i :: 0 <= i < |r| ==> r[i] == entries[i].0
  {
    if entries == [] then [] else [entries[0].0] + Keys(entries[1..])
  }

  lemma KeysPrefix<V>(s: seq<(string, V)>, n: nat)
    requires n <= |s|
    ensures Keys(s)[..n] == Keys(s[..n])
  {
  }

  /** The tail of sorted entries is sorted. */
  lemma SortedTailKeys<V>(s: seq<(string, V)>)
    requires s != [] && StrictlySorted(Keys(s))
    ensures Keys(s[1..]) == Keys(s)[1..] && StrictlySorted(Keys(s[1..]))
  {
    var ks := Keys(s);
    forall i, j | 0 <= i < j < |ks| - 1 ensures Less(ks[1..][i], ks[1..][j]) {
      assert ks[1..][i] == ks[i + 1] && ks[1..][j] == ks[j + 1];
    }
  }

  lemma KeysAppend<V>(a: seq<(string, V)>, b: seq<(string, V)>)
    ensures Keys(a + b) == Keys(a) + Keys(b)
  {
    assert |Keys(a + b)| == |Keys(a) + Keys(b)|;
    forall i | 0 <= i < |a + b| ensures Keys(a + b)[i] == (Keys(a) + Keys(b))[i] {
    }
  }

  /** The keys of `s` that satisfy `p`, in the order of `s`. */
  function Filter(s: seq<string>, p: string -> bool): (r: seq<string>)
    ensures forall k :: k in r <==> k in s && p(k)
    ensures StrictlySorted(s) ==> StrictlySorted(r)
    decreases |s|
  {
    if s == [] then []
    else
      var rest := Filter(s[1..], p);
      assert StrictlySorted(s) ==> forall k :: k in rest ==> Less(s[0], k);
      (if p(s[0]) then [s[0]] else []) + rest
  }

  /** Filtering with a test no key passes leaves nothing. */
  lemma {:induction false} FilterNone(s: seq<string>, p: string -> bool)
    requires forall k :: k in s ==> !p(k)
    ensures Filter(s, p) == []
    decreases |s|
  {
    if s != [] {
      assert s[0] in s;
      FilterNone(s[1..], p);
    }
  }

  /** The entries of `s` whose key satisfies `p`, in the order of `s`. */
  function FilterEntries<V(!new)>(s: seq<(string, V)>, p: string -> bool): (r: seq<(string, V)>)
    ensures forall e :: e in r <==> e in s && p(e.0)
    decreases |s|
  {
    if s == [] then []
    else (if p(s[0].0) then [s[0]] else []) + FilterEntries(s[1..], p)
  }

  /** Filtering entries by key filters their key column alike. */
  lemma {:induction false} KeysOfFilterEntries<V(!new)>(s: seq<(string, V)>, p: string -> bool)
    ensures Keys(FilterEntries(s, p)) == Filter(Keys(s), p)
    decreases |s|
  {
    if s != [] {
      KeysOfFilterEntries(s[1..], p);
      var head := if p(s[0].0) then [s[0]] else [];
      KeysAppend(head, FilterEntries(s[1..], p));
    }
  }
}
