/** The map facade of rust_fst/map.py: builders, the immutable `FstMap` over
    entries with strictly increasing keys, lookups and the key, value and
    item streams, the four set operations with their `(index, value)`
    payloads, the fuzzy search, and `from_iter` with its dict sorting. */
module Maps {
  import opened Wrappers
  import opened Order
  import Errors
  import Native
  import Streams
  import Merge
  import Sets

  /** The value column of a sequence of entries. */
  function Values(entries: seq<(string, U64)>): seq<U64>
  {
    seq(|entries|, i requires 0 <= i < |entries| => entries[i].1)
  }

  /** Keys and values come out aligned: the i-th value belongs to the i-th
      key, and both follow the entries. */
  lemma ColumnsAligned(entries: seq<(string, U64)>, i: nat)
    requires i < |entries|
    ensures (Keys(entries)[i], Values(entries)[i]) == entries[i]
  {
  }

  // ---------------------------------------------------------------------
  // Payloads of the set operations

  /** The `(index, value)` of each source from `i` on that holds `key`, in
      source order. */
  function PayloadFrom(key: string, srcs: seq<seq<(string, U64)>>, i: nat): (r: seq<Native.NativeIndexedValue>)
    requires i <= |srcs|
    ensures forall e :: e in r ==> i <= e.index < |srcs| && Native.Get(srcs[e.index], key) == Some(e.value)
    ensures forall j :: i <= j < |srcs| && key in Keys(srcs[j]) ==> exists e :: e in r && e.index == j
    ensures forall a, b :: 0 <= a < b < |r| ==> r[a].index < r[b].index
    decreases |srcs| - i
  {
    if i == |srcs| then []
    else
      var rest := PayloadFrom(key, srcs, i + 1);
      match Native.Get(srcs[i], key)
      case Some(v) =>
        ConsOrdered(Native.NativeIndexedValue(i, v), rest);
        [Native.NativeIndexedValue(i, v)] + rest
      case None => rest
  }

  /** An entry of a lower source index in front keeps the payload ordered. */
  lemma ConsOrdered(x: Native.NativeIndexedValue, rest: seq<Native.NativeIndexedValue>)
    requires forall e :: e in rest ==> x.index < e.index
    requires forall a, b :: 0 <= a < b < |rest| ==> rest[a].index < rest[b].index
    ensures forall a, b :: 0 <= a < b < |[x] + rest| ==> ([x] + rest)[a].index < ([x] + rest)[b].index
  {
    var r := [x] + rest;
    forall a, b | 0 <= a < b < |r| ensures r[a].index < r[b].index {
      assert r[b] == rest[b - 1] && rest[b - 1] in rest;
      if a > 0 { assert r[a] == rest[a - 1]; }
    }
  }

  /** The payload of a result key: one entry per source holding it. */
  function Payload(key: string, srcs: seq<seq<(string, U64)>>): seq<Native.NativeIndexedValue>
  {
    PayloadFrom(key, srcs, 0)
  }

  /** The key column of every source. */
  function KeySources(srcs: seq<seq<(string, U64)>>): seq<seq<string>>
  {
    seq(|srcs|, i requires 0 <= i < |srcs| => Keys(srcs[i]))
  }

  /** Every source's keys are in order. */
  predicate AllIndexes(srcs: seq<seq<(string, U64)>>)
  {
    forall i :: 0 <= i < |srcs| ==> StrictlySorted(Keys(srcs[i]))
  }

  /** The items of a map operation: the keys of the set result, each with
      its payload. */
  function OpItems(op: Merge.SetOp, srcs: seq<seq<(string, U64)>>): (r: seq<Native.MapOpItem>)
    requires |srcs| > 0 && AllIndexes(srcs)
    ensures |r| == |Merge.Combine(op, KeySources(srcs))|
    ensures forall q :: 0 <= q < |r| ==>
      r[q] == Native.MapOpItem(Merge.Combine(op, KeySources(srcs))[q], Payload(Merge.Combine(op, KeySources(srcs))[q], srcs))
  {
    var keys := Merge.Combine(op, KeySources(srcs));
    seq(|keys|, q requires 0 <= q < |keys| => Native.MapOpItem(keys[q], Payload(keys[q], srcs)))
  }

  /** With every source from `i` on holding the key, the payload names each
      of them in turn. */
  lemma {:induction false} PayloadOfAll(key: string, srcs: seq<seq<(string, U64)>>, i: nat)
    requires i <= |srcs| && forall j :: i <= j < |srcs| ==> key in Keys(srcs[j])
    ensures |PayloadFrom(key, srcs, i)| == |srcs| - i
    ensures forall n :: 0 <= n < |srcs| - i ==> PayloadFrom(key, srcs, i)[n].index == i + n
    decreases |srcs| - i
  {
    if i < |srcs| {
      PayloadOfAll(key, srcs, i + 1);
      var rest := PayloadFrom(key, srcs, i + 1);
      var g := Native.Get(srcs[i], key);
      assert g.Some?;
      var p := PayloadFrom(key, srcs, i);
      assert p == [Native.NativeIndexedValue(i, g.value)] + rest;
      forall n | 0 <= n < |srcs| - i ensures p[n].index == i + n {
        if n > 0 { assert p[n] == rest[n - 1]; }
      }
    }
  }

  /** With no source from `i` on holding the key, the payload is empty. */
  lemma {:induction false} PayloadOfNone(key: string, srcs: seq<seq<(string, U64)>>, i: nat)
    requires i <= |srcs| && forall j :: i <= j < |srcs| ==> key !in Keys(srcs[j])
    ensures PayloadFrom(key, srcs, i) == []
    decreases |srcs| - i
  {
    if i < |srcs| {
      PayloadOfNone(key, srcs, i + 1);
    }
  }

  /** An intersection item carries one value from every source, in source
      order. */
  lemma IntersectionPayload(srcs: seq<seq<(string, U64)>>, key: string)
    requires |srcs| > 0 && AllIndexes(srcs)
    requires key in Merge.Combine(Merge.Intersection, KeySources(srcs))
    ensures |Payload(key, srcs)| == |srcs|
    ensures forall n :: 0 <= n < |srcs| ==>
      Payload(key, srcs)[n].index == n && Native.Get(srcs[n], key) == Some(Payload(key, srcs)[n].value)
  {
    InEverySource(srcs, key);
    PayloadFull(srcs, key);
  }

  lemma {:induction false} PayloadFull(srcs: seq<seq<(string, U64)>>, key: string)
    requires forall j :: 0 <= j < |srcs| ==> key in Keys(srcs[j])
    ensures |Payload(key, srcs)| == |srcs|
    ensures forall n :: 0 <= n < |srcs| ==>
      Payload(key, srcs)[n].index == n && Native.Get(srcs[n], key) == Some(Payload(key, srcs)[n].value)
  {
    PayloadOfAll(key, srcs, 0);
    var p := Payload(key, srcs);
    forall n | 0 <= n < |srcs| ensures Native.Get(srcs[n], key) == Some(p[n].value) {
      var e := p[n];
      assert e in p && e.index == n;
    }
  }

  lemma InEverySource(srcs: seq<seq<(string, U64)>>, key: string)
    requires |srcs| > 0 && AllIndexes(srcs)
    requires key in Merge.Combine(Merge.Intersection, KeySources(srcs))
    ensures forall j :: 0 <= j < |srcs| ==> key in Keys(srcs[j])
  {
    var ks := KeySources(srcs);
    assert Merge.InResult(Merge.Intersection, key, ks);
    forall j | 0 <= j < |srcs| ensures key in Keys(srcs[j]) {
      assert key in ks[j];
    }
  }

  /** A difference item carries exactly the value of the first source. */
  lemma DifferencePayload(srcs: seq<seq<(string, U64)>>, key: string)
    requires |srcs| > 0 && AllIndexes(srcs)
    requires key in Merge.Combine(Merge.Difference, KeySources(srcs))
    ensures Native.Get(srcs[0], key).Some?
    ensures Payload(key, srcs) == [Native.NativeIndexedValue(0, Native.Get(srcs[0], key).value)]
  {
    var ks := KeySources(srcs);
    assert key in ks[0];
    forall j | 1 <= j < |srcs| ensures key !in Keys(srcs[j]) {
      assert key !in ks[j];
    }
    PayloadOfNone(key, srcs, 1);
  }

  // ---------------------------------------------------------------------
  // The map

  /** An immutable map: its context and the entries of its index. */
  class FstMap {
    const ctx: Native.Context
    const entries: seq<(string, U64)>

    ghost predicate Valid()
      reads this, ctx
    {
      ctx.Valid() && StrictlySorted(Keys(entries))
    }

    constructor (ctx: Native.Context, entries: seq<(string, U64)>)
      requires ctx.Valid() && StrictlySorted(Keys(entries))
      ensures Valid() && this.ctx == ctx && this.entries == entries
    {
      this.ctx := ctx;
      this.entries := entries;
    }

    /** `__contains__` (`fst_map_contains`): the lookup of the key in the
        index finds it. */
    predicate Contains(key: string)
      ensures Contains(key) <==> Native.Get(entries, key).Some?
    {
      key in Keys(entries)
    }

    /** `__len__` (`fst_map_len`): the number of keys, each counted once. */
    function Len(): (n: nat)
      ensures StrictlySorted(Keys(entries)) ==> n == |KeySet(Keys(entries))|
    {
      SortedCount(Keys(entries));
      |entries|
    }

    /** `__getitem__`: `fst_map_get` under `checked_call`.  A stored key
        gives its value; a missing one raises plain FstError (not KeyError)
        with the message naming the key. */
    method GetItem(key: string) returns (r: Errors.Outcome<U64>)
      requires Valid()
      modifies ctx
      ensures Valid()
      ensures forall i :: 0 <= i < |entries| && entries[i].0 == key ==> r == Errors.Return(entries[i].1)
      ensures key !in Keys(entries) ==>
        r == Errors.Raise(Errors.Exception(Errors.FstError, Some(Errors.ReplaceNewlines(Native.MissingKeyMessage(key)))))
    {
      var v := Native.MapGet(ctx, entries, key);
      r := Errors.CheckedCall(ctx.View(), v);
      if key !in Keys(entries) {
        Native.MissingKeyIsPlainFstError(key);
      }
      forall i | 0 <= i < |entries| && entries[i].0 == key ensures r == Errors.Return(entries[i].1) {
        Native.GetStored(entries, i);
      }
    }

    /** `keys()`: the keys in key order. */
    method KeyStream() returns (it: Streams.StreamIterator<string>)
      ensures fresh(it) && fresh(it.cursor) && it.Valid() && it.live && it.cursor.pos == 0
      ensures it.cursor.items == Keys(entries) && it.owned.None?
    {
      it := Streams.NewIterator(Keys(entries), None, null);
    }

    /** `__iter__` is `keys()`. */
    method Iter() returns (it: Streams.StreamIterator<string>)
      ensures fresh(it) && fresh(it.cursor) && it.Valid() && it.live && it.cursor.pos == 0
      ensures it.cursor.items == Keys(entries) && it.owned.None?
    {
      it := KeyStream();
    }

    /** `values()`: the values in key order, read through this map's context. */
    method ValueStream() returns (it: Streams.StreamIterator<U64>)
      ensures fresh(it) && fresh(it.cursor) && it.Valid() && it.live && it.cursor.pos == 0
      ensures it.cursor.items == Values(entries) && it.owned.None? && it.ctx == ctx
    {
      it := Streams.NewIterator(Values(entries), None, ctx);
    }

    /** `items()`: the entries in key order. */
    method ItemStream() returns (it: Streams.StreamIterator<(string, U64)>)
      ensures fresh(it) && fresh(it.cursor) && it.Valid() && it.live && it.cursor.pos == 0
      ensures it.cursor.items == entries && it.owned.None?
    {
      it := Streams.NewIterator(entries, None, null);
    }

    /** `search`: the Levenshtein automaton first (LevenshteinError when it is
        too large, before any stream exists), then the accepted entries in
        key order on a stream that owns the automaton. */
    method Search(engine: Native.Engine, term: string, maxDist: U32)
      returns (r: Errors.Outcome<Streams.StreamIterator<(string, U64)>>)
      requires Valid()
      modifies ctx
      ensures Valid()
      ensures engine.levenshteinTooLarge(term, maxDist) ==>
        r.Raise? && r.exc.kind == Errors.LevenshteinError
      ensures !engine.levenshteinTooLarge(term, maxDist) ==>
        && r.Return? && fresh(r.value) && fresh(r.value.cursor) && r.value.Valid() && r.value.live
        && r.value.owned == Some(Native.Levenshtein(term, maxDist)) && r.value.cursor.pos == 0
        && r.value.cursor.items == MatchingEntries(engine, Native.Levenshtein(term, maxDist), entries)
    {
      var lev := Native.LevenshteinNew(ctx, engine, term, maxDist);
      var checked := Errors.CheckedCall(ctx.View(), lev);
      if checked.Raise? {
        Native.TooLargeIsLevenshteinError("TooManyStates");
        return Errors.Raise(checked.exc);
      }
      var autom := checked.value.value;
      var it := Streams.NewIterator(MatchingEntries(engine, autom, entries), Some(autom), null);
      r := Errors.Return(it);
    }

    /** `_make_opbuilder(*others)`: self first, then the others in argument
        order. */
    method MakeOpBuilder(others: seq<FstMap>) returns (b: OpBuilder)
      ensures fresh(b) && !b.consumed && b.sources == [entries] + EntriesOf(others)
    {
      b := new OpBuilder(entries);
      for n := 0 to |others|
        invariant !b.consumed && b.sources == [entries] + EntriesOf(others)[..n]
      {
        b.Push(others[n].entries);
        assert EntriesOf(others)[..n + 1] == EntriesOf(others)[..n] + [others[n].entries];
      }
      assert EntriesOf(others)[..|others|] == EntriesOf(others);
    }

    /** `union`, `intersection`, `difference` and `symmetric_difference`: a
        stream of `(key, payload)` items over `(self, *others)`. */
    method Operate(op: Merge.SetOp, others: seq<FstMap>) returns (it: Streams.StreamIterator<Native.MapOpItem>)
      requires StrictlySorted(Keys(entries)) && forall i :: 0 <= i < |others| ==> StrictlySorted(Keys(others[i].entries))
      ensures fresh(it) && fresh(it.cursor) && it.Valid() && it.live && it.cursor.pos == 0
      ensures it.cursor.items == OpItems(op, Sources(entries, others))
    {
      var b := MakeOpBuilder(others);
      it := b.Run(op);
    }
  }

  /** The entries of each map, in order. */
  function EntriesOf(maps: seq<FstMap>): seq<seq<(string, U64)>>
  {
    seq(|maps|, i requires 0 <= i < |maps| => maps[i].entries)
  }

  /** The sources of an operation: `self`, then the others. */
  function Sources(first: seq<(string, U64)>, others: seq<FstMap>): (r: seq<seq<(string, U64)>>)
    requires StrictlySorted(Keys(first)) && forall i :: 0 <= i < |others| ==> StrictlySorted(Keys(others[i].entries))
    ensures |r| > 0 && AllIndexes(r) && r == [first] + EntriesOf(others)
  {
    [first] + EntriesOf(others)
  }

  /** The entries whose key an automaton accepts, in key order. */
  function MatchingEntries(engine: Native.Engine, autom: Native.Automaton, entries: seq<(string, U64)>)
    : (r: seq<(string, U64)>)
    ensures forall e :: e in r <==> e in entries && engine.accepts(autom, e.0)
    ensures StrictlySorted(Keys(entries)) ==> StrictlySorted(Keys(r))
    ensures Keys(r) == Filter(Keys(entries), k => engine.accepts(autom, k))
  {
    KeysOfFilterEntries(entries, k => engine.accepts(autom, k));
    FilterEntries(entries, k => engine.accepts(autom, k))
  }

  /** The native op builder of a map. */
  class OpBuilder {
    var sources: seq<seq<(string, U64)>>
    var consumed: bool

    /** `fst_map_make_opbuilder`. */
    constructor (first: seq<(string, U64)>)
      ensures sources == [first] && !consumed
    {
      sources := [first];
      consumed := false;
    }

    /** `fst_map_opbuilder_push`. */
    method Push(s: seq<(string, U64)>)
      requires !consumed
      modifies this
      ensures !consumed && sources == old(sources) + [s]
    {
      sources := sources + [s];
    }

    /** `OpBuilder.union` and its siblings: consume the builder and wrap the
        result stream. */
    method Run(op: Merge.SetOp) returns (it: Streams.StreamIterator<Native.MapOpItem>)
      requires !consumed && |sources| > 0 && AllIndexes(sources)
      modifies this
      ensures consumed && sources == old(sources)
      ensures fresh(it) && fresh(it.cursor) && it.Valid() && it.live && it.cursor.pos == 0
      ensures it.cursor.items == OpItems(op, sources) && it.owned.None?
    {
      consumed := true;
      it := Streams.NewIterator(OpItems(op, sources), None, null);
    }
  }

  // ---------------------------------------------------------------------
  // Dict sorting

  /** No key occurs twice, as in a dict. */
  predicate Distinct(keys: seq<string>)
  {
    forall i, j :: 0 <= i < j < |keys| ==> keys[i] != keys[j]
  }

  lemma KeysCons(e: (string, U64), s: seq<(string, U64)>)
    ensures Keys([e] + s) == [e.0] + Keys(s)
  {
    assert ([e] + s)[1..] == s;
  }

  /** The tail of sorted entries is sorted and lies above the head. */
  lemma {:induction false} SortedTail(s: seq<(string, U64)>)
    requires s != [] && StrictlySorted(Keys(s))
    ensures Keys(s) == [s[0].0] + Keys(s[1..])
    ensures StrictlySorted(Keys(s[1..])) && Merge.Below(s[0].0, Keys(s[1..]))
  {
    assert s == [s[0]] + s[1..];
    KeysCons(s[0], s[1..]);
    Merge.SortedHeadBelow(Keys(s));
  }

  /** A key below the first key goes in front. */
  lemma {:induction false} InsertFront(e: (string, U64), s: seq<(string, U64)>)
    requires s != [] && StrictlySorted(Keys(s)) && Less(e.0, s[0].0)
    ensures StrictlySorted(Keys([e] + s))
    ensures forall k :: k in Keys([e] + s) <==> k in Keys(s) || k == e.0
  {
    KeysCons(e, s);
    Merge.BelowSorted(Keys(s));
    forall k | k in Keys(s) ensures Less(e.0, k) {
      if k != s[0].0 { LessTransitive(e.0, s[0].0, k); }
    }
    Merge.ConsSorted(e.0, Keys(s));
  }

  /** A key above the first key goes into the tail. */
  lemma {:induction false} InsertBehind(e: (string, U64), s: seq<(string, U64)>, rest: seq<(string, U64)>)
    requires s != [] && StrictlySorted(Keys(s)) && e.0 !in Keys(s) && !Less(e.0, s[0].0)
    requires StrictlySorted(Keys(rest))
    requires forall k :: k in Keys(rest) <==> k in Keys(s[1..]) || k == e.0
    ensures StrictlySorted(Keys([s[0]] + rest))
    ensures forall k :: k in Keys([s[0]] + rest) <==> k in Keys(s) || k == e.0
  {
    SortedTail(s);
    KeysCons(s[0], rest);
    LessTotal(e.0, s[0].0);
    assert Merge.Below(s[0].0, Keys(rest));
    Merge.ConsSorted(s[0].0, Keys(rest));
  }

  /** Putting the head back in front of the tail with `e` inserted. */
  lemma {:induction false} ConsMultiset(e: (string, U64), s: seq<(string, U64)>, rest: seq<(string, U64)>)
    requires s != [] && multiset(rest) == multiset(s[1..]) + multiset{e}
    ensures multiset([s[0]] + rest) == multiset(s) + multiset{e}
  {
    assert s == [s[0]] + s[1..];
  }

  /** Insert `e` into entries sorted by key. */
  function InsertByKey(e: (string, U64), s: seq<(string, U64)>): (r: seq<(string, U64)>)
    requires StrictlySorted(Keys(s)) && e.0 !in Keys(s)
    ensures StrictlySorted(Keys(r))
    ensures multiset(r) == multiset(s) + multiset{e}
    ensures forall k :: k in Keys(r) <==> k in Keys(s) || k == e.0
    decreases |s|
  {
    if s == [] then
      assert Keys([e]) == [e.0];
      [e]
    else if Less(e.0, s[0].0) then
      InsertFront(e, s);
      [e] + s
    else
      SortedTail(s);
      var rest := InsertByKey(e, s[1..]);
      InsertBehind(e, s, rest);
      ConsMultiset(e, s, rest);
      [s[0]] + rest
  }

  /** `sorted(d.items(), key=lambda x: x[0])` for a dict's items. */
  function SortByKey(items: seq<(string, U64)>): (r: seq<(string, U64)>)
    requires Distinct(Keys(items))
    ensures StrictlySorted(Keys(r))
    ensures multiset(r) == multiset(items)
    ensures forall k :: k in Keys(r) <==> k in Keys(items)
  {
    if items == [] then []
    else
      assert items == [items[0]] + items[1..];
      KeysCons(items[0], items[1..]);
      var rest := SortByKey(items[1..]);
      InsertByKey(items[0], rest)
  }

  /** Every dict item can be read back from the sorted entries. */
  lemma SortedDictLookup(items: seq<(string, U64)>, i: nat)
    requires Distinct(Keys(items)) && i < |items|
    ensures Native.Get(SortByKey(items), items[i].0) == Some(items[i].1)
  {
    SortedHasItem(items, i);
    StoredEntry(SortByKey(items), items[i]);
  }

  lemma {:induction false} SortedHasItem(items: seq<(string, U64)>, i: nat)
    requires Distinct(Keys(items)) && i < |items|
    ensures items[i] in SortByKey(items)
  {
    var e := items[i];
    assert e in items;
    PermutationMember(e, items, SortByKey(items));
  }

  /** In a sorted index, `get` finds every stored entry. */
  lemma StoredEntry(index: seq<(string, U64)>, e: (string, U64))
    requires StrictlySorted(Keys(index)) && e in index
    ensures Native.Get(index, e.0) == Some(e.1)
  {
    var j :| 0 <= j < |index| && index[j] == e;
    Native.GetStored(index, j);
  }

  lemma PermutationMember(e: (string, U64), a: seq<(string, U64)>, b: seq<(string, U64)>)
    requires multiset(a) == multiset(b) && e in a
    ensures e in b
  {
    assert e in multiset(a);
  }

  /** A dict holding the items of the map tests is inserted in key order. */
  lemma DictSortExample()
    ensures SortByKey([("möö", 1), ("bar", 2), ("baz", 1337), ("foo", 65536)])
      == [("bar", 2), ("baz", 1337), ("foo", 65536), ("möö", 1)]
  {
    var items: seq<(string, U64)> := [("möö", 1), ("bar", 2), ("baz", 1337), ("foo", 65536)];
    assert items[1..] == [("bar", 2), ("baz", 1337), ("foo", 65536)];
    SortTail();
    InsertLast();
  }

  lemma SortTail()
    ensures SortByKey([("bar", 2), ("baz", 1337), ("foo", 65536)]) == [("bar", 2), ("baz", 1337), ("foo", 65536)]
  {
    TestKeysOrdered();
    SortSorted([("bar", 2), ("baz", 1337), ("foo", 65536)]);
  }

  lemma InsertLast()
    ensures InsertByKey(("möö", 1), [("bar", 2), ("baz", 1337), ("foo", 65536)])
      == [("bar", 2), ("baz", 1337), ("foo", 65536), ("möö", 1)]
  {
    TestKeysOrdered();
    InsertAbove(("möö", 1), [("bar", 2), ("baz", 1337), ("foo", 65536)]);
  }

  /** The map tests build from `sorted(TEST_ITEMS)`: a list of pairs, which
      `from_iter` inserts as given.  Its keys are in order, so the build
      succeeds, and every item reads back with its own value. */
  lemma TestItemsReadBack()
    ensures StrictlySorted(Keys(Inserted(Pairs(SortedTestItems))))
    ensures forall i :: 0 <= i < |SortedTestItems| ==>
      Native.Get(Inserted(Pairs(SortedTestItems)), SortedTestItems[i].0) == Some(SortedTestItems[i].1)
  {
    var tail: seq<(string, U64)> := [("bar", 2), ("baz", 1337), ("foo", 65536)];
    TestKeysOrdered();
    assert Keys(tail)[2] in Keys(tail);
    SortedAppend(Keys(tail), "möö");
    KeysAppend(tail, [("möö", 1)]);
    assert Keys([("möö", 1)]) == ["möö"];
    assert SortedTestItems == tail + [("möö", 1)];
    forall i | 0 <= i < |SortedTestItems|
      ensures Native.Get(SortedTestItems, SortedTestItems[i].0) == Some(SortedTestItems[i].1)
    {
      Native.GetStored(SortedTestItems, i);
    }
  }

  /** `sorted(TEST_ITEMS)` of the map tests. */
  const SortedTestItems: seq<(string, U64)> := [("bar", 2), ("baz", 1337), ("foo", 65536), ("möö", 1)]

  /** The other test keys are in order, and all below möö. */
  lemma TestKeysOrdered()
    ensures StrictlySorted(Keys([("bar", 2), ("baz", 1337), ("foo", 65536)]))
    ensures forall k :: k in Keys([("bar", 2), ("baz", 1337), ("foo", 65536)]) ==> Less(k, "möö")
    ensures "möö" !in Keys([("bar", 2), ("baz", 1337), ("foo", 65536)])
  {
    var tail: seq<(string, U64)> := [("bar", 2), ("baz", 1337), ("foo", 65536)];
    assert Keys(tail) == ["bar", "baz", "foo"];
    assert Less("bar", "baz") && Less("baz", "foo") && Less("bar", "foo");
    assert Less("bar", "möö") && Less("baz", "möö") && Less("foo", "möö");
  }

  /** Entries already in key order come out of the sort unchanged. */
  lemma {:induction false} SortSorted(items: seq<(string, U64)>)
    requires StrictlySorted(Keys(items))
    ensures Distinct(Keys(items)) && SortByKey(items) == items
    decreases |items|
  {
    forall i, j | 0 <= i < j < |Keys(items)| ensures Keys(items)[i] != Keys(items)[j] {
      SortedDistinct(Keys(items), i, j);
    }
    if items != [] {
      SortedTail(items);
      SortSorted(items[1..]);
      if items[1..] != [] {
        assert Keys(items)[0] == items[0].0 && Keys(items)[1] == items[1..][0].0;
      }
      assert items == [items[0]] + items[1..];
    }
  }

  /** A key above every stored key is appended. */
  lemma {:induction false} InsertAbove(e: (string, U64), s: seq<(string, U64)>)
    requires StrictlySorted(Keys(s)) && e.0 !in Keys(s)
    requires forall k :: k in Keys(s) ==> Less(k, e.0)
    ensures InsertByKey(e, s) == s + [e]
    decreases |s|
  {
    if s != [] {
      SortedTail(s);
      assert s[0].0 in Keys(s);
      LessAsymmetric(s[0].0, e.0);
      InsertAbove(e, s[1..]);
      assert InsertByKey(e, s) == [s[0]] + InsertByKey(e, s[1..]);
      assert s + [e] == [s[0]] + (s[1..] + [e]);
    }
  }

  /** The map test's fuzzy search: an automaton accepting bar and baz among
      the test keys yields their entries in key order. */
  lemma {:induction false} SearchExample(engine: Native.Engine)
    requires forall k :: engine.accepts(Native.Levenshtein("bam", 1), k) <==> k == "bar" || k == "baz"
    ensures MatchingEntries(engine, Native.Levenshtein("bam", 1), [("bar", 2), ("baz", 1337), ("foo", 65536), ("möö", 1)])
      == [("bar", 2), ("baz", 1337)]
  {
    var entries: seq<(string, U64)> := [("bar", 2), ("baz", 1337), ("foo", 65536), ("möö", 1)];
    assert entries[1..] == [("baz", 1337), ("foo", 65536), ("möö", 1)];
    assert entries[1..][1..] == [("foo", 65536), ("möö", 1)];
    assert entries[1..][1..][1..] == [("möö", 1)];
  }

  /** The argument of `from_iter`: a dict (its items, keys distinct) or any
      other iterable of pairs. */
  datatype MapSource = Dict(items: seq<(string, U64)>) | Pairs(pairs: seq<(string, U64)>)

  /** What `from_iter` inserts: a dict's items sorted by key, any other
      iterable as given. */
  function Inserted(src: MapSource): (r: seq<(string, U64)>)
    requires src.Dict? ==> Distinct(Keys(src.items))
    ensures src.Dict? ==> StrictlySorted(Keys(r)) && multiset(r) == multiset(src.items)
    ensures src.Pairs? ==> r == src.pairs
  {
    match src
    case Dict(items) => SortByKey(items)
    case Pairs(pairs) => pairs
  }

  // ---------------------------------------------------------------------
  // Opening and building

  /** `FstMap.__init__(path, pointer)`. */
  method Open(fs: Native.FileSystem?, path: Option<string>, pointer: Option<seq<(string, U64)>>)
    returns (r: Errors.Outcome<FstMap>)
    requires Sets.Truthy(path) ==> fs != null
    requires Sets.Truthy(path) || (pointer.Some? && StrictlySorted(Keys(pointer.value)))
    ensures r.Return? ==> fresh(r.value) && fresh(r.value.ctx) && r.value.Valid()
    ensures !Sets.Truthy(path) ==> r.Return? && r.value.entries == pointer.value
    ensures Sets.Truthy(path) && Native.FromPath(fs.files, path.value).Ok? ==>
      r.Return? && r.value.entries == Native.FromPath(fs.files, path.value).value
    ensures Sets.Truthy(path) && path.value !in fs.files ==> r.Raise? && r.exc.kind == Errors.IoError
    ensures Sets.Truthy(path) && path.value in fs.files && Native.FromBytes(fs.files[path.value]).Err? ==>
      r.Raise? && r.exc.kind == Errors.TransducerError
  {
    var ctx := new Native.Context();
    var entries: seq<(string, U64)>;
    if Sets.Truthy(path) {
      var m := Native.IndexOpen(ctx, fs, path.value);
      var checked := Errors.CheckedCall(ctx.View(), m);
      if checked.Raise? {
        Native.UnreadableIsIoError("NotFound");
        Native.TransducerFailure("Format");
        return Errors.Raise(checked.exc);
      }
      entries := checked.value.value;
    } else {
      entries := pointer.value;
    }
    var made := new FstMap(ctx, entries);
    r := Errors.Return(made);
  }

  /** The builder accepts the next entry exactly when the keys so far stay
      ascending; a refusal means the whole input is out of order. */
  lemma {:induction false} InsertStep(body: seq<(string, U64)>, n: nat)
    requires n < |body| && Ascending(Keys(body)[..n])
    ensures Native.InsertResult(body[..n], body[n].0).Ok? <==> Ascending(Keys(body)[..n + 1])
    ensures !Ascending(Keys(body)[..n + 1]) ==> !StrictlySorted(Keys(body))
  {
    var ks := Keys(body);
    AscendingStep(ks, n);
    Native.InsertResultLast(body[..n], body[n].0);
    if n > 0 {
      assert body[..n][n - 1].0 == ks[n - 1] && body[n].0 == ks[n];
    }
  }


  lemma EntriesAll(body: seq<(string, U64)>)
    ensures body[..|body|] == body && Keys(body)[..|body|] == Keys(body)
  {
  }

  /** `MemMapBuilder`: while open, its context and native builder; once
      finished, only the finished map. */
  class MemMapBuilder {
    var ctx: Native.Context?
    var ptr: Native.NativeBuilder?
    var mapPtr: Option<seq<(string, U64)>>

    ghost predicate Valid()
      reads this, ctx, ptr
    {
      && (ctx == null <==> ptr == null)
      && (ptr != null ==> ctx.Valid() && ptr.Valid() && !ptr.consumed && ptr.sink == null && mapPtr.None?)
      && (ptr == null ==> mapPtr.Some? && StrictlySorted(Keys(mapPtr.value)))
    }

    /** `MemMapBuilder.__init__`. */
    constructor ()
      ensures Valid() && fresh(ctx) && fresh(ptr) && ptr.entries == [] && mapPtr.None?
    {
      ctx := new Native.Context();
      ptr := new Native.NativeBuilder(null);
      mapPtr := None;
    }

    /** `insert`: appends the entry, or raises TransducerError when the key
        is not greater than the last one, leaving the builder as it was. */
    method Insert(key: string, value: U64) returns (r: Errors.Outcome<()>)
      requires Valid() && ptr != null
      modifies ctx, ptr
      ensures Valid() && ptr != null
      ensures Native.InsertResult(old(ptr.entries), key).Ok? ==>
        r.Return? && ptr.entries == old(ptr.entries) + [(key, value)]
      ensures Native.InsertResult(old(ptr.entries), key).Err? ==>
        r.Raise? && r.exc.kind == Errors.TransducerError && ptr.entries == old(ptr.entries)
    {
      var ok := Native.BuilderInsert(ctx, ptr, key, value);
      var checked := Errors.CheckedCall(ctx.View(), ok);
      if checked.Raise? {
        Native.TransducerFailure("OutOfOrder");
        return Errors.Raise(checked.exc);
      }
      r := Errors.Return(());
    }

    /** `finish`: the native finish under `checked_call`, which cannot fail
        for a builder whose inserts all succeeded; then drop the context and
        the builder pointer. */
    method Finish() returns (r: Errors.Outcome<()>)
      requires Valid() && ptr != null
      modifies this, ctx, ptr
      ensures Valid() && r.Return? && ctx == null && ptr == null
      ensures mapPtr == Some(old(ptr.entries))
    {
      var p, c := ptr, ctx;
      Native.EncodeDecode(p.entries);
      var m := Native.MemBuilderFinish(c, p);
      var checked := Errors.CheckedCall(c.View(), m);
      assert checked.Return? && checked.value == Some(p.entries);
      mapPtr := checked.value;
      ctx := null;
      ptr := null;
      r := Errors.Return(());
    }

    /** `get_map`: ValueError until `finish` has stored the map. */
    method GetMap() returns (r: Errors.Outcome<FstMap>)
      requires Valid()
      ensures mapPtr.None? ==>
        r == Errors.Raise(Errors.Exception(Errors.ValueError, Some(Sets.UnfinishedMessage)))
      ensures mapPtr.Some? ==> r.Return? && fresh(r.value) && r.value.Valid() && r.value.entries == mapPtr.value
    {
      if mapPtr.None? {
        return Errors.Raise(Errors.Exception(Errors.ValueError, Some(Sets.UnfinishedMessage)));
      }
      r := Open(null, None, mapPtr);
    }
  }

  /** `FileMapBuilder`: a context, the file writer and the native builder. */
  class FileMapBuilder {
    const ctx: Native.Context
    const writer: Native.Writer
    const builder: Native.NativeBuilder
    var finished: bool

    ghost predicate Valid()
      reads this, ctx, builder
    {
      && ctx.Valid() && builder.Valid() && builder.sink == writer
      && (finished ==> builder.consumed)
    }

    constructor (ctx: Native.Context, writer: Native.Writer, builder: Native.NativeBuilder)
      requires ctx.Valid() && builder.Valid() && builder.sink == writer && !builder.consumed
      ensures Valid() && !finished
      ensures this.ctx == ctx && this.writer == writer && this.builder == builder
    {
      this.ctx := ctx;
      this.writer := writer;
      this.builder := builder;
      finished := false;
    }

    /** `insert`: appends the entry, or raises TransducerError when the key
        is not greater than the last one and IoError when the device
        refuses the write, leaving the builder as it was. */
    method Insert(key: string, value: U64) returns (r: Errors.Outcome<()>)
      requires Valid() && !builder.consumed
      modifies ctx, builder
      ensures Valid() && !builder.consumed
      ensures Native.InsertOutcome(writer, old(builder.entries), key).Ok? ==>
        r.Return? && builder.entries == old(builder.entries) + [(key, value)]
      ensures Native.InsertResult(old(builder.entries), key).Err? ==>
        r.Raise? && r.exc.kind == Errors.TransducerError && builder.entries == old(builder.entries)
      ensures Native.InsertResult(old(builder.entries), key).Ok? && Native.FailsAt(writer, |old(builder.entries)| + 1) ==>
        r.Raise? && r.exc.kind == Errors.IoError && builder.entries == old(builder.entries)
    {
      var ok := Native.BuilderInsert(ctx, builder, key, value);
      var checked := Errors.CheckedCall(ctx.View(), ok);
      if checked.Raise? {
        Native.TransducerFailure("OutOfOrder");
        Native.UnreadableIsIoError("WriteZero");
        return Errors.Raise(checked.exc);
      }
      r := Errors.Return(());
    }

    /** The body of `with build(fpath) as b`: insert the entries one by one,
        stopping at the first that raises.  With the builder still empty
        and the header written, the first failure decides: an out-of-order
        key raises TransducerError, a refused write reached before it
        IoError. */
    method InsertAll(body: seq<(string, U64)>) returns (r: Errors.Outcome<()>)
      requires Valid() && !builder.consumed && builder.entries == [] && !Native.FailsAt(writer, 0)
      modifies ctx, builder
      ensures Valid() && !builder.consumed
      ensures r.Return? <==>
        StrictlySorted(Keys(body)) && (writer.path in writer.fs.faults ==> writer.fs.faults[writer.path] > |body|)
      ensures r.Return? ==> builder.entries == body
      ensures writer.path in writer.fs.faults && writer.fs.faults[writer.path] <= OrderedRun(Keys(body)) ==>
        r.Raise? && r.exc.kind == Errors.IoError
      ensures !StrictlySorted(Keys(body))
        && (writer.path in writer.fs.faults ==> writer.fs.faults[writer.path] > OrderedRun(Keys(body)))
        ==> r.Raise? && r.exc.kind == Errors.TransducerError
    {
      for n := 0 to |body|
        invariant Valid() && !builder.consumed && n <= OrderedRun(Keys(body))
        invariant builder.entries == body[..n]
        invariant writer.path in writer.fs.faults ==> writer.fs.faults[writer.path] > n
      {
        var ins := InsertNext(body, n);
        if ins.Raise? {
          return ins;
        }
      }
      EntriesAll(body);
      OrderedRunSorted(Keys(body));
      r := Errors.Return(());
    }

    /** One step of `InsertAll`: the entry at `n` after an ordered, written
        prefix.  A raise says which failure it met and where that leaves the
        ordered run of the keys. */
    method InsertNext(body: seq<(string, U64)>, n: nat) returns (r: Errors.Outcome<()>)
      requires Valid() && !builder.consumed && n < |body| && n <= OrderedRun(Keys(body))
      requires builder.entries == body[..n]
      requires writer.path in writer.fs.faults ==> writer.fs.faults[writer.path] > n
      modifies ctx, builder
      ensures Valid() && !builder.consumed
      ensures r.Return? ==>
        && builder.entries == body[..n + 1] && n + 1 <= OrderedRun(Keys(body))
        && (writer.path in writer.fs.faults ==> writer.fs.faults[writer.path] > n + 1)
      ensures r.Raise? ==>
        || (r.exc.kind == Errors.TransducerError && OrderedRun(Keys(body)) == n && !StrictlySorted(Keys(body)))
        || (r.exc.kind == Errors.IoError && writer.path in writer.fs.faults
            && writer.fs.faults[writer.path] == n + 1 <= OrderedRun(Keys(body)))
    {
      RunPrefix(Keys(body), n);
      InsertStep(body, n);
      RunAtInsert(Keys(body), n);
      var (key, value) := body[n];
      r := Insert(key, value);
      if r.Return? {
        PrefixSnoc(body, n);
      }
    }

    /** `finish`: the native finish under `checked_call`, then free the
        writer, which flushes the index into the file.  A refused flush
        raises IoError before the writer is freed, so the file keeps what
        `File::create` left. */
    method Finish() returns (r: Errors.Outcome<()>)
      requires Valid() && !builder.consumed
      modifies this, ctx, builder, writer, writer.fs
      ensures Valid() && builder.consumed && builder.entries == old(builder.entries)
      ensures !Native.FailsFrom(writer, |old(builder.entries)| + 1) ==>
        && r.Return? && finished
        && writer.fs.files == old(writer.fs.files)[writer.path := Native.Encoded(old(builder.entries))]
      ensures Native.FailsFrom(writer, |old(builder.entries)| + 1) ==>
        r.Raise? && r.exc.kind == Errors.IoError && !finished && writer.fs.files == old(writer.fs.files)
    {
      var ok := Native.FileBuilderFinish(ctx, builder);
      var checked := Errors.CheckedCall(ctx.View(), ok);
      if checked.Raise? {
        Native.UnreadableIsIoError("WriteZero");
        return Errors.Raise(checked.exc);
      }
      Native.BufWriterFree(writer);
      finished := true;
      r := Errors.Return(());
    }
  }

  /** `FileMapBuilder.__init__`: create the file (OSError when it cannot be
      created) and a builder writing to it (IoError when the device refuses
      the header). */
  method NewFileMapBuilder(fs: Native.FileSystem, path: string) returns (r: Errors.Outcome<FileMapBuilder>)
    modifies fs
    ensures path !in fs.creatable ==> r.Raise? && r.exc.kind == Errors.OSError && fs.files == old(fs.files)
    ensures path in fs.creatable ==> fs.files == old(fs.files)[path := Native.Garbage]
    ensures path in fs.creatable && Native.FaultAt(fs, path, 0) ==> r.Raise? && r.exc.kind == Errors.IoError
    ensures path in fs.creatable && !Native.FaultAt(fs, path, 0) ==>
      && r.Return? && fresh(r.value) && fresh(r.value.ctx) && fresh(r.value.builder) && fresh(r.value.writer)
      && r.value.Valid() && !r.value.finished && !r.value.builder.consumed && r.value.builder.entries == []
      && r.value.writer.fs == fs && r.value.writer.path == path && r.value.writer.buffer == Native.Garbage
  {
    var ctx := new Native.Context();
    var w := Native.BufWriterNew(ctx, fs, path);
    var checked := Errors.CheckedCall(ctx.View(), w);
    if checked.Raise? {
      Native.IoFailureClass("NotFound");
      return Errors.Raise(checked.exc);
    }
    var b := Native.FileBuilderNew(ctx, w);
    var made := Errors.CheckedCall(ctx.View(), b);
    if made.Raise? {
      Native.UnreadableIsIoError("WriteZero");
      return Errors.Raise(made.exc);
    }
    var builder := new FileMapBuilder(ctx, w, b);
    r := Errors.Return(builder);
  }

  /** The file branch of `build`: a builder (OSError when the file cannot
      be created), the body's inserts, and `finish` only if none raised.
      The first failure decides: an out-of-order key raises
      TransducerError, a refused write reached before it IoError; only a
      sorted body on a device that refuses nothing yields the file. */
  method BuildInFile(fs: Native.FileSystem, path: string, body: seq<(string, U64)>)
    returns (r: Errors.Outcome<FileMapBuilder>)
    modifies fs
    ensures path !in fs.creatable ==> r.Raise? && r.exc.kind == Errors.OSError && fs.files == old(fs.files)
    ensures path in fs.creatable ==>
      fs.files == old(fs.files)[path := if r.Return? then Native.Encoded(body) else Native.Garbage]
    ensures path in fs.creatable ==> (r.Return? <==> StrictlySorted(Keys(body)) && path !in fs.faults)
    ensures r.Return? ==> r.value.finished
    ensures path in fs.creatable && path in fs.faults
      && (StrictlySorted(Keys(body)) || fs.faults[path] <= OrderedRun(Keys(body)))
      ==> r.Raise? && r.exc.kind == Errors.IoError
    ensures path in fs.creatable && !StrictlySorted(Keys(body))
      && (path !in fs.faults || fs.faults[path] > OrderedRun(Keys(body)))
      ==> r.Raise? && r.exc.kind == Errors.TransducerError
  {
    OrderedRunSorted(Keys(body));
    var made := NewFileMapBuilder(fs, path);
    if made.Raise? {
      return Errors.Raise(made.exc);
    }
    var builder := made.value;
    var ins := builder.InsertAll(body);
    if ins.Raise? {
      return Errors.Raise(ins.exc);
    }
    var fin := builder.Finish();
    if fin.Raise? {
      return Errors.Raise(fin.exc);
    }
    r := Errors.Return(builder);
  }

  /** The memory branch of `build`. */
  method BuildInMemory(body: seq<(string, U64)>) returns (r: Errors.Outcome<MemMapBuilder>)
    ensures StrictlySorted(Keys(body)) ==>
      r.Return? && fresh(r.value) && r.value.Valid() && r.value.mapPtr == Some(body)
    ensures !StrictlySorted(Keys(body)) ==> r.Raise? && r.exc.kind == Errors.TransducerError
  {
    var builder := new MemMapBuilder();
    ghost var keys := Keys(body);
    for n := 0 to |body|
      invariant builder.Valid() && builder.ptr != null && fresh(builder.ptr) && fresh(builder.ctx)
      invariant Ascending(keys[..n]) && builder.ptr.entries == body[..n]
    {
      InsertStep(body, n);
      var ins := builder.Insert(body[n].0, body[n].1);
      if ins.Raise? {
        return Errors.Raise(ins.exc);
      }
      PrefixSnoc(body, n);
    }
    EntriesAll(body);
    AscendingIsSorted(keys);
    var fin := builder.Finish();
    r := Errors.Return(builder);
  }

  /** The builder `build` yields. */
  datatype MapBuilder = FileBuilder(file: FileMapBuilder) | MemBuilder(mem: MemMapBuilder)

  /** `FstMap.build(fpath)` around a body that inserts `body` entry by
      entry: a file builder for a truthy path, else a memory builder;
      `finish` runs only when every insert succeeded. */
  method Build(fs: Native.FileSystem, fpath: Option<string>, body: seq<(string, U64)>)
    returns (r: Errors.Outcome<MapBuilder>)
    modifies fs
    ensures r.Return? ==> (r.value.FileBuilder? <==> Sets.Truthy(fpath))
    ensures Sets.Truthy(fpath) && fpath.value !in fs.creatable ==>
      r.Raise? && r.exc.kind == Errors.OSError && fs.files == old(fs.files)
    ensures Sets.Truthy(fpath) && fpath.value in fs.creatable ==>
      && fs.files == old(fs.files)[fpath.value := if r.Return? then Native.Encoded(body) else Native.Garbage]
      && (r.Return? <==> StrictlySorted(Keys(body)) && fpath.value !in fs.faults)
      && (r.Return? ==> r.value.file.finished)
    ensures Sets.Truthy(fpath) && fpath.value in fs.creatable && fpath.value in fs.faults
      && (StrictlySorted(Keys(body)) || fs.faults[fpath.value] <= OrderedRun(Keys(body)))
      ==> r.Raise? && r.exc.kind == Errors.IoError
    ensures Sets.Truthy(fpath) && fpath.value in fs.creatable && !StrictlySorted(Keys(body))
      && (fpath.value !in fs.faults || fs.faults[fpath.value] > OrderedRun(Keys(body)))
      ==> r.Raise? && r.exc.kind == Errors.TransducerError
    ensures !Sets.Truthy(fpath) ==> fs.files == old(fs.files)
    ensures !Sets.Truthy(fpath) && StrictlySorted(Keys(body)) ==>
      r.Return? && fresh(r.value.mem) && r.value.mem.Valid() && r.value.mem.mapPtr == Some(body)
    ensures !Sets.Truthy(fpath) && !StrictlySorted(Keys(body)) ==> r.Raise? && r.exc.kind == Errors.TransducerError
  {
    if Sets.Truthy(fpath) {
      var built := BuildInFile(fs, fpath.value, body);
      if built.Raise? {
        return Errors.Raise(built.exc);
      }
      r := Errors.Return(FileBuilder(built.value));
    } else {
      var built := BuildInMemory(body);
      if built.Raise? {
        return Errors.Raise(built.exc);
      }
      r := Errors.Return(MemBuilder(built.value));
    }
  }

  /** `FstMap.from_iter(it, fpath)`: a dict is inserted sorted by key, so it
      always builds and every item reads back; other pairs are inserted as
      given and build exactly when their keys are in order.  An uncreatable
      path raises OSError, and a device that refuses a write reached before
      the first out-of-order key IoError. */
  method FromIter(fs: Native.FileSystem, src: MapSource, fpath: Option<string>) returns (r: Errors.Outcome<FstMap>)
    requires src.Dict? ==> Distinct(Keys(src.items))
    modifies fs
    ensures r.Return? ==> fresh(r.value) && r.value.Valid()
    ensures (!Sets.Truthy(fpath) || (fpath.value in fs.creatable && fpath.value !in fs.faults)) ==>
      && (r.Return? <==> StrictlySorted(Keys(Inserted(src))))
      && (r.Return? ==> r.value.entries == Inserted(src) && r.value.Len() == |Inserted(src)|)
      && (r.Raise? ==> r.exc.kind == Errors.TransducerError)
    ensures (!Sets.Truthy(fpath) || (fpath.value in fs.creatable && fpath.value !in fs.faults)) && src.Dict? ==>
      && r.Return?
      && forall i :: 0 <= i < |src.items| ==> Native.Get(r.value.entries, src.items[i].0) == Some(src.items[i].1)
    ensures Sets.Truthy(fpath) && fpath.value !in fs.creatable ==> r.Raise? && r.exc.kind == Errors.OSError
    ensures Sets.Truthy(fpath) && fpath.value in fs.creatable && fpath.value in fs.faults ==>
      && r.Raise?
      && (StrictlySorted(Keys(Inserted(src))) || fs.faults[fpath.value] <= OrderedRun(Keys(Inserted(src)))
          ==> r.exc.kind == Errors.IoError)
      && (!StrictlySorted(Keys(Inserted(src))) && fs.faults[fpath.value] > OrderedRun(Keys(Inserted(src)))
          ==> r.exc.kind == Errors.TransducerError)
  {
    var body := Inserted(src);
    var built := Build(fs, fpath, body);
    if built.Raise? {
      return Errors.Raise(built.exc);
    }
    if Sets.Truthy(fpath) {
      r := Open(fs, fpath, None);
    } else {
      r := built.value.mem.GetMap();
    }
    if src.Dict? {
      forall i | 0 <= i < |src.items|
        ensures Native.Get(body, src.items[i].0) == Some(src.items[i].1)
      {
        SortedDictLookup(src.items, i);
      }
    }
  }
}
