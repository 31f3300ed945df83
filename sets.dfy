/** The Set facade of rust_fst/set.py: builders that write an index to a
    file or to memory, the immutable `Set` over a strictly increasing key
    sequence, range slices, the four set operations, the subset predicates
    and the automaton searches. */
module Sets {
  import opened Wrappers
  import opened Order
  import Errors
  import Native
  import Streams
  import Merge

  /** `if x:` on an optional string: None and the empty string are false. */
  predicate Truthy(s: Option<string>)
  {
    s.Some? && |s.value| > 0
  }

  /** The native entries of a set index: each key with the value 0. */
  function SetEntries(keys: seq<string>): (r: seq<(string, U64)>)
    ensures |r| == |keys| && Keys(r) == keys
  {
    seq(|keys|, i requires 0 <= i < |keys| => (keys[i], 0))
  }

  lemma SetEntriesAppend(keys: seq<string>, key: string)
    ensures SetEntries(keys + [key]) == SetEntries(keys) + [(key, 0)]
  {
  }

  /** One more key of the input is one more entry. */
  lemma SetEntriesStep(body: seq<string>, n: nat)
    requires n < |body|
    ensures SetEntries(body[..n + 1]) == SetEntries(body[..n]) + [(body[n], 0)]
  {
    assert body[..n + 1] == body[..n] + [body[n]];
    SetEntriesAppend(body[..n], body[n]);
  }

  /** The whole input is its longest prefix. */
  lemma SetEntriesAll(body: seq<string>)
    ensures SetEntries(body[..|body|]) == SetEntries(body)
  {
    assert body[..|body|] == body;
  }

  /** The builder accepts the next key exactly when the keys so far stay
      ascending; a refusal means the whole input is out of order. */
  lemma {:induction false} InsertStep(body: seq<string>, n: nat)
    requires n < |body| && Ascending(body[..n])
    ensures Native.InsertResult(SetEntries(body[..n]), body[n]).Ok? <==> Ascending(body[..n + 1])
    ensures !Ascending(body[..n + 1]) ==> !StrictlySorted(body)
  {
    AscendingStep(body, n);
    Native.InsertResultLast(SetEntries(body[..n]), body[n]);
    assert n > 0 ==> SetEntries(body[..n])[n - 1].0 == body[..n][n - 1] == body[n - 1];
  }


  // ---------------------------------------------------------------------
  // The set

  /** An immutable set: its context and the keys of its index. */
  class Set {
    const ctx: Native.Context
    const keys: seq<string>

    ghost predicate Valid()
      reads this, ctx
    {
      ctx.Valid() && StrictlySorted(keys)
    }

    constructor (ctx: Native.Context, keys: seq<string>)
      requires ctx.Valid() && StrictlySorted(keys)
      ensures Valid() && this.ctx == ctx && this.keys == keys
    {
      this.ctx := ctx;
      this.keys := keys;
    }

    /** `__contains__` (`fst_set_contains`): the lookup of the key in the
        index finds it. */
    predicate Contains(key: string)
      ensures Contains(key) <==> Native.Get(SetEntries(keys), key).Some?
    {
      key in keys
    }

    /** `__len__` (`fst_set_len`): the number of members, each counted once. */
    function Len(): (n: nat)
      ensures StrictlySorted(keys) ==> n == |KeySet(keys)|
    {
      SortedCount(keys);
      |keys|
    }

    /** `__iter__`: every key, in key order. */
    method Iter() returns (it: Streams.StreamIterator<string>)
      ensures fresh(it) && fresh(it.cursor) && it.Valid() && it.live
      ensures it.cursor.items == keys && it.cursor.pos == 0 && it.owned.None?
    {
      it := Streams.NewIterator(keys, None, null);
    }

    /** `__getitem__`: a range stream, or ValueError for an argument that is
        not a slice or whose bounds are reversed. */
    method GetItem(s: Subscript) returns (r: Errors.Outcome<Streams.StreamIterator<string>>)
      ensures s.Item? ==> r == Errors.Raise(Errors.Exception(Errors.ValueError, Some(NotASliceMessage)))
      ensures ReversedBounds(s) ==> r == Errors.Raise(Errors.Exception(Errors.ValueError, Some(ReversedMessage)))
      ensures s.Slice? && !ReversedBounds(s) ==>
        && r.Return? && fresh(r.value) && fresh(r.value.cursor) && r.value.Valid() && r.value.live
        && r.value.cursor.items == RangeStream(keys, SliceBounds(s.start, s.stop))
        && r.value.cursor.pos == 0 && r.value.owned.None?
    {
      if !s.Slice? {
        return Errors.Raise(Errors.Exception(Errors.ValueError, Some(NotASliceMessage)));
      }
      if Truthy(s.start) && Truthy(s.stop) && Less(s.stop.value, s.start.value) {
        return Errors.Raise(Errors.Exception(Errors.ValueError, Some(ReversedMessage)));
      }
      var sb := StreamBuilder(None, None);
      if Truthy(s.start) {
        sb := sb.(ge := s.start);
      }
      if Truthy(s.stop) {
        sb := sb.(lt := s.stop);
      }
      var it := Streams.NewIterator(RangeStream(keys, sb), None, null);
      r := Errors.Return(it);
    }

    /** `_make_opbuilder(*others)`: self first, then the others in argument
        order. */
    method MakeOpBuilder(others: seq<Set>) returns (b: OpBuilder)
      ensures fresh(b) && !b.consumed && b.sources == [keys] + KeysOf(others)
    {
      b := new OpBuilder(keys);
      for n := 0 to |others|
        invariant !b.consumed && b.sources == [keys] + KeysOf(others)[..n]
      {
        b.Push(others[n].keys);
        assert KeysOf(others)[..n + 1] == KeysOf(others)[..n] + [others[n].keys];
      }
      assert KeysOf(others)[..|others|] == KeysOf(others);
    }

    /** `union`, `intersection`, `difference` and `symmetric_difference`: a
        key stream over the result of `op` on `(self, *others)`. */
    method Operate(op: Merge.SetOp, others: seq<Set>) returns (it: Streams.StreamIterator<string>)
      requires StrictlySorted(keys) && forall i :: 0 <= i < |others| ==> StrictlySorted(others[i].keys)
      ensures fresh(it) && fresh(it.cursor) && it.Valid() && it.live && it.cursor.pos == 0
      ensures it.cursor.items == Merge.Combine(op, Sources(keys, others))
    {
      var b := MakeOpBuilder(others);
      it := b.Run(op);
    }

    /** `issubset` (`fst_set_issubset`): every member is in `other`. */
    predicate IsSubset(other: Set)
      ensures IsSubset(other) <==> forall k :: Contains(k) ==> other.Contains(k)
    {
      assert forall k :: Contains(k) <==> k in keys;
      assert forall k :: other.Contains(k) <==> k in other.keys;
      Merge.SubsetOf(keys, other.keys)
    }

    /** `issuperset` (`fst_set_issuperset`): every member of `other` is in
        this set. */
    predicate IsSuperset(other: Set)
      ensures IsSuperset(other) <==> forall k :: other.Contains(k) ==> Contains(k)
    {
      assert forall k :: Contains(k) <==> k in keys;
      assert forall k :: other.Contains(k) <==> k in other.keys;
      Merge.SubsetOf(other.keys, keys)
    }

    /** `isdisjoint` (`fst_set_isdisjoint`): no member is in both. */
    predicate IsDisjoint(other: Set)
      ensures IsDisjoint(other) <==> forall k :: !(Contains(k) && other.Contains(k))
    {
      assert forall k :: Contains(k) <==> k in keys;
      assert forall k :: other.Contains(k) <==> k in other.keys;
      Merge.DisjointFrom(keys, other.keys)
    }

    /** `search`: the Levenshtein automaton is built first, under
        `checked_call`; when it is too large LevenshteinError is raised and no
        stream is opened.  Otherwise the stream yields the accepted keys in
        key order and owns the automaton. */
    method Search(engine: Native.Engine, term: string, maxDist: U32)
      returns (r: Errors.Outcome<Streams.StreamIterator<string>>)
      requires Valid()
      modifies ctx
      ensures Valid()
      ensures engine.levenshteinTooLarge(term, maxDist) ==>
        r.Raise? && r.exc.kind == Errors.LevenshteinError
      ensures !engine.levenshteinTooLarge(term, maxDist) ==>
        && r.Return? && fresh(r.value) && fresh(r.value.cursor) && r.value.Valid() && r.value.live
        && r.value.owned == Some(Native.Levenshtein(term, maxDist)) && r.value.cursor.pos == 0
        && r.value.cursor.items == Matches(engine, Native.Levenshtein(term, maxDist), keys)
    {
      var lev := Native.LevenshteinNew(ctx, engine, term, maxDist);
      var checked := Errors.CheckedCall(ctx.View(), lev);
      if checked.Raise? {
        Native.TooLargeIsLevenshteinError("TooManyStates");
        return Errors.Raise(checked.exc);
      }
      var autom := checked.value.value;
      var it := Streams.NewIterator(Matches(engine, autom, keys), Some(autom), null);
      r := Errors.Return(it);
    }

    /** `search_re`: like `search`, with a regex automaton and RegexError. */
    method SearchRe(engine: Native.Engine, pattern: string)
      returns (r: Errors.Outcome<Streams.StreamIterator<string>>)
      requires Valid()
      modifies ctx
      ensures Valid()
      ensures engine.regexRejected(pattern) ==> r.Raise? && r.exc.kind == Errors.RegexError
      ensures !engine.regexRejected(pattern) ==>
        && r.Return? && fresh(r.value) && fresh(r.value.cursor) && r.value.Valid() && r.value.live
        && r.value.owned == Some(Native.Regex(pattern)) && r.value.cursor.pos == 0
        && r.value.cursor.items == Matches(engine, Native.Regex(pattern), keys)
    {
      var re := Native.RegexNew(ctx, engine, pattern);
      var checked := Errors.CheckedCall(ctx.View(), re);
      if checked.Raise? {
        Native.RejectedIsRegexError("Syntax");
        return Errors.Raise(checked.exc);
      }
      var autom := checked.value.value;
      var it := Streams.NewIterator(Matches(engine, autom, keys), Some(autom), null);
      r := Errors.Return(it);
    }
  }

  /** The keys of each set, in order. */
  function KeysOf(sets: seq<Set>): seq<seq<string>>
  {
    seq(|sets|, i requires 0 <= i < |sets| => sets[i].keys)
  }

  /** The sources of an operation: `self`, then the others. */
  function Sources(first: seq<string>, others: seq<Set>): (r: seq<seq<string>>)
    requires StrictlySorted(first) && forall i :: 0 <= i < |others| ==> StrictlySorted(others[i].keys)
    ensures |r| > 0 && Merge.AllSorted(r) && r == [first] + KeysOf(others)
  {
    [first] + KeysOf(others)
  }

  /** The keys an automaton accepts, in key order. */
  function Matches(engine: Native.Engine, autom: Native.Automaton, keys: seq<string>): (r: seq<string>)
    ensures forall k :: k in r <==> k in keys && engine.accepts(autom, k)
    ensures StrictlySorted(keys) ==> StrictlySorted(r)
  {
    Filter(keys, k => engine.accepts(autom, k))
  }

  // ---------------------------------------------------------------------
  // Range slices

  /** The argument of `__getitem__`: a plain key, or a slice with optional
      string bounds. */
  datatype Subscript = Item(key: string) | Slice(start: Option<string>, stop: Option<string>)

  const NotASliceMessage: string := "Value must be a string slice (e.g. `['foo':]`)"
  const ReversedMessage: string := "Start key must be lexicographically smaller than stop."

  /** Both bounds given (and nonempty) with the start after the stop. */
  predicate ReversedBounds(s: Subscript)
  {
    s.Slice? && Truthy(s.start) && Truthy(s.stop) && Less(s.stop.value, s.start.value)
  }

  /** The native range stream builder: the bounds added so far. */
  datatype StreamBuilder = StreamBuilder(ge: Option<string>, lt: Option<string>)

  /** A key within the bounds: at least `ge`, and less than `lt`. */
  predicate InBounds(sb: StreamBuilder, key: string)
  {
    (sb.ge.None? || !Less(key, sb.ge.value)) && (sb.lt.None? || Less(key, sb.lt.value))
  }

  /** `fst_set_streambuilder_finish`: the keys within the bounds. */
  function RangeStream(keys: seq<string>, sb: StreamBuilder): (r: seq<string>)
    ensures forall k :: k in r <==> k in keys && InBounds(sb, k)
    ensures StrictlySorted(keys) ==> StrictlySorted(r)
  {
    Filter(keys, k => InBounds(sb, k))
  }

  /** The builder `__getitem__` assembles: a bound is added only when it is
      truthy. */
  function SliceBounds(start: Option<string>, stop: Option<string>): (sb: StreamBuilder)
    ensures forall k :: InBounds(sb, k) <==>
      (Truthy(start) ==> !Less(k, start.value)) && (Truthy(stop) ==> Less(k, stop.value))
  {
    StreamBuilder(if Truthy(start) then start else None, if Truthy(stop) then stop else None)
  }

  /** A slice is half-open: the start is inclusive, the stop exclusive, an
      absent or empty bound is unbounded, and the keys stay in order. */
  lemma SliceMeaning(keys: seq<string>, start: Option<string>, stop: Option<string>, k: string)
    requires StrictlySorted(keys)
    ensures StrictlySorted(RangeStream(keys, SliceBounds(start, stop)))
    ensures k in RangeStream(keys, SliceBounds(start, stop)) <==>
      && k in keys
      && (Truthy(start) ==> !Less(k, start.value))
      && (Truthy(stop) ==> Less(k, stop.value))
  {
  }

  /** Equal bounds are allowed and select nothing. */
  lemma EqualBoundsEmpty(keys: seq<string>, bound: string)
    requires |bound| > 0
    ensures !ReversedBounds(Slice(Some(bound), Some(bound)))
    ensures RangeStream(keys, SliceBounds(Some(bound), Some(bound))) == []
  {
    LessIrreflexive(bound);
    var sb := SliceBounds(Some(bound), Some(bound));
    assert forall k :: k in keys ==> !InBounds(sb, k);
    FilterNone(keys, k => InBounds(sb, k));
  }

  /** The documented example: `['b':'f']` over bar, baz, foo, moo is bar, baz. */
  lemma SliceExample()
    ensures RangeStream(["bar", "baz", "foo", "moo"], SliceBounds(Some("b"), Some("f"))) == ["bar", "baz"]
  {
    var keys := ["bar", "baz", "foo", "moo"];
    var sb := SliceBounds(Some("b"), Some("f"));
    assert InBounds(sb, "bar") && InBounds(sb, "baz");
    assert !InBounds(sb, "foo") && !InBounds(sb, "moo");
    assert keys[1..] == ["baz", "foo", "moo"] && keys[2..] == ["foo", "moo"] && keys[3..] == ["moo"];
  }

  // ---------------------------------------------------------------------
  // Set operations

  /** The native op builder: the sources pushed so far; running an
      operation consumes it. */
  class OpBuilder {
    var sources: seq<seq<string>>
    var consumed: bool

    /** `fst_set_make_opbuilder`. */
    constructor (first: seq<string>)
      ensures sources == [first] && !consumed
    {
      sources := [first];
      consumed := false;
    }

    /** `fst_set_opbuilder_push`. */
    method Push(s: seq<string>)
      requires !consumed
      modifies this
      ensures !consumed && sources == old(sources) + [s]
    {
      sources := sources + [s];
    }

    /** `OpBuilder.union` and its siblings: consume the builder and wrap the
        result stream. */
    method Run(op: Merge.SetOp) returns (it: Streams.StreamIterator<string>)
      requires !consumed && |sources| > 0 && Merge.AllSorted(sources)
      modifies this
      ensures consumed && sources == old(sources)
      ensures fresh(it) && fresh(it.cursor) && it.Valid() && it.live && it.cursor.pos == 0
      ensures it.cursor.items == Merge.Combine(op, sources) && it.owned.None?
    {
      consumed := true;
      it := Streams.NewIterator(Merge.Combine(op, sources), None, null);
    }
  }

  /** The test examples over `{bar, foo}` and `{baz, foo}`. */
  lemma UnionExample()
    ensures Merge.Combine(Merge.Union, [["bar", "foo"], ["baz", "foo"]]) == ["bar", "baz", "foo"]
  {
    assert Less("bar", "baz") && Less("baz", "foo") && Less("bar", "foo");
    Merge.TwoSourceCombine(Merge.Union, ["bar", "foo"], ["baz", "foo"], ["bar", "baz", "foo"]);
  }

  lemma IntersectionExample()
    ensures Merge.Combine(Merge.Intersection, [["bar", "foo"], ["baz", "foo"]]) == ["foo"]
  {
    assert Less("bar", "baz") && Less("baz", "foo") && Less("bar", "foo");
    Merge.TwoSourceCombine(Merge.Intersection, ["bar", "foo"], ["baz", "foo"], ["foo"]);
  }

  lemma DifferenceExample()
    ensures Merge.Combine(Merge.Difference, [["bar", "foo"], ["baz", "foo"]]) == ["bar"]
  {
    assert Less("bar", "baz") && Less("baz", "foo") && Less("bar", "foo");
    Merge.TwoSourceCombine(Merge.Difference, ["bar", "foo"], ["baz", "foo"], ["bar"]);
  }

  lemma SymmetricDifferenceExample()
    ensures Merge.Combine(Merge.SymmetricDifference, [["bar", "foo"], ["baz", "foo"]]) == ["bar", "baz"]
  {
    assert Less("bar", "baz") && Less("baz", "foo") && Less("bar", "foo");
    Merge.TwoSourceCombine(Merge.SymmetricDifference, ["bar", "foo"], ["baz", "foo"], ["bar", "baz"]);
  }

  // ---------------------------------------------------------------------
  // Subset predicates

  lemma SubsetReflexive(a: Set)
    ensures a.IsSubset(a) && a.IsSuperset(a)
  {
  }

  /** A set built from any selection of another set's keys is a subset of
      it, and the other set its superset; a selection that leaves a key out
      is not a superset. */
  lemma SelectionSubset(a: Set, b: Set)
    requires forall k :: k in b.keys ==> k in a.keys
    ensures b.IsSubset(a) && a.IsSuperset(b)
    ensures (exists k :: k in a.keys && k !in b.keys) ==> !b.IsSuperset(a) && !a.IsSubset(b)
  {
    if exists k :: k in a.keys && k !in b.keys {
      var k :| k in a.keys && k !in b.keys;
      assert a.Contains(k) && !b.Contains(k);
    }
  }

  /** The subset test's sets: the index of möö and bar inside the index of
      all four keys. */
  lemma SubsetExample(a: Set, b: Set)
    requires a.keys == ["bar", "baz", "foo", "möö"] && b.keys == ["bar", "möö"]
    ensures b.IsSubset(a) && a.IsSuperset(b) && !a.IsSubset(b) && !b.IsSuperset(a)
  {
    assert "baz" in a.keys && "baz" !in b.keys;
    SelectionSubset(a, b);
  }

  /** `issuperset` is `issubset` the other way round. */
  lemma SupersetIsConverse(a: Set, b: Set)
    ensures a.IsSuperset(b) <==> b.IsSubset(a)
  {
  }

  lemma DisjointSymmetric(a: Set, b: Set)
    ensures a.IsDisjoint(b) <==> b.IsDisjoint(a)
  {
  }

  /** A nonempty set is not disjoint from itself. */
  lemma NotDisjointFromSelf(a: Set)
    requires |a.keys| > 0
    ensures !a.IsDisjoint(a)
  {
    assert a.keys[0] in a.keys;
  }

  // ---------------------------------------------------------------------
  // Opening and building

  /** `Set.__init__(path, _pointer)`: with a truthy path, a fresh context and
      `fst_set_open` under `checked_call`; otherwise the given index. */
  method Open(fs: Native.FileSystem?, path: Option<string>, pointer: Option<seq<string>>)
    returns (r: Errors.Outcome<Set>)
    requires Truthy(path) ==> fs != null
    requires Truthy(path) || (pointer.Some? && StrictlySorted(pointer.value))
    ensures r.Return? ==> fresh(r.value) && fresh(r.value.ctx) && r.value.Valid()
    ensures !Truthy(path) ==> r.Return? && r.value.keys == pointer.value
    ensures Truthy(path) && Native.FromPath(fs.files, path.value).Ok? ==>
      r.Return? && r.value.keys == Keys(Native.FromPath(fs.files, path.value).value)
    ensures Truthy(path) && path.value !in fs.files ==> r.Raise? && r.exc.kind == Errors.IoError
    ensures Truthy(path) && path.value in fs.files && Native.FromBytes(fs.files[path.value]).Err? ==>
      r.Raise? && r.exc.kind == Errors.TransducerError
  {
    var ctx := new Native.Context();
    var keys: seq<string>;
    if Truthy(path) {
      var s := Native.IndexOpen(ctx, fs, path.value);
      var checked := Errors.CheckedCall(ctx.View(), s);
      if checked.Raise? {
        Native.UnreadableIsIoError("NotFound");
        Native.TransducerFailure("Format");
        return Errors.Raise(checked.exc);
      }
      keys := Keys(checked.value.value);
    } else {
      keys := pointer.value;
    }
    var made := new Set(ctx, keys);
    r := Errors.Return(made);
  }

  /** `MemSetBuilder`: while open, its context and native builder; once
      finished, only the finished set. */
  class MemSetBuilder {
    var ctx: Native.Context?
    var ptr: Native.NativeBuilder?
    var setPtr: Option<seq<string>>

    ghost predicate Valid()
      reads this, ctx, ptr
    {
      && (ctx == null <==> ptr == null)
      && (ptr != null ==> ctx.Valid() && ptr.Valid() && !ptr.consumed && ptr.sink == null && setPtr.None?)
      && (ptr == null ==> setPtr.Some? && StrictlySorted(setPtr.value))
    }

    /** `MemSetBuilder.__init__`. */
    constructor ()
      ensures Valid() && fresh(ctx) && fresh(ptr) && ptr.entries == [] && setPtr.None?
    {
      ctx := new Native.Context();
      ptr := new Native.NativeBuilder(null);
      setPtr := None;
    }

    /** `insert`: appends the key, or raises TransducerError when it is not
        greater than the last key, leaving the builder as it was. */
    method Insert(key: string) returns (r: Errors.Outcome<()>)
      requires Valid() && ptr != null
      modifies ctx, ptr
      ensures Valid() && ptr != null
      ensures Native.InsertResult(old(ptr.entries), key).Ok? ==>
        r.Return? && ptr.entries == old(ptr.entries) + [(key, 0)]
      ensures Native.InsertResult(old(ptr.entries), key).Err? ==>
        r.Raise? && r.exc.kind == Errors.TransducerError && ptr.entries == old(ptr.entries)
    {
      var ok := Native.BuilderInsert(ctx, ptr, key, 0);
      var checked := Errors.CheckedCall(ctx.View(), ok);
      if checked.Raise? {
        Native.TransducerFailure("OutOfOrder");
        return Errors.Raise(checked.exc);
      }
      r := Errors.Return(());
    }

    /** `finish`: the native finish under `checked_call`, which cannot fail
        for a builder whose inserts all succeeded; then drop the context and
        the builder pointer. */
    method Finish() returns (r: Errors.Outcome<()>)
      requires Valid() && ptr != null
      modifies this, ctx, ptr
      ensures Valid() && r.Return? && ctx == null && ptr == null
      ensures setPtr == Some(Keys(old(ptr.entries)))
    {
      var p, c := ptr, ctx;
      Native.EncodeDecode(p.entries);
      var s := Native.MemBuilderFinish(c, p);
      var checked := Errors.CheckedCall(c.View(), s);
      assert checked.Return? && checked.value == Some(p.entries);
      setPtr := Some(Keys(checked.value.value));
      ctx := null;
      ptr := null;
      r := Errors.Return(());
    }

    /** `get_set`: ValueError until `finish` has stored the set. */
    method GetSet() returns (r: Errors.Outcome<Set>)
      requires Valid()
      ensures setPtr.None? ==>
        r == Errors.Raise(Errors.Exception(Errors.ValueError, Some(UnfinishedMessage)))
      ensures setPtr.Some? ==> r.Return? && fresh(r.value) && r.value.Valid() && r.value.keys == setPtr.value
    {
      if setPtr.None? {
        return Errors.Raise(Errors.Exception(Errors.ValueError, Some(UnfinishedMessage)));
      }
      r := Open(null, None, setPtr);
    }
  }

  const UnfinishedMessage: string := "The builder has to be finished first."

  /** `FileSetBuilder`: a context, the file writer and the native builder. */
  class FileSetBuilder {
    const ctx: Native.Context
    const writer: Native.Writer
    const builder: Native.NativeBuilder
    var finished: bool

    ghost predicate Valid()
      reads this, ctx, builder
    {
      && ctx.Valid() && builder.Valid() && builder.sink == writer
      && (finished ==> builder.consumed)
    }

    constructor (ctx: Native.Context, writer: Native.Writer, builder: Native.NativeBuilder)
      requires ctx.Valid() && builder.Valid() && builder.sink == writer && !builder.consumed
      ensures Valid() && !finished
      ensures this.ctx == ctx && this.writer == writer && this.builder == builder
    {
      this.ctx := ctx;
      this.writer := writer;
      this.builder := builder;
      finished := false;
    }

    /** `insert`: appends the key, or raises TransducerError when it is not
        greater than the last key and IoError when the device refuses the
        write, leaving the builder as it was. */
    method Insert(key: string) returns (r: Errors.Outcome<()>)
      requires Valid() && !builder.consumed
      modifies ctx, builder
      ensures Valid() && !builder.consumed
      ensures Native.InsertOutcome(writer, old(builder.entries), key).Ok? ==>
        r.Return? && builder.entries == old(builder.entries) + [(key, 0)]
      ensures Native.InsertResult(old(builder.entries), key).Err? ==>
        r.Raise? && r.exc.kind == Errors.TransducerError && builder.entries == old(builder.entries)
      ensures Native.InsertResult(old(builder.entries), key).Ok? && Native.FailsAt(writer, |old(builder.entries)| + 1) ==>
        r.Raise? && r.exc.kind == Errors.IoError && builder.entries == old(builder.entries)
    {
      var ok := Native.BuilderInsert(ctx, builder, key, 0);
      var checked := Errors.CheckedCall(ctx.View(), ok);
      if checked.Raise? {
        Native.TransducerFailure("OutOfOrder");
        Native.UnreadableIsIoError("WriteZero");
        return Errors.Raise(checked.exc);
      }
      r := Errors.Return(());
    }

    /** The body of `with build(fpath) as b`: insert the keys one by one,
        stopping at the first that raises.  With the builder still empty
        and the header written, the first failure decides: an out-of-order
        key raises TransducerError, a refused write reached before it
        IoError. */
    method InsertAll(body: seq<string>) returns (r: Errors.Outcome<()>)
      requires Valid() && !builder.consumed && builder.entries == [] && !Native.FailsAt(writer, 0)
      modifies ctx, builder
      ensures Valid() && !builder.consumed
      ensures r.Return? <==>
        StrictlySorted(body) && (writer.path in writer.fs.faults ==> writer.fs.faults[writer.path] > |body|)
      ensures r.Return? ==> builder.entries == SetEntries(body)
      ensures writer.path in writer.fs.faults && writer.fs.faults[writer.path] <= OrderedRun(body) ==>
        r.Raise? && r.exc.kind == Errors.IoError
      ensures !StrictlySorted(body) && (writer.path in writer.fs.faults ==> writer.fs.faults[writer.path] > OrderedRun(body)) ==>
        r.Raise? && r.exc.kind == Errors.TransducerError
    {
      for n := 0 to |body|
        invariant Valid() && !builder.consumed && n <= OrderedRun(body)
        invariant builder.entries == SetEntries(body[..n])
        invariant writer.path in writer.fs.faults ==> writer.fs.faults[writer.path] > n
      {
        var ins := InsertNext(body, n);
        if ins.Raise? {
          return ins;
        }
      }
      SetEntriesAll(body);
      assert body[..|body|] == body;
      OrderedRunSorted(body);
      r := Errors.Return(());
    }

    /** One step of `InsertAll`: the key at `n` after an ordered, written
        prefix.  A raise says which failure it met and where that leaves the
        ordered run of the keys. */
    method InsertNext(body: seq<string>, n: nat) returns (r: Errors.Outcome<()>)
      requires Valid() && !builder.consumed && n < |body| && n <= OrderedRun(body)
      requires builder.entries == SetEntries(body[..n])
      requires writer.path in writer.fs.faults ==> writer.fs.faults[writer.path] > n
      modifies ctx, builder
      ensures Valid() && !builder.consumed
      ensures r.Return? ==>
        && builder.entries == SetEntries(body[..n + 1]) && n + 1 <= OrderedRun(body)
        && (writer.path in writer.fs.faults ==> writer.fs.faults[writer.path] > n + 1)
      ensures r.Raise? ==>
        || (r.exc.kind == Errors.TransducerError && OrderedRun(body) == n && !StrictlySorted(body))
        || (r.exc.kind == Errors.IoError && writer.path in writer.fs.faults
            && writer.fs.faults[writer.path] == n + 1 <= OrderedRun(body))
    {
      RunPrefix(body, n);
      InsertStep(body, n);
      RunAtInsert(body, n);
      r := Insert(body[n]);
      if r.Return? {
        SetEntriesStep(body, n);
      }
    }

    /** `finish`: the native finish under `checked_call`, then free the
        writer, which flushes the index into the file.  A refused flush
        raises IoError before the writer is freed, so the file keeps what
        `File::create` left. */
    method Finish() returns (r: Errors.Outcome<()>)
      requires Valid() && !builder.consumed
      modifies this, ctx, builder, writer, writer.fs
      ensures Valid() && builder.consumed && builder.entries == old(builder.entries)
      ensures !Native.FailsFrom(writer, |old(builder.entries)| + 1) ==>
        && r.Return? && finished
        && writer.fs.files == old(writer.fs.files)[writer.path := Native.Encoded(old(builder.entries))]
      ensures Native.FailsFrom(writer, |old(builder.entries)| + 1) ==>
        r.Raise? && r.exc.kind == Errors.IoError && !finished && writer.fs.files == old(writer.fs.files)
    {
      var ok := Native.FileBuilderFinish(ctx, builder);
      var checked := Errors.CheckedCall(ctx.View(), ok);
      if checked.Raise? {
        Native.UnreadableIsIoError("WriteZero");
        return Errors.Raise(checked.exc);
      }
      Native.BufWriterFree(writer);
      finished := true;
      r := Errors.Return(());
    }
  }

  /** `FileSetBuilder.__init__`: create the file (OSError when it cannot be
      created) and a builder writing to it (IoError when the device refuses
      the header). */
  method NewFileSetBuilder(fs: Native.FileSystem, path: string) returns (r: Errors.Outcome<FileSetBuilder>)
    modifies fs
    ensures path !in fs.creatable ==> r.Raise? && r.exc.kind == Errors.OSError && fs.files == old(fs.files)
    ensures path in fs.creatable ==> fs.files == old(fs.files)[path := Native.Garbage]
    ensures path in fs.creatable && Native.FaultAt(fs, path, 0) ==> r.Raise? && r.exc.kind == Errors.IoError
    ensures path in fs.creatable && !Native.FaultAt(fs, path, 0) ==>
      && r.Return? && fresh(r.value) && fresh(r.value.ctx) && fresh(r.value.builder) && fresh(r.value.writer)
      && r.value.Valid() && !r.value.finished && !r.value.builder.consumed && r.value.builder.entries == []
      && r.value.writer.fs == fs && r.value.writer.path == path && r.value.writer.buffer == Native.Garbage
  {
    var ctx := new Native.Context();
    var w := Native.BufWriterNew(ctx, fs, path);
    var checked := Errors.CheckedCall(ctx.View(), w);
    if checked.Raise? {
      Native.IoFailureClass("NotFound");
      return Errors.Raise(checked.exc);
    }
    var b := Native.FileBuilderNew(ctx, w);
    var made := Errors.CheckedCall(ctx.View(), b);
    if made.Raise? {
      Native.UnreadableIsIoError("WriteZero");
      return Errors.Raise(made.exc);
    }
    var builder := new FileSetBuilder(ctx, w, b);
    r := Errors.Return(builder);
  }

  /** The builder `build` yields. */
  datatype SetBuilder = FileBuilder(file: FileSetBuilder) | MemBuilder(mem: MemSetBuilder)

  /** The file branch of `build`: a builder (OSError when the file cannot
      be created), the body's inserts, and `finish` only if none raised.
      The first failure decides: an out-of-order key raises
      TransducerError, a refused write reached before it IoError; only a
      sorted body on a device that refuses nothing yields the file. */
  method BuildInFile(fs: Native.FileSystem, path: string, body: seq<string>)
    returns (r: Errors.Outcome<FileSetBuilder>)
    modifies fs
    ensures path !in fs.creatable ==> r.Raise? && r.exc.kind == Errors.OSError && fs.files == old(fs.files)
    ensures path in fs.creatable ==>
      fs.files == old(fs.files)[path := if r.Return? then Native.Encoded(SetEntries(body)) else Native.Garbage]
    ensures path in fs.creatable ==> (r.Return? <==> StrictlySorted(body) && path !in fs.faults)
    ensures r.Return? ==> r.value.finished
    ensures path in fs.creatable && path in fs.faults && (StrictlySorted(body) || fs.faults[path] <= OrderedRun(body)) ==>
      r.Raise? && r.exc.kind == Errors.IoError
    ensures path in fs.creatable && !StrictlySorted(body) && (path !in fs.faults || fs.faults[path] > OrderedRun(body)) ==>
      r.Raise? && r.exc.kind == Errors.TransducerError
  {
    OrderedRunSorted(body);
    var made := NewFileSetBuilder(fs, path);
    if made.Raise? {
      return Errors.Raise(made.exc);
    }
    var builder := made.value;
    var ins := builder.InsertAll(body);
    if ins.Raise? {
      return Errors.Raise(ins.exc);
    }
    var fin := builder.Finish();
    if fin.Raise? {
      return Errors.Raise(fin.exc);
    }
    r := Errors.Return(builder);
  }

  /** The memory branch of `build`. */
  method BuildInMemory(body: seq<string>) returns (r: Errors.Outcome<MemSetBuilder>)
    ensures StrictlySorted(body) ==> r.Return? && fresh(r.value) && r.value.Valid() && r.value.setPtr == Some(body)
    ensures !StrictlySorted(body) ==> r.Raise? && r.exc.kind == Errors.TransducerError
  {
    var builder := new MemSetBuilder();
    for n := 0 to |body|
      invariant builder.Valid() && builder.ptr != null && fresh(builder.ptr) && fresh(builder.ctx)
      invariant Ascending(body[..n]) && builder.ptr.entries == SetEntries(body[..n])
    {
      InsertStep(body, n);
      var ins := builder.Insert(body[n]);
      if ins.Raise? {
        return Errors.Raise(ins.exc);
      }
      SetEntriesAppend(body[..n], body[n]);
      assert body[..n + 1] == body[..n] + [body[n]];
    }
    assert body[..|body|] == body;
    AscendingIsSorted(body);
    var fin := builder.Finish();
    r := Errors.Return(builder);
  }

  /** `Set.build(fpath)` around a body that inserts `body` key by key: a file
      builder for a truthy path, else a memory builder; `finish` runs only
      when every insert succeeded, so a failed insert never yields a finished
      set (the file is left truncated). */
  method Build(fs: Native.FileSystem, fpath: Option<string>, body: seq<string>)
    returns (r: Errors.Outcome<SetBuilder>)
    modifies fs
    ensures r.Return? ==> (r.value.FileBuilder? <==> Truthy(fpath))
    ensures Truthy(fpath) && fpath.value !in fs.creatable ==>
      r.Raise? && r.exc.kind == Errors.OSError && fs.files == old(fs.files)
    ensures Truthy(fpath) && fpath.value in fs.creatable ==>
      && fs.files == old(fs.files)[fpath.value := if r.Return? then Native.Encoded(SetEntries(body)) else Native.Garbage]
      && (r.Return? <==> StrictlySorted(body) && fpath.value !in fs.faults)
      && (r.Return? ==> r.value.file.finished)
    ensures Truthy(fpath) && fpath.value in fs.creatable && fpath.value in fs.faults
      && (StrictlySorted(body) || fs.faults[fpath.value] <= OrderedRun(body))
      ==> r.Raise? && r.exc.kind == Errors.IoError
    ensures Truthy(fpath) && fpath.value in fs.creatable && !StrictlySorted(body)
      && (fpath.value !in fs.faults || fs.faults[fpath.value] > OrderedRun(body))
      ==> r.Raise? && r.exc.kind == Errors.TransducerError
    ensures !Truthy(fpath) ==> fs.files == old(fs.files)
    ensures !Truthy(fpath) && StrictlySorted(body) ==>
      r.Return? && fresh(r.value.mem) && r.value.mem.Valid() && r.value.mem.setPtr == Some(body)
    ensures !Truthy(fpath) && !StrictlySorted(body) ==> r.Raise? && r.exc.kind == Errors.TransducerError
  {
    if Truthy(fpath) {
      var built := BuildInFile(fs, fpath.value, body);
      if built.Raise? {
        return Errors.Raise(built.exc);
      }
      r := Errors.Return(FileBuilder(built.value));
    } else {
      var built := BuildInMemory(body);
      if built.Raise? {
        return Errors.Raise(built.exc);
      }
      r := Errors.Return(MemBuilder(built.value));
    }
  }

  /** `Set.from_iter(it, fpath)`: build, then open the file or take the
      memory builder's set.  Sorted input round-trips: the set holds exactly
      the given keys, so it contains each of them and its length is their
      count; unsorted input raises TransducerError, an uncreatable path
      OSError, and a device that refuses a write reached before the first
      out-of-order key IoError. */
  method FromIter(fs: Native.FileSystem, it: seq<string>, fpath: Option<string>) returns (r: Errors.Outcome<Set>)
    modifies fs
    ensures r.Return? ==> fresh(r.value) && r.value.Valid()
    ensures (!Truthy(fpath) || (fpath.value in fs.creatable && fpath.value !in fs.faults)) ==>
      && (r.Return? <==> StrictlySorted(it))
      && (r.Return? ==> r.value.keys == it && r.value.Len() == |it| && forall k :: r.value.Contains(k) <==> k in it)
      && (r.Raise? ==> r.exc.kind == Errors.TransducerError)
    ensures Truthy(fpath) && fpath.value !in fs.creatable ==> r.Raise? && r.exc.kind == Errors.OSError
    ensures Truthy(fpath) && fpath.value in fs.creatable && fpath.value in fs.faults ==>
      && r.Raise?
      && (StrictlySorted(it) || fs.faults[fpath.value] <= OrderedRun(it) ==> r.exc.kind == Errors.IoError)
      && (!StrictlySorted(it) && fs.faults[fpath.value] > OrderedRun(it) ==> r.exc.kind == Errors.TransducerError)
  {
    var built := Build(fs, fpath, it);
    if built.Raise? {
      return Errors.Raise(built.exc);
    }
    if Truthy(fpath) {
      r := Open(fs, fpath, None);
    } else {
      r := built.value.mem.GetSet();
    }
  }
}
