/** The stream lifecycle of rust_fst/common.py: every read path hands out a
    `StreamIterator` that owns a native cursor and, for searches, an
    automaton; it pulls one element per step and releases what it owns
    exactly once, when the cursor runs dry. */
module Streams {
  import opened Wrappers
  import Native

  /** A native handle an iterator gives back. */
  datatype Resource = StreamHandle | AutomatonHandle(automaton: Native.Automaton)

  /** What `_free` releases, in order: the stream, then the automaton if
      one was attached. */
  function ReleaseSchedule(owned: Option<Native.Automaton>): (r: seq<Resource>)
    ensures |r| >= 1 && r[0] == StreamHandle
    ensures forall i :: 0 < i < |r| ==> r[i].AutomatonHandle?
    ensures owned.None? ==> r == [StreamHandle]
    ensures owned.Some? ==> AutomatonHandle(owned.value) in r
  {
    [StreamHandle] + if owned.Some? then [AutomatonHandle(owned.value)] else []
  }

  /** No handle is released twice: each occurs once in the schedule. */
  lemma {:induction false} ReleasedOnce(owned: Option<Native.Automaton>, h: Resource)
    ensures multiset(ReleaseSchedule(owned))[h] ==
      (if h == StreamHandle || (owned.Some? && h == AutomatonHandle(owned.value)) then 1 else 0)
  {
    if owned.Some? {
      assert ReleaseSchedule(owned) == [StreamHandle, AutomatonHandle(owned.value)];
    } else {
      assert ReleaseSchedule(owned) == [StreamHandle];
    }
  }

  /** One step of `__next__`: an element, or StopIteration. */
  datatype Step<+E> = Yield(elem: E) | Stop

  /** The Python-side `IndexedValue(index, value)` namedtuple. */
  datatype IndexedValue = IndexedValue(index: nat, value: U64)

  /** A stream iterator over native items of type `N`.  `live` stands for
      `_ptr` not being None; `automaton` for `_autom_ptr`; `releases` logs
      the native free calls made so far. */
  class StreamIterator<N> {
    const cursor: Native.NativeCursor<N>
    const owned: Option<Native.Automaton>
    const ctx: Native.Context?
    var live: bool
    var automaton: Option<Native.Automaton>
    var releases: seq<Resource>

    /** While live nothing has been released and the automaton is held; once
        released, everything owned was given back exactly once, stream first. */
    ghost predicate Valid()
      reads this, cursor
    {
      && cursor.Valid()
      && (live ==> releases == [] && automaton == owned)
      && (!live ==> releases == ReleaseSchedule(owned) && automaton.None?)
    }

    /** `StreamIterator.__init__`: take ownership of the stream and of the
        automaton, if any. */
    constructor (cursor: Native.NativeCursor<N>, owned: Option<Native.Automaton>, ctx: Native.Context?)
      requires cursor.Valid()
      ensures Valid() && live && releases == []
      ensures this.cursor == cursor && this.owned == owned && this.ctx == ctx
    {
      this.cursor := cursor;
      this.owned := owned;
      this.ctx := ctx;
      live := true;
      automaton := owned;
      releases := [];
    }

    /** `__iter__`: an iterator is its own iterator, so it is single-pass. */
    method Iter() returns (r: StreamIterator<N>)
      ensures r == this
    {
      r := this;
    }

    /** `_free`: release the stream, clear the pointer, then release and
        clear the automaton if one is attached.  The native free functions
        assert a non-null argument, so this is only valid while live. */
    method Free()
      requires Valid() && live
      modifies this
      ensures Valid() && !live
      ensures releases == ReleaseSchedule(owned)
    {
      releases := releases + [StreamHandle];
      live := false;
      if automaton.Some? {
        releases := releases + [AutomatonHandle(automaton.value)];
        automaton := None;
      }
    }
  }

  /** A native stream over `items` wrapped in a fresh iterator, as every
      read path does. */
  method NewIterator<N>(items: seq<N>, owned: Option<Native.Automaton>, ctx: Native.Context?)
    returns (it: StreamIterator<N>)
    ensures fresh(it) && fresh(it.cursor) && it.Valid() && it.live
    ensures it.cursor.items == items && it.cursor.pos == 0 && it.owned == owned && it.ctx == ctx
  {
    var cursor := new Native.NativeCursor(items);
    it := new StreamIterator(cursor, owned, ctx);
  }

  /** `KeyStreamIterator.__next__`: the next key, or release and stop. */
  method KeyStreamNext(it: StreamIterator<string>) returns (r: Step<string>)
    requires it.Valid() && it.live
    modifies it, it.cursor
    ensures it.Valid()
    ensures old(it.cursor.pos) < |it.cursor.items| ==>
      r == Yield(it.cursor.items[old(it.cursor.pos)]) && it.live
      && it.cursor.pos == old(it.cursor.pos) + 1
    ensures old(it.cursor.pos) == |it.cursor.items| ==>
      r == Stop && !it.live && it.releases == ReleaseSchedule(it.owned)
      && it.cursor.pos == old(it.cursor.pos)
  {
    var cStr := Native.SetNextFn(it.cursor);
    if cStr.None? {
      it.Free();
      return Stop;
    }
    r := Yield(cStr.value);
  }

  /** `ValueStreamIterator.__next__`: the end is a 0 together with the
      context's error flag, so a stored value 0 is still yielded. */
  method ValueStreamNext(it: StreamIterator<U64>) returns (r: Step<U64>)
    requires it.Valid() && it.live && it.ctx != null && it.ctx.Valid()
    modifies it, it.cursor, it.ctx
    ensures it.Valid() && it.ctx.Valid()
    ensures old(it.cursor.pos) < |it.cursor.items| ==>
      r == Yield(it.cursor.items[old(it.cursor.pos)]) && it.live
      && it.cursor.pos == old(it.cursor.pos) + 1
    ensures old(it.cursor.pos) == |it.cursor.items| ==>
      r == Stop && !it.live && it.releases == ReleaseSchedule(it.owned)
      && it.cursor.pos == old(it.cursor.pos)
  {
    var v := Native.MapValuesNext(it.ctx, it.cursor);
    if v == 0 && it.ctx.hasError {
      it.Free();
      return Stop;
    }
    r := Yield(v);
  }

  /** `MapItemStreamIterator.__next__`: `(key, value)` of the native item, or
      release and stop. */
  method MapItemStreamNext(it: StreamIterator<(string, U64)>) returns (r: Step<(string, U64)>)
    requires it.Valid() && it.live
    modifies it, it.cursor
    ensures it.Valid()
    ensures old(it.cursor.pos) < |it.cursor.items| ==>
      r == Yield(it.cursor.items[old(it.cursor.pos)]) && it.live
      && it.cursor.pos == old(it.cursor.pos) + 1
    ensures old(it.cursor.pos) == |it.cursor.items| ==>
      r == Stop && !it.live && it.releases == ReleaseSchedule(it.owned)
      && it.cursor.pos == old(it.cursor.pos)
  {
    var itm := Native.MapNextFn(it.cursor);
    if itm.None? {
      it.Free();
      return Stop;
    }
    assert (itm.value.key, itm.value.value) == it.cursor.items[old(it.cursor.pos)];
    r := Yield((itm.value.key, itm.value.value));
  }

  /** The tuple of `IndexedValue`s built from a native item's value array. */
  predicate ConvertedValues(native: seq<Native.NativeIndexedValue>, values: seq<IndexedValue>)
  {
    && |values| == |native|
    && forall n :: 0 <= n < |native| ==> values[n] == IndexedValue(native[n].index, native[n].value)
  }

  /** `MapOpItemStreamIterator.__next__`: the key and exactly `num_values`
      indexed values in native array order, or release and stop. */
  method MapOpItemStreamNext(it: StreamIterator<Native.MapOpItem>) returns (r: Step<(string, seq<IndexedValue>)>)
    requires it.Valid() && it.live
    modifies it, it.cursor
    ensures it.Valid()
    ensures old(it.cursor.pos) < |it.cursor.items| ==>
      && r.Yield? && it.live && it.cursor.pos == old(it.cursor.pos) + 1
      && r.elem.0 == it.cursor.items[old(it.cursor.pos)].key
      && ConvertedValues(it.cursor.items[old(it.cursor.pos)].values, r.elem.1)
    ensures old(it.cursor.pos) == |it.cursor.items| ==>
      r == Stop && !it.live && it.releases == ReleaseSchedule(it.owned)
      && it.cursor.pos == old(it.cursor.pos)
  {
    var next := it.cursor.Next();
    if next.None? {
      it.Free();
      return Stop;
    }
    var itm := next.value;
    var values: seq<IndexedValue> := [];
    for n := 0 to itm.NumValues()
      invariant ConvertedValues(itm.values[..n], values)
    {
      var rustVal := itm.values[n];
      values := values + [IndexedValue(rustVal.index, rustVal.value)];
    }
    assert itm.values[..|itm.values|] == itm.values;
    r := Yield((itm.key, values));
  }

  /** `list(it)` over a key stream: everything the cursor has left, after
      which the iterator has released what it owns. */
  method CollectKeys(it: StreamIterator<string>) returns (keys: seq<string>)
    requires it.Valid() && it.live
    modifies it, it.cursor
    ensures it.Valid() && !it.live && it.releases == ReleaseSchedule(it.owned)
    ensures keys == it.cursor.items[old(it.cursor.pos)..]
  {
    keys := [];
    var step := KeyStreamNext(it);
    while step.Yield?
      invariant it.Valid()
      invariant old(it.cursor.pos) <= it.cursor.pos
      invariant step.Yield? ==> (it.live && 0 < it.cursor.pos
        && keys + [step.elem] == it.cursor.items[old(it.cursor.pos)..it.cursor.pos])
      invariant step.Stop? ==> (!it.live && it.releases == ReleaseSchedule(it.owned)
        && keys == it.cursor.items[old(it.cursor.pos)..])
      decreases |it.cursor.items| - it.cursor.pos, step.Yield?
    {
      keys := keys + [step.elem];
      step := KeyStreamNext(it);
    }
  }
}
