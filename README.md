# rust_fst: the Python layer around an FST index, in Dafny

`rust_fst` gives Python an immutable ordered string `Set` and a string-to-`u64`
`Map`. Both sit on a finite state transducer from the Rust `fst` crate. The
crate is reached through a small C wrapper, `fstwrapper`. This project models
the layer the repository writes on top of the crate. It has three parts.

- **Stream lifecycle** (`streams.dfy`): every read path returns a
  `StreamIterator`.
  - The iterator owns a native cursor and, for searches, an automaton.
  - It yields one element per `__next__`.
  - When the cursor runs dry it releases the stream and then the automaton,
    each exactly once.
  - `next` is only possible while the iterator is live.
- **Container facade** (`sets.dfy`, `maps.dfy`, with the result functions in
  `merge.dfy` and the key order in `order.dfy`):
  - The index is a sequence of entries with strictly increasing keys. A set is
    its key column.
  - The builders choose a file or memory target, insert in strictly increasing
    order and finish only after a clean body. `get_set`/`get_map` are guarded
    by "finished".
  - Set range slices are half-open, with the ValueError checks.
  - The four set operations over `(self, *others)` are specified by the
    membership rules of their docstrings. For maps this includes the `(index, value)`
    payload.
  - The subset, superset and disjoint predicates are modelled.
  - Fuzzy and regex searches take acceptance as an uninterpreted predicate.
- **Error channel** (`native.dfy`, `errors.dfy`):
  - The native `Context` latch (`with_context!`) and the hand-written
    latches of `fst_map_get` and `fst_mapvalues_next`.
  - The next-function macros.
  - The builder insert/finish result protocol.
  - On the Python side, `checked_call`, which dispatches on its exception
    table and parses the `Variant(...)` description.

The model keeps two behaviours of the code as they are:

- A missing map key raises plain `FstError`, not `KeyError`.
  `fst_map_get` latches the type name `"KeyError"`. The table only knows
  `'py::KeyError'`, so `checked_call` falls back to `FstError`. The message is
  `Key '<k>' not in map.` (`Native.MissingKeyIsPlainFstError`,
  `Maps.FstMap.GetItem`).
- A value stream ends on "0 together with `has_error`". The native side clears
  the flag on every call, so a stored value 0 is still yielded
  (`Streams.ValueStreamNext`, `Native.MapValuesNext`).

Writes to the file system can fail. `Native.FileSystem` names, for each
path whose device refuses writes, the builder step at which the refusal
surfaces:

- step 0 is `MapBuilder::new`, which writes the header;
- step k is the k-th insert;
- a refusal not yet reached surfaces at `finish`, which flushes.

The crate reports it as its `Io` variant, which `checked_call` raises as
IoError. A failing `finish` raises before the writer is freed, so the file
keeps what `File::create` left.

`wrappers.dfy` holds `Option`, `Result` and the `U64`/`U32` ranges of the C
integer types.

## Model

| member | source | states |
|---|---|---|
| Order.LessIrreflexive | rust_fst/set.py:203 | no key is smaller than itself under Python's `str` order |
| Order.LessTransitive | rust_fst/set.py:203 | the key order is transitive |
| Order.LessTotal | rust_fst/set.py:203 | any two distinct keys are ordered one way or the other |
| Order.LessAsymmetric | rust_fst/set.py:203 | `a < b` excludes `b < a` |
| Order.SortedDistinct | rust_fst/set.py:182-184 | two positions of a strictly sorted sequence hold different keys |
| Order.AscendingIsSorted | rust_fst/set.py:117-121 | keys that ascend neighbour by neighbour are strictly sorted, which is why the builder only compares with the last key |
| Order.AscendingSnoc | rust_fst/set.py:117-121 | appending a key keeps the order exactly when it is greater than the last key |
| Order.AscendingStep | rust_fst/set.py:117-121 | one more key keeps an ascending prefix ascending exactly when it is greater than its predecessor, and a refusal shows that the whole input is not sorted |
| Order.OrderedRun | rust_fst/set.py:117-121 | the length of the longest ascending prefix: the inserts that succeed before the first out-of-order key |
| Order.OrderedRunBound | rust_fst/set.py:117-121 | the ordered run is at most the input length |
| Order.RunPrefix | rust_fst/set.py:117-121 | every prefix within the ordered run ascends |
| Order.OrderedRunAt | rust_fst/set.py:117-121 | the key just after the ordered run is not greater than its predecessor |
| Order.RunAtInsert | rust_fst/set.py:117-121 | the insert at position n within the run is refused exactly when n is the run's end |
| Order.OrderedRunSorted | rust_fst/set.py:117-121 | the run covers the whole input exactly when the input is strictly sorted |
| Order.SortedAppend | fstwrapper/src/map.rs:34-43 | appending a key greater than every present key keeps the keys sorted |
| Order.SortedUnique | rust_fst/set.py:223-260 | two strictly sorted sequences with the same members are equal, so a stream is fixed by its key set |
| Order.SortedCount | rust_fst/set.py:182-184 | a strictly sorted sequence has as many distinct keys as entries, so `len` counts the set |
| Order.Keys | rust_fst/map.py:147-150 | the key column has one key per entry, in entry order |
| Order.KeysAppend | rust_fst/map.py:147-150 | the key column of a concatenation is the concatenation of the key columns |
| Order.Filter | rust_fst/set.py:321-335 | filtering keeps exactly the accepted keys and keeps their order |
| Order.FilterEntries | rust_fst/map.py:162-176 | filtering entries keeps exactly the entries whose key is accepted |
| Order.KeysOfFilterEntries | rust_fst/map.py:162-176 | filtering entries by key filters their key column alike |
| Order.FilterNone | rust_fst/set.py:203-205 | a filter that accepts no key yields nothing |
| Errors.FstErrorFamily | rust_fst/lib.py:7-24 | `except FstError` catches FstError and its four subclasses and none of the other classes |
| Errors.ReplaceNewlines | rust_fst/lib.py:61 | the message keeps its length, has no newline left, and keeps every other character |
| Errors.WordRun | rust_fst/lib.py:70 | the longest leading run of `\w` characters: all word characters, followed by a non-word one or the end |
| Errors.MatchVariantOf | rust_fst/lib.py:70 | a description written `Variant(detail)` yields `Variant` as the regex group |
| Errors.MatchVariant | rust_fst/lib.py:70 | a match is a nonempty leading run of word characters followed by `(` with a `)` later; no match means that no such run exists |
| Errors.Show | rust_fst/lib.py:73 | the message formatted into `"{}: {}"`, with None printed as `None`: no newline appears unless the message had one |
| Errors.Raised | rust_fst/lib.py:59-76 | every message is a single line; TypeError and AttributeError arise only for `fst::Error` and carry no message; KeyError only for the type `py::KeyError` |
| Errors.CheckedCall | rust_fst/lib.py:55-76 | returns the native result unchanged exactly when `has_error` is clear, and raises otherwise |
| Errors.DirectLookup | rust_fst/lib.py:44-64 | a table type other than `fst::Error` picks its class directly, and the message is the display text with newlines replaced, or None |
| Errors.UnknownTypeIsFstError | rust_fst/lib.py:64-76 | a type string missing from the table raises FstError |
| Errors.VariantRefinement | rust_fst/lib.py:65-73 | an `fst::Error` is refined by its variant. A known variant gives its subclass; an unknown one gives FstError with `<Variant>: ` prefixed. Either way the class is in the FstError family |
| Native.CrateErrorClass | fstwrapper/src/lib.rs:81-88 | an `fst::Error` latched by `with_context!` whose variant is in the table reaches Python as that variant's subclass of FstError, with the display text as message |
| Native.TransducerFailure | rust_fst/lib.py:47 | an `Fst` variant (out-of-order insert, undecodable bytes) arrives as TransducerError |
| Native.UnreadableIsIoError | rust_fst/lib.py:50 | an `Io` variant (an unreadable index file, or a write the device refuses) arrives as the package's IoError |
| Native.TooLargeIsLevenshteinError | rust_fst/lib.py:49 | a `Levenshtein` variant (automaton too large) arrives as LevenshteinError |
| Native.RejectedIsRegexError | rust_fst/lib.py:48 | a `Regex` variant arrives as RegexError |
| Native.IoFailureClass | rust_fst/lib.py:45 | a `std::io::Error`, e.g. from `File::create`, arrives as OSError |
| Native.MissingKeyIsPlainFstError | fstwrapper/src/map.rs:112-121 | the latched missing-key error raises FstError with `Key '<k>' not in map.`, and never KeyError, because `"KeyError"` is not a table key |
| Native.Context.constructor | fstwrapper/src/util.rs:42-51 | a new context has the flag clear and four null strings |
| Native.Context.View | rust_fst/lib.py:57-69 | whenever the flag is set, the type string is present |
| Native.Context.WithContext | fstwrapper/src/lib.rs:75-91 | clears the flag first. On `Ok(v)` it yields `v` with the flag clear and the texts untouched. On `Err` it returns early with flag, type, debug, display and description of that error latched |
| Native.Context.Latch | fstwrapper/src/map.rs:113-119 | sets the flag and the type, with one message in debug, display and description |
| Native.FromBytes | fstwrapper/src/map.rs:72 | only a well-formed index decodes, and a decoded index has strictly increasing keys |
| Native.EncodeDecode | fstwrapper/src/map.rs:69-74 | decoding a memory builder's buffer gives back exactly its entries |
| Native.FromPath | fstwrapper/src/map.rs:76-81 | a missing file is an `Io` error; a decoded file has strictly increasing keys |
| Native.InsertResult | fstwrapper/src/map.rs:34-43 | on sorted entries the insert is accepted exactly when the key is greater than every present key; a refusal is the crate's order error |
| Native.AboveLast | fstwrapper/src/map.rs:34-43 | a key greater than the last of sorted keys is greater than them all |
| Native.InsertKeepsSorted | fstwrapper/src/map.rs:58-66 | an insertion the order check accepts keeps the keys strictly sorted |
| Native.Get | fstwrapper/src/map.rs:102-111 | `get` misses exactly when the key is not stored, and a hit is a stored value of that key |
| Native.GetStored | tests/test_map.py:60-62 | with sorted keys, `get` returns the value inserted with the key |
| Native.NativeCursor.Next | fstwrapper/src/lib.rs:48-52 | the next item and one step forward, or None with the position unchanged once exhausted |
| Native.SetNextFn | fstwrapper/src/lib.rs:44-55 | `Some(key)` becomes that key, `None` becomes null |
| Native.MapNextFn | fstwrapper/src/lib.rs:58-71 | `Some((k, v))` becomes an item with exactly that key and value, `None` becomes null |
| Native.MapGet | fstwrapper/src/map.rs:102-122 | a stored key gives its value with the flag clear and the latched texts untouched; a missing key gives 0 with type `KeyError` and the message naming the key |
| Native.MapValuesNext | fstwrapper/src/map.rs:137-153 | the next value with the flag clear and the latched texts untouched, or 0 with `StopIteration` / `No more values.` latched at the end |
| Native.BufWriterNew | fstwrapper/src/util.rs:59-66 | a creatable path gives a fresh writer and truncates the file; otherwise null with an I/O error latched and no file touched |
| Native.BufWriterFree | fstwrapper/src/lib.rs:33-41 | dropping the writer flushes its buffer into the file |
| Native.FileBuilderNew | fstwrapper/src/map.rs:25-32 | a fresh, empty, unconsumed builder writing to the given writer, flag clear; null with the `Io` write error latched when the device refuses the header |
| Native.BuilderInsert | fstwrapper/src/map.rs:34-66 | true exactly when the key is greater than the last one and the device accepts the write, and then the entry is appended with the flag clear. False leaves the entries unchanged and latches the order error, or else the `Io` write error |
| Native.FileBuilderFinish | fstwrapper/src/map.rs:45-50 | consumes the builder; true with the encoded entries in the writer's buffer, or false with the `Io` write error latched and the buffer unchanged when a refused write is still pending |
| Native.MemBuilderFinish | fstwrapper/src/map.rs:68-74 | consumes the builder. Null with `into_inner`'s error if that fails, else null with `from_bytes`' error if that fails, else the decoded index |
| Native.IndexOpen | fstwrapper/src/map.rs:76-81 | the decoded index with the flag clear, or null with the open error latched |
| Native.LevenshteinNew | fstwrapper/src/util.rs:70-79 | the automaton with the flag clear, or null with the crate's too-large error latched |
| Native.RegexNew | rust_fst/set.py:313-315 | the automaton with the flag clear, or null with the crate's syntax error latched |
| Streams.ReleaseSchedule | rust_fst/common.py:19-27 | the stream is released first; after it there is only the attached automaton, if any |
| Streams.ReleasedOnce | rust_fst/common.py:19-27 | every owned handle occurs exactly once among the releases, and nothing else does |
| Streams.StreamIterator.constructor | rust_fst/common.py:7-17 | a new iterator is live, holds its automaton and has released nothing |
| Streams.StreamIterator.Iter | rust_fst/common.py:29-30 | `__iter__` returns the iterator itself |
| Streams.StreamIterator.Free | rust_fst/common.py:19-27 | only while live. Afterwards not live, automaton cleared, with exactly the release schedule performed |
| Streams.NewIterator | rust_fst/common.py:7-17 | a fresh live iterator at the start of a fresh cursor over the given items |
| Streams.KeyStreamNext | rust_fst/common.py:39-47 | the next key while the cursor has one; at the end it releases everything owned and stops |
| Streams.ValueStreamNext | rust_fst/common.py:50-56 | the next value, even 0, while the cursor has one; at the end (0 with the flag set) it releases and stops |
| Streams.MapItemStreamNext | rust_fst/common.py:59-69 | exactly the `(key, value)` of the native item, or release and stop |
| Streams.MapOpItemStreamNext | rust_fst/common.py:75-88 | the key and exactly `num_values` `IndexedValue`s in native array order, or release and stop |
| Streams.CollectKeys | tests/test_set.py:55-57 | `list(it)` is everything the cursor had left, and the iterator has then released what it owns |
| Merge.Union2 | rust_fst/set.py:223-230 | the union of two sorted sources is sorted and holds exactly the keys of either |
| Merge.UnionAll | rust_fst/set.py:223-230 | the union of all sources is sorted and holds exactly the keys of some source |
| Merge.InResult | rust_fst/set.py:223-260 | a key an operation selects lies in some source; for intersection and difference it lies in the first |
| Merge.Combine | rust_fst/set.py:223-260 | the result of an operation is sorted and holds exactly the keys its rule selects: any source; all sources; the first and no other; exactly one source |
| Merge.CombineUnique | rust_fst/set.py:223-260 | any sorted stream with the selected key set is the result |
| Merge.SingleSource | rust_fst/set.py:223-260 | with no others, every operation returns the set itself |
| Merge.TwoSources | tests/test_set.py:106-127 | for two sources the rules are or, and, and-not and exclusive or |
| Merge.TwoSourceCombine | tests/test_set.py:106-127 | a sorted sequence with the two-source membership is the result |
| Merge.Commutes | rust_fst/set.py:223-260 | union, intersection and symmetric difference of two sources do not depend on their order |
| Merge.TwoSourceLaws | rust_fst/set.py:242-260 | for two sources the symmetric difference is the union without the intersection, and the difference shares nothing with the other source |
| Merge.DifferenceWithSelf | rust_fst/set.py:242-250 | a set minus itself is empty |
| Sets.SetEntries | rust_fst/set.py:41-43 | a set's keys as index entries, with the keys as key column |
| Sets.InsertStep | rust_fst/set.py:117-121 | the builder accepts the next key exactly when the keys stay ascending; a refusal means the input is not sorted |
| Sets.Set.Iter | rust_fst/set.py:174-180 | a fresh live key stream over all keys in order, owning no automaton |
| Sets.Set.Contains | rust_fst/set.py:169-172 | `in` is true exactly when the index lookup of the key hits |
| Sets.Set.Len | rust_fst/set.py:182-184 | `len` is the number of distinct keys |
| Sets.Set.GetItem | rust_fst/set.py:186-215 | ValueError for a non-slice and for start > stop when both are truthy; otherwise a key stream over the half-open range |
| Sets.Set.MakeOpBuilder | rust_fst/set.py:217-221 | a builder holding self, then the others in argument order |
| Sets.Set.Operate | rust_fst/set.py:223-260 | a fresh stream over exactly the result of the operation over `(self, *others)` |
| Sets.Set.Search | rust_fst/set.py:321-335 | LevenshteinError before any stream when the automaton is too large; otherwise a stream owning the automaton over the accepted keys in order |
| Sets.Set.SearchRe | rust_fst/set.py:289-319 | RegexError for a rejected pattern; otherwise a stream owning the automaton over the accepted keys in order |
| Sets.Set.IsSubset | rust_fst/set.py:262-269 | true exactly when every member of self is a member of other |
| Sets.Set.IsSuperset | rust_fst/set.py:271-278 | true exactly when every member of other is a member of self |
| Sets.Set.IsDisjoint | rust_fst/set.py:280-287 | true exactly when no key is a member of both |
| Sets.Sources | rust_fst/set.py:217-221 | the operation sources are self first, then the others, all sorted |
| Sets.Matches | rust_fst/set.py:321-335 | exactly the accepted keys, in key order |
| Sets.SliceBounds | rust_fst/set.py:206-213 | the builder bounds: a key is within them exactly when it is not below a truthy start and is below a truthy stop |
| Sets.RangeStream | rust_fst/set.py:206-215 | the stream holds exactly the stored keys within the bounds, and stays sorted |
| Sets.SliceMeaning | rust_fst/set.py:206-213 | a key is in the slice exactly when it is not below a truthy start and below a truthy stop |
| Sets.EqualBoundsEmpty | rust_fst/set.py:203-205 | `start == stop` is allowed and yields nothing |
| Sets.SliceExample | rust_fst/set.py:191-195 | `['b':'f']` over bar, baz, foo, moo yields bar, baz |
| Sets.OpBuilder.constructor | rust_fst/set.py:58-62 | a new op builder holds only the first set |
| Sets.OpBuilder.Push | rust_fst/set.py:64-65 | pushing appends one source |
| Sets.OpBuilder.Run | rust_fst/set.py:67-86 | consumes the builder and streams the result over its sources |
| Sets.UnionExample | tests/test_set.py:106-109 | {bar, foo} union {baz, foo} is bar, baz, foo |
| Sets.IntersectionExample | tests/test_set.py:124-127 | their intersection is foo |
| Sets.DifferenceExample | tests/test_set.py:112-115 | their difference is bar |
| Sets.SymmetricDifferenceExample | tests/test_set.py:118-121 | their symmetric difference is bar, baz |
| Sets.SubsetReflexive | tests/test_set.py:69-82 | every set is a subset and a superset of itself |
| Sets.SelectionSubset | tests/test_set.py:69-82 | a set whose keys are all in another is its subset, and the other its superset; a key missing from the smaller set rules out the converse |
| Sets.SubsetExample | tests/test_set.py:69-82 | {bar, möö} is a subset of {bar, baz, foo, möö}, which is its superset, and neither converse holds |
| Sets.SupersetIsConverse | rust_fst/set.py:262-278 | `a.issuperset(b)` is exactly `b.issubset(a)` |
| Sets.DisjointSymmetric | rust_fst/set.py:280-287 | `isdisjoint` is symmetric |
| Sets.NotDisjointFromSelf | tests/test_set.py:85-93 | a nonempty set is not disjoint from itself |
| Sets.Open | rust_fst/set.py:156-167 | a truthy path opens the file: IoError when it is missing, TransducerError when it does not decode. Otherwise the pointer is taken as it is |
| Sets.MemSetBuilder.constructor | rust_fst/set.py:36-39 | a fresh context and an empty open builder, no set yet |
| Sets.MemSetBuilder.Insert | rust_fst/set.py:41-43 | appends the key, or raises TransducerError when it is not greater than the last and leaves the builder as it was |
| Sets.MemSetBuilder.Finish | rust_fst/set.py:45-50 | stores the finished set and clears the context and builder pointers |
| Sets.MemSetBuilder.GetSet | rust_fst/set.py:52-55 | ValueError before `finish`; afterwards the finished set |
| Sets.FileSetBuilder.Insert | rust_fst/set.py:23-26 | appends the key; an out-of-order key raises TransducerError, and an in-order key whose write the device refuses raises IoError |
| Sets.FileSetBuilder.InsertAll | rust_fst/set.py:127-132 | the body's inserts: all succeed exactly when the body is sorted, leaving the builder holding it; a refused write within the ordered run raises IoError; otherwise an out-of-order key raises TransducerError |
| Sets.FileSetBuilder.InsertNext | rust_fst/set.py:23-26 | one insert within the ordered run: success extends the held prefix by one; a failure is TransducerError at the run's end or IoError at the faulty step |
| Sets.FileSetBuilder.Finish | rust_fst/set.py:28-32 | finishes and flushes: the file then holds exactly the inserted keys; a pending refused write raises IoError and leaves the file as it was |
| Sets.NewFileSetBuilder | rust_fst/set.py:16-21 | OSError when the file cannot be created; IoError when the device refuses the header; otherwise an empty builder writing to the new file |
| Sets.BuildInFile | rust_fst/set.py:127-132 | a finished file holding the keys exactly when they are sorted and the device refuses nothing; IoError when a refused write comes no later than the first out-of-order key; TransducerError otherwise; the file is left unfinished on every failure |
| Sets.BuildInMemory | rust_fst/set.py:127-132 | sorted keys give a finished builder holding them; unsorted keys raise TransducerError |
| Sets.Build | rust_fst/set.py:114-132 | a file builder exactly for a truthy path, with the outcomes of `BuildInFile`; otherwise the memory builder's; `finish` runs only after every insert succeeded |
| Sets.FromIter | rust_fst/set.py:134-154 | on memory or a sound creatable path, succeeds exactly for sorted keys, then iterates them with `len` their count and `in` true exactly for them; otherwise TransducerError. OSError for a path that cannot be created; IoError or TransducerError, whichever failure comes first, on a device that refuses a write |
| Maps.ColumnsAligned | tests/test_map.py:55-76 | the i-th key and the i-th value form the i-th entry |
| Maps.PayloadFrom | rust_fst/common.py:75-88 | one `(index, value)` per source holding the key, with that source's value, in ascending source order (an assumed order) |
| Maps.OpItems | rust_fst/map.py:184-194 | one item per key of the set-level result, carrying that key's payload |
| Maps.PayloadOfAll | rust_fst/common.py:75-88 | when every source holds the key, the payload names each source in turn |
| Maps.PayloadOfNone | rust_fst/common.py:75-88 | when no source holds the key, the payload is empty |
| Maps.IntersectionPayload | rust_fst/map.py:187-188 | an intersection item carries one value from every source, in source order, each the value stored there |
| Maps.DifferencePayload | rust_fst/map.py:190-191 | a difference item carries exactly the value of the first source |
| Maps.FstMap.GetItem | rust_fst/map.py:137-139 | a stored key returns its value; a missing key raises FstError (not KeyError) with `Key '<k>' not in map.` |
| Maps.FstMap.Contains | rust_fst/map.py:133-135 | `in` is true exactly when the index lookup of the key hits |
| Maps.FstMap.Len | rust_fst/map.py:144-145 | `len` is the number of distinct keys |
| Maps.FstMap.KeyStream | rust_fst/map.py:147-150 | a fresh key stream over the keys in order |
| Maps.FstMap.Iter | rust_fst/map.py:141-142 | `__iter__` is `keys()` |
| Maps.FstMap.ValueStream | rust_fst/map.py:152-155 | a fresh value stream over the values in key order, reading through the map's context |
| Maps.FstMap.ItemStream | rust_fst/map.py:157-160 | a fresh item stream over the entries in key order |
| Maps.FstMap.Search | rust_fst/map.py:162-176 | LevenshteinError before any stream when too large; otherwise a stream owning the automaton over the accepted entries in key order |
| Maps.FstMap.MakeOpBuilder | rust_fst/map.py:178-182 | a builder holding self, then the others in argument order |
| Maps.FstMap.Operate | rust_fst/map.py:184-194 | a fresh stream of `(key, payload)` items for the operation over `(self, *others)` |
| Maps.Sources | rust_fst/map.py:178-182 | the operation sources are self first, then the others, all sorted |
| Maps.MatchingEntries | rust_fst/map.py:162-176 | exactly the entries with an accepted key, in key order |
| Maps.SearchExample | tests/test_map.py:79-81 | an automaton accepting bar and baz yields (bar, 2), (baz, 1337) over the test map |
| Maps.OpBuilder.constructor | rust_fst/map.py:61-64 | a new op builder holds only the first map |
| Maps.OpBuilder.Push | rust_fst/map.py:66-67 | pushing appends one source |
| Maps.OpBuilder.Run | rust_fst/map.py:69-90 | consumes the builder and streams the items over its sources |
| Maps.InsertByKey | rust_fst/map.py:114 | inserting a new key into sorted entries keeps them sorted, adds exactly that entry, and adds exactly that key |
| Maps.SortByKey | rust_fst/map.py:113-114 | a dict's items sorted by key: strictly sorted, a permutation of the items, the same key set |
| Maps.Inserted | rust_fst/map.py:113-117 | a dict is inserted as a key-sorted permutation of its items; other pairs as given |
| Maps.SortSorted | rust_fst/map.py:113-114 | sorting items that are already in key order leaves them unchanged |
| Maps.InsertAbove | rust_fst/map.py:113-114 | an item whose key is greater than all present keys is placed last |
| Maps.TestKeysOrdered | tests/test_map.py:8 | bar, baz, foo are in order and all below möö |
| Maps.SortedDictLookup | rust_fst/map.py:113-114 | every item of a dict reads back from the key-sorted entries with its own value |
| Maps.StoredEntry | fstwrapper/src/map.rs:102-111 | in a sorted index `get` finds every stored entry with its value |
| Maps.DictSortExample | rust_fst/map.py:113-114 | a dict holding the test items is inserted as bar, baz, foo, möö |
| Maps.TestItemsReadBack | tests/test_map.py:11-21 | `sorted(TEST_ITEMS)`, a list of pairs inserted as given, has its keys in order, so `from_iter` builds it, and every item reads back with its value |
| Maps.Open | rust_fst/map.py:123-131 | a truthy path opens the file: IoError when it is missing, TransducerError when it does not decode. Otherwise the pointer is taken as it is |
| Maps.InsertStep | rust_fst/map.py:97-99 | the builder accepts the next entry exactly when the keys stay ascending; a refusal means the input is not sorted |
| Maps.MemMapBuilder.constructor | rust_fst/map.py:37-40 | a fresh context and an empty open builder, no map yet |
| Maps.MemMapBuilder.Insert | rust_fst/map.py:42-45 | appends the entry, or raises TransducerError when the key is not greater than the last and leaves the builder as it was |
| Maps.MemMapBuilder.Finish | rust_fst/map.py:47-52 | stores the finished map and clears the context and builder pointers |
| Maps.MemMapBuilder.GetMap | rust_fst/map.py:54-57 | ValueError before `finish`; afterwards the finished map |
| Maps.FileMapBuilder.Insert | rust_fst/map.py:24-27 | appends the entry; an out-of-order key raises TransducerError, and an in-order key whose write the device refuses raises IoError |
| Maps.FileMapBuilder.InsertAll | rust_fst/map.py:104-109 | the body's inserts: all succeed exactly when the keys are sorted, leaving the builder holding the body; a refused write within the ordered run raises IoError; otherwise an out-of-order key raises TransducerError |
| Maps.FileMapBuilder.InsertNext | rust_fst/map.py:24-27 | one insert within the ordered run: success extends the held prefix by one; a failure is TransducerError at the run's end or IoError at the faulty step |
| Maps.FileMapBuilder.Finish | rust_fst/map.py:29-33 | finishes and flushes: the file then holds exactly the inserted entries; a pending refused write raises IoError and leaves the file as it was |
| Maps.NewFileMapBuilder | rust_fst/map.py:17-22 | OSError when the file cannot be created; IoError when the device refuses the header; otherwise an empty builder writing to the new file |
| Maps.BuildInFile | rust_fst/map.py:104-109 | a finished file holding the entries exactly when their keys are sorted and the device refuses nothing; IoError when a refused write comes no later than the first out-of-order key; TransducerError otherwise |
| Maps.BuildInMemory | rust_fst/map.py:104-109 | sorted entries give a finished builder holding them; unsorted ones raise TransducerError |
| Maps.Build | rust_fst/map.py:94-109 | a file builder exactly for a truthy path, with the outcomes of `BuildInFile`; otherwise the memory builder's; `finish` runs only after every insert succeeded |
| Maps.FromIter | rust_fst/map.py:111-121 | on memory or a sound creatable path, a dict always builds and every item reads back with its value; other pairs build exactly when their keys are in order, and then the map holds them with `len` their count; otherwise TransducerError. OSError for a path that cannot be created; IoError or TransducerError, whichever failure comes first, on a device that refuses a write |

## Left out

- Garbage collection: the `ffi.gc` finalizers, `fst_context_free` and C-string frees are not modelled. The exactly-once release of streams and automata stands in for them, and so does the memory measurement in tests/util.py.
- Text encoding: keys are `seq<char>`, with no UTF-8 encoding or NUL-terminated C strings. Python's code-point order agrees with the index's byte order, so one order serves both.
- `Errors.IsWordChar` takes `\w` as ASCII letters, digits and underscore. Python's Unicode `\w` is wider, but the crate's variant names are ASCII.
- Crate error texts: the crate's own messages and the variant details (`OutOfOrder`, `Format`, `NotFound`, `TooManyStates`, `Syntax`) are placeholders. The model assumes the crate renders `description()` as `Variant(detail)`, which is the form `checked_call` parses.
- `Native.InsertResult`: a duplicate key is refused like any other key that is not greater than the last one. The crate's distinct duplicate-key error is folded into the out-of-order one.
- The `fst` crate is not part of this model: its index format, the k-way merge, and the Levenshtein and regex automata. The index is a sorted sequence, and the operation results are given by their membership rules (`Merge.Combine`). Automaton size limits, pattern rejection and acceptance are uninterpreted predicates of `Native.Engine`.
- `Sets.Set.Search`, `Maps.FstMap.Search`: the concrete edit-distance matching of `"bam"`, 1 is not derived, because the automaton is uninterpreted. `Maps.SearchExample` takes the accepted keys as a hypothesis. The `"a"*24`, 24 case is covered only as "too large raises LevenshteinError".
- Exceptions raised by Python itself are not modelled further: `checked_call` on an `fst::Error` without a description (TypeError) or without a `Variant(` prefix (AttributeError); OverflowError for integers outside `u64`/`u32`; TypeError for non-string keys.
- `Merge.Combine`: symmetric difference over more than two sources follows the rule of its docstring in rust_fst/set.py:252-258, "keys that exist in only one of the sets". Over two sources this is the usual symmetric difference.
- `Maps.PayloadFrom`: the native map-operation functions are not in fstwrapper/src/map.rs, so the payload order is an assumption about the crate: ascending source index. It is not verified against the crate, whose merge may order the values of an equal key differently; `Maps.PayloadOfAll`, `Maps.IntersectionPayload` and `Maps.OpItems` inherit this assumption.
- Write faults: a refusing device is modelled by the one builder step at which its refusal surfaces. How many bytes reach the file before the refusal, and the crate's buffering, are not modelled; the file keeps what `File::create` left.
- The with-body of `build` is modelled as a sequence of inserts (`body`). An exception from other user code in the body is not modelled.
- `Sets.Open`, `Maps.Open`: `Set(None)` and `FstMap()` without a pointer are excluded by the precondition. The model has no null index pointer.
- Set range slices use only the `add_ge`/`add_lt` stream-builder calls that `__getitem__` makes. `add_gt`/`add_le` and the stream-builder variants of the op builder are unused by the Python layer and are left out.
- Repository drift: `set.py` calls `fst_set_streambuilder_*` and `fst_regex_new`. They exist in `rust/src/set.rs` and `rust/rust_fst.h` only, not in `fstwrapper/src/set.rs` or `_build_ffi.py`. The Python-level behaviour is modelled.
- `fst/`, `setup.py` and `rust_setuptools.py` are packaging or an early playground and are not part of this model.
