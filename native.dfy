/** The native wrapper (fstwrapper/src): the `Context` error latch, the
    next-functions that turn a Rust stream step into a nullable C value, the
    hand-written latches of `fst_map_get` and `fst_mapvalues_next`, and the
    builder insert/finish protocol.  Below it sits the `fst` crate, which is
    not part of this model: its index is an ordered sequence of entries, its
    encoded form is `Bytes`, and its automata are judged by an `Engine`. */
module Native {
  import opened Wrappers
  import opened Order
  import Errors

  // ---------------------------------------------------------------------
  // Errors as the Rust side renders them

  /** A Rust error as `with_context!` records it: the type name and the
      `{:?}`, `{}` and `description()` renderings. */
  datatype RustError = RustError(typeName: string, debug: string, display: string, description: string)

  /** An `fst::Error`.  Its description spells the enum variant as
      `Variant(detail)`, the form `checked_call` parses. */
  function CrateError(variant: string, detail: string): RustError
  {
    RustError("fst::Error", variant + "(" + detail + ")", detail, variant + "(" + detail + ")")
  }

  /** A `std::io::Error`, e.g. from `File::create`. */
  function IoFailure(detail: string): RustError
  {
    RustError("std::io::Error", detail, detail, detail)
  }

  /** What `checked_call` reads from a context in which `e` was latched. */
  function LatchedView(e: RustError): Errors.ContextView
  {
    Errors.ContextView(true, Some(e.typeName), Some(e.display), Some(e.description))
  }

  /** End to end: an `fst::Error` whose variant is one the table knows
      arrives as that variant's subclass of FstError, carrying the display
      text with newlines flattened. */
  lemma CrateErrorClass(variant: string, detail: string)
    requires |variant| > 0 && forall i :: 0 <= i < |variant| ==> Errors.IsWordChar(variant[i])
    requires "fst::Error::" + variant in Errors.ExceptionMap
    ensures Errors.Raised(LatchedView(CrateError(variant, detail))) ==
      Errors.Exception(Errors.ExceptionMap["fst::Error::" + variant], Some(Errors.ReplaceNewlines(detail)))
    ensures Errors.Base(Errors.Raised(LatchedView(CrateError(variant, detail))).kind) == Some(Errors.FstError)
  {
    Errors.VariantRefinement(LatchedView(CrateError(variant, detail)), variant, detail);
  }

  /** Errors of the transducer itself (an insertion out of order, bytes
      that are not an index) arrive as TransducerError. */
  lemma TransducerFailure(detail: string)
    ensures Errors.Raised(LatchedView(CrateError("Fst", detail))).kind == Errors.TransducerError
  {
    assert "fst::Error::" + "Fst" == "fst::Error::Fst";
    CrateErrorClass("Fst", detail);
  }

  /** An index file that cannot be read arrives as the package's IoError. */
  lemma UnreadableIsIoError(detail: string)
    ensures Errors.Raised(LatchedView(CrateError("Io", detail))).kind == Errors.IoError
  {
    assert "fst::Error::" + "Io" == "fst::Error::Io";
    CrateErrorClass("Io", detail);
  }

  /** A Levenshtein automaton over the crate's size limit arrives as
      LevenshteinError. */
  lemma TooLargeIsLevenshteinError(detail: string)
    ensures Errors.Raised(LatchedView(CrateError("Levenshtein", detail))).kind == Errors.LevenshteinError
  {
    assert "fst::Error::" + "Levenshtein" == "fst::Error::Levenshtein";
    CrateErrorClass("Levenshtein", detail);
  }

  /** A rejected pattern arrives as RegexError. */
  lemma RejectedIsRegexError(detail: string)
    ensures Errors.Raised(LatchedView(CrateError("Regex", detail))).kind == Errors.RegexError
  {
    assert "fst::Error::" + "Regex" == "fst::Error::Regex";
    CrateErrorClass("Regex", detail);
  }

  /** End to end: an I/O error arrives as OSError. */
  lemma IoFailureClass(detail: string)
    ensures Errors.Raised(LatchedView(IoFailure(detail))) ==
      Errors.Exception(Errors.OSError, Some(Errors.ReplaceNewlines(detail)))
  {
  }

  /** The message `fst_map_get` records for a missing key. */
  function MissingKeyMessage(key: string): string
  {
    "Key '" + key + "' not in map."
  }

  /** What `checked_call` reads after `fst_map_get` missed `key`. */
  function MissingKeyView(key: string): Errors.ContextView
  {
    var msg := MissingKeyMessage(key);
    Errors.ContextView(true, Some("KeyError"), Some(msg), Some(msg))
  }

  /** The native side names the error `KeyError`, but the table's key is
      `py::KeyError`: a missing key arrives as plain FstError, not KeyError. */
  lemma MissingKeyIsPlainFstError(key: string)
    ensures Errors.Raised(MissingKeyView(key)) ==
      Errors.Exception(Errors.FstError, Some(Errors.ReplaceNewlines(MissingKeyMessage(key))))
    ensures Errors.Raised(MissingKeyView(key)).kind != Errors.KeyError
  {
    assert "KeyError" !in Errors.ExceptionMap by {
      assert "KeyError" != "py::KeyError" && "KeyError" != "fst::Error";
    }
  }

  // ---------------------------------------------------------------------
  // The Context latch

  /** The `Context` struct shared with Python; a null `char*` is None. */
  class Context {
    var hasError: bool
    var errorType: Option<string>
    var errorDebug: Option<string>
    var errorDisplay: Option<string>
    var errorDescription: Option<string>

    /** Whenever an error is flagged, all four texts are set. */
    ghost predicate Valid()
      reads this
    {
      hasError ==> errorType.Some? && errorDebug.Some? && errorDisplay.Some? && errorDescription.Some?
    }

    /** `fst_context_new`: no error and four null strings. */
    constructor ()
      ensures Valid() && !hasError
      ensures errorType.None? && errorDebug.None? && errorDisplay.None? && errorDescription.None?
    {
      hasError := false;
      errorType, errorDebug, errorDisplay, errorDescription := None, None, None, None;
    }

    /** The fields `checked_call` reads. */
    function View(): (v: Errors.ContextView)
      reads this
      ensures Valid() ==> (v.hasError ==> v.errorType.Some?)
    {
      Errors.ContextView(hasError, errorType, errorDisplay, errorDescription)
    }

    /** `with_context!(ctx, default, e)`: clear the flag, evaluate `e`; on
        `Ok(v)` yield `v`, on `Err` latch the error.  None stands for the
        early `return default` of the enclosing native function. */
    method WithContext<T>(e: Result<T, RustError>) returns (r: Option<T>)
      requires Valid()
      modifies this
      ensures Valid()
      ensures e.Ok? ==> r == Some(e.value) && !hasError
      ensures e.Ok? ==> (errorType == old(errorType) && errorDebug == old(errorDebug)
        && errorDisplay == old(errorDisplay) && errorDescription == old(errorDescription))
      ensures e.Err? ==> r.None? && View() == LatchedView(e.error) && errorDebug == Some(e.error.debug)
    {
      hasError := false;
      match e {
        case Ok(v) =>
          r := Some(v);
        case Err(err) =>
          hasError := true;
          errorType := Some(err.typeName);
          errorDebug := Some(err.debug);
          errorDisplay := Some(err.display);
          errorDescription := Some(err.description);
          r := None;
      }
    }

    /** The hand-written latch of `fst_map_get` and `fst_mapvalues_next`:
        one message for debug, display and description. */
    method Latch(typeName: string, msg: string)
      modifies this
      ensures Valid() && hasError && errorType == Some(typeName)
      ensures errorDebug == Some(msg) && errorDisplay == Some(msg) && errorDescription == Some(msg)
    {
      hasError := true;
      errorType := Some(typeName);
      errorDebug, errorDisplay, errorDescription := Some(msg), Some(msg), Some(msg);
    }
  }

  // ---------------------------------------------------------------------
  // The crate below the wrapper

  /** The encoded form of an index (a file's contents or a builder's
      buffer).  `Garbage` is anything the crate cannot decode, such as an
      empty or truncated file. */
  datatype Bytes = Encoded(entries: seq<(string, U64)>) | Garbage

  /** `MapBuilder::into_inner` on a memory builder: its buffer. */
  function IntoInner(entries: seq<(string, U64)>): Result<Bytes, RustError>
  {
    Ok(Encoded(entries))
  }

  /** `Map::from_bytes` / `Set::from_bytes`: only a well-formed index,
      whose keys are in order, decodes. */
  function FromBytes(b: Bytes): (r: Result<seq<(string, U64)>, RustError>)
    ensures r.Ok? ==> StrictlySorted(Keys(r.value))
  {
    if b.Encoded? && StrictlySorted(Keys(b.entries)) then Ok(b.entries)
    else Err(CrateError("Fst", "Format"))
  }

  /** Decoding what a builder encoded gives back its entries. */
  lemma EncodeDecode(entries: seq<(string, U64)>)
    requires StrictlySorted(Keys(entries))
    ensures IntoInner(entries).Ok? && FromBytes(IntoInner(entries).value) == Ok(entries)
  {
  }

  /** `Map::from_path` / `Set::from_path`: a missing file is an I/O error of
      the crate, an undecodable one a format error. */
  function FromPath(files: map<string, Bytes>, path: string): (r: Result<seq<(string, U64)>, RustError>)
    ensures r.Ok? ==> StrictlySorted(Keys(r.value))
  {
    if path !in files then Err(CrateError("Io", "NotFound")) else FromBytes(files[path])
  }

  /** The error of an insertion out of order: an `fst::raw::Error`, which
      the crate wraps in its `Fst` variant. */
  function InsertError(): RustError
  {
    CrateError("Fst", "OutOfOrder")
  }

  /** The builder's order check: a key must be greater than the last one. */
  function InsertResult(entries: seq<(string, U64)>, key: string): (r: Result<(), RustError>)
    ensures r.Err? ==> r.error == InsertError()
    ensures StrictlySorted(Keys(entries)) ==> (r.Ok? <==> forall k :: k in Keys(entries) ==> Less(k, key))
  {
    if |entries| > 0 && !Less(entries[|entries| - 1].0, key) then
      assert Keys(entries)[|entries| - 1] in Keys(entries);
      Err(InsertError())
    else
      AboveLast(entries, key);
      Ok(())
  }

  /** The order check compares with the last key only. */
  lemma InsertResultLast(entries: seq<(string, U64)>, key: string)
    ensures InsertResult(entries, key).Ok? <==> |entries| == 0 || Less(entries[|entries| - 1].0, key)
  {
  }

  /** A key above the last of sorted entries is above all of them. */
  lemma AboveLast(entries: seq<(string, U64)>, key: string)
    requires |entries| > 0 ==> Less(entries[|entries| - 1].0, key)
    ensures StrictlySorted(Keys(entries)) ==> forall k :: k in Keys(entries) ==> Less(k, key)
  {
    if StrictlySorted(Keys(entries)) {
      var ks := Keys(entries);
      forall k | k in ks ensures Less(k, key) {
        var i :| 0 <= i < |ks| && ks[i] == k;
        if i < |ks| - 1 {
          LessTransitive(k, ks[|ks| - 1], key);
        }
      }
    }
  }

  /** Insertions that the order check accepts keep the keys strictly sorted. */
  lemma InsertKeepsSorted(entries: seq<(string, U64)>, key: string, value: U64)
    requires StrictlySorted(Keys(entries)) && InsertResult(entries, key).Ok?
    ensures StrictlySorted(Keys(entries + [(key, value)]))
  {
    KeysAppend(entries, [(key, value)]);
    assert Keys([(key, value)]) == [key];
    SortedAppend(Keys(entries), key);
  }

  /** `fst::Map::get`. */
  function Get(index: seq<(string, U64)>, key: string): (r: Option<U64>)
    ensures r.None? <==> key !in Keys(index)
    ensures r.Some? ==> (key, r.value) in index
    decreases |index|
  {
    if index == [] then None
    else if index[0].0 == key then Some(index[0].1)
    else
      assert Keys(index) == [index[0].0] + Keys(index[1..]);
      Get(index[1..], key)
  }

  /** With strictly sorted keys, `get` returns the value stored with the key. */
  lemma {:induction false} GetStored(index: seq<(string, U64)>, i: nat)
    requires StrictlySorted(Keys(index)) && i < |index|
    ensures Get(index, index[i].0) == Some(index[i].1)
    decreases |index|
  {
    if i > 0 {
      SortedDistinct(Keys(index), 0, i);
      SortedTailKeys(index);
      GetStored(index[1..], i - 1);
    }
  }

  /** A fuzzy (Levenshtein) or pattern (regex) automaton. */
  datatype Automaton = Levenshtein(term: string, maxDist: U32) | Regex(pattern: string)

  /** The automaton compilers and matcher of the crate, left uninterpreted:
      whether a Levenshtein automaton exceeds the crate's size limit, whether
      a pattern lies outside the supported regex dialect, and which keys an
      automaton accepts. */
  datatype Engine = Engine(
    levenshteinTooLarge: (string, U32) -> bool,
    regexRejected: string -> bool,
    accepts: (Automaton, string) -> bool)

  /** `Levenshtein::new(term, max_dist)`. */
  function BuildLevenshtein(engine: Engine, term: string, maxDist: U32): Result<Automaton, RustError>
  {
    if engine.levenshteinTooLarge(term, maxDist) then Err(CrateError("Levenshtein", "TooManyStates"))
    else Ok(Levenshtein(term, maxDist))
  }

  /** `Regex::new(pattern)`. */
  function BuildRegex(engine: Engine, pattern: string): Result<Automaton, RustError>
  {
    if engine.regexRejected(pattern) then Err(CrateError("Regex", "Syntax"))
    else Ok(Regex(pattern))
  }

  // ---------------------------------------------------------------------
  // Native objects

  /** A Rust stream behind a raw pointer: what it will yield, and how far
      it has got. */
  class NativeCursor<T> {
    const items: seq<T>
    var pos: nat

    ghost predicate Valid()
      reads this
    {
      pos <= |items|
    }

    constructor (items: seq<T>)
      ensures Valid() && this.items == items && pos == 0
    {
      this.items := items;
      pos := 0;
    }

    /** `Streamer::next`: the next item, or None once exhausted. */
    method Next() returns (r: Option<T>)
      requires Valid()
      modifies this
      ensures Valid()
      ensures old(pos) < |items| ==> r == Some(items[old(pos)]) && pos == old(pos) + 1
      ensures old(pos) == |items| ==> r.None? && pos == old(pos)
    {
      if pos < |items| {
        r := Some(items[pos]);
        pos := pos + 1;
      } else {
        r := None;
      }
    }
  }

  /** The C struct `MapItem` handed out per map stream step. */
  datatype MapItem = MapItem(key: string, value: U64)

  /** One `(index, value)` entry of a map set-operation item. */
  datatype NativeIndexedValue = NativeIndexedValue(index: nat, value: U64)

  /** The C struct `MapOpItem`: a key and its `num_values` indexed values. */
  datatype MapOpItem = MapOpItem(key: string, values: seq<NativeIndexedValue>)
  {
    function NumValues(): nat { |values| }
  }

  /** `set_make_next_fn!`: `Some(key)` becomes a C string of that key, `None`
      becomes null. */
  method SetNextFn(stream: NativeCursor<string>) returns (r: Option<string>)
    requires stream.Valid()
    modifies stream
    ensures stream.Valid()
    ensures old(stream.pos) < |stream.items| ==>
      r == Some(stream.items[old(stream.pos)]) && stream.pos == old(stream.pos) + 1
    ensures old(stream.pos) == |stream.items| ==> r.None? && stream.pos == old(stream.pos)
  {
    var next := stream.Next();
    match next {
      case Some(key) => r := Some(key);
      case None => r := None;
    }
  }

  /** `map_make_next_fn!`: `Some((k, v))` becomes a `MapItem` with exactly
      that key and value, `None` becomes null. */
  method MapNextFn(stream: NativeCursor<(string, U64)>) returns (r: Option<MapItem>)
    requires stream.Valid()
    modifies stream
    ensures stream.Valid()
    ensures old(stream.pos) < |stream.items| ==>
      var (k, v) := stream.items[old(stream.pos)];
      r == Some(MapItem(k, v)) && stream.pos == old(stream.pos) + 1
    ensures old(stream.pos) == |stream.items| ==> r.None? && stream.pos == old(stream.pos)
  {
    var next := stream.Next();
    match next {
      case Some((k, v)) => r := Some(MapItem(k, v));
      case None => r := None;
    }
  }

  /** `fst_map_get`: the stored value with the flag clear, or 0 with a
      `KeyError` latched. */
  method MapGet(ctx: Context, index: seq<(string, U64)>, key: string) returns (v: U64)
    requires ctx.Valid()
    modifies ctx
    ensures ctx.Valid()
    ensures Get(index, key).Some? ==> v == Get(index, key).value && !ctx.hasError
    ensures Get(index, key).Some? ==>
      ctx.errorType == old(ctx.errorType) && ctx.errorDebug == old(ctx.errorDebug)
      && ctx.errorDisplay == old(ctx.errorDisplay) && ctx.errorDescription == old(ctx.errorDescription)
    ensures Get(index, key).None? ==> v == 0 && ctx.View() == MissingKeyView(key)
  {
    ctx.hasError := false;
    match Get(index, key) {
      case Some(x) =>
        v := x;
      case None =>
        ctx.Latch("KeyError", MissingKeyMessage(key));
        v := 0;
    }
  }

  /** `fst_mapvalues_next`: the next value with the flag clear, or 0 with a
      `StopIteration` latched at the end.  The flag is cleared first, so a
      stored 0 is told apart from the end by the flag alone. */
  method MapValuesNext(ctx: Context, stream: NativeCursor<U64>) returns (v: U64)
    requires ctx.Valid() && stream.Valid()
    modifies ctx, stream
    ensures ctx.Valid() && stream.Valid()
    ensures old(stream.pos) < |stream.items| ==>
      v == stream.items[old(stream.pos)] && !ctx.hasError && stream.pos == old(stream.pos) + 1
    ensures old(stream.pos) < |stream.items| ==>
      ctx.errorType == old(ctx.errorType) && ctx.errorDebug == old(ctx.errorDebug)
      && ctx.errorDisplay == old(ctx.errorDisplay) && ctx.errorDescription == old(ctx.errorDescription)
    ensures old(stream.pos) == |stream.items| ==>
      v == 0 && ctx.hasError && ctx.errorType == Some("StopIteration")
      && ctx.errorDisplay == Some("No more values.") && stream.pos == old(stream.pos)
  {
    ctx.hasError := false;
    var next := stream.Next();
    match next {
      case Some(x) =>
        v := x;
      case None =>
        ctx.Latch("StopIteration", "No more values.");
        v := 0;
    }
  }

  /** The file system the file-backed builders write to and containers are
      opened from: file contents, the paths `File::create` accepts, and the
      paths whose device refuses writes (a full disk, say).  For such a path
      `faults` gives the builder step at which the refusal surfaces: 0 is
      `MapBuilder::new`, which writes the header, and k is the k-th insert;
      a refusal not yet surfaced when the builder finishes surfaces there,
      since `finish` flushes the writer. */
  class FileSystem {
    var files: map<string, Bytes>
    const creatable: set<string>
    const faults: map<string, nat>

    constructor (files: map<string, Bytes>, creatable: set<string>, faults: map<string, nat>)
      ensures this.files == files && this.creatable == creatable && this.faults == faults
    {
      this.files := files;
      this.creatable := creatable;
      this.faults := faults;
    }
  }

  /** An `io::BufWriter<File>`: what has been written but not yet flushed. */
  class Writer {
    const fs: FileSystem
    const path: string
    var buffer: Bytes

    constructor (fs: FileSystem, path: string)
      ensures this.fs == fs && this.path == path && buffer == Garbage
    {
      this.fs := fs;
      this.path := path;
      buffer := Garbage;
    }
  }

  /** `fst_bufwriter_new`: `File::create(path)`, which truncates the file, or
      an I/O error latched and null. */
  method BufWriterNew(ctx: Context, fs: FileSystem, path: string) returns (w: Writer?)
    requires ctx.Valid()
    modifies ctx, fs
    ensures ctx.Valid()
    ensures path in fs.creatable ==>
      w != null && fresh(w) && w.fs == fs && w.path == path && w.buffer == Garbage
      && !ctx.hasError && fs.files == old(fs.files)[path := Garbage]
    ensures path !in fs.creatable ==>
      w == null && ctx.View() == LatchedView(IoFailure("NotFound")) && fs.files == old(fs.files)
  {
    var created := ctx.WithContext(if path in fs.creatable then Ok(()) else Err(IoFailure("NotFound")));
    if created.None? {
      return null;
    }
    fs.files := fs.files[path := Garbage];
    w := new Writer(fs, path);
  }

  /** `fst_bufwriter_free`: dropping the writer flushes its buffer to the file. */
  method BufWriterFree(w: Writer)
    modifies w.fs
    ensures w.fs.files == old(w.fs.files)[w.path := w.buffer]
  {
    w.fs.files := w.fs.files[w.path := w.buffer];
  }

  /** A write the device refuses, as the crate reports it: its `Io` variant. */
  function WriteError(): RustError
  {
    CrateError("Io", "WriteZero")
  }

  /** The device of `path` refuses the write of builder step `step`. */
  predicate FaultAt(fs: FileSystem, path: string, step: nat)
  {
    path in fs.faults && fs.faults[path] == step
  }

  /** A refusal on `path` has not surfaced before step `step`. */
  predicate FaultFrom(fs: FileSystem, path: string, step: nat)
  {
    path in fs.faults && fs.faults[path] >= step
  }

  /** The device behind `sink` refuses the write of builder step `step`.  A
      memory builder (sink null) never fails to write. */
  predicate FailsAt(sink: Writer?, step: nat)
  {
    sink != null && FaultAt(sink.fs, sink.path, step)
  }

  /** A refusal is still pending at step `step`. */
  predicate FailsFrom(sink: Writer?, step: nat)
  {
    sink != null && FaultFrom(sink.fs, sink.path, step)
  }

  /** The write of builder step `step`. */
  function WriteResult(sink: Writer?, step: nat): Result<(), RustError>
  {
    if FailsAt(sink, step) then Err(WriteError()) else Ok(())
  }

  /** `insert` on a builder holding `entries`: the order check, then the
      write of step `|entries| + 1`. */
  function InsertOutcome(sink: Writer?, entries: seq<(string, U64)>, key: string): Result<(), RustError>
  {
    if InsertResult(entries, key).Err? then InsertResult(entries, key)
    else WriteResult(sink, |entries| + 1)
  }

  /** `finish` on a builder holding `entries`: the final flush. */
  function FinishResult(sink: Writer?, entries: seq<(string, U64)>): Result<(), RustError>
  {
    if FailsFrom(sink, |entries| + 1) then Err(WriteError()) else Ok(())
  }

  /** The crate's builder behind a `SetBuilder` or `MapBuilder` (a set is a
      map whose values are all 0), writing to a file or to memory. */
  class NativeBuilder {
    var entries: seq<(string, U64)>
    var consumed: bool
    const sink: Writer?

    ghost predicate Valid()
      reads this
    {
      StrictlySorted(Keys(entries))
    }

    /** `MapBuilder::memory()` (sink null) or `MapBuilder::new(wtr)`. */
    constructor (sink: Writer?)
      ensures Valid() && entries == [] && !consumed && this.sink == sink
    {
      entries := [];
      consumed := false;
      this.sink := sink;
    }
  }

  /** `fst_filemapbuilder_new` / `fst_filesetbuilder_new`: `MapBuilder::new`
      writes the header under `with_context!`; null with the write error
      latched if the device refuses it. */
  method FileBuilderNew(ctx: Context, w: Writer) returns (b: NativeBuilder?)
    requires ctx.Valid()
    modifies ctx
    ensures ctx.Valid()
    ensures !FailsAt(w, 0) ==>
      b != null && fresh(b) && b.Valid() && b.entries == [] && !b.consumed && b.sink == w && !ctx.hasError
    ensures FailsAt(w, 0) ==> b == null && ctx.View() == LatchedView(WriteError())
  {
    var header := ctx.WithContext(WriteResult(w, 0));
    if header.None? {
      return null;
    }
    b := new NativeBuilder(w);
  }

  /** `fst_{mem,file}{map,set}builder_insert`: true on success, false with
      the crate's error latched: an out-of-order key, or a refused write. */
  method BuilderInsert(ctx: Context, b: NativeBuilder, key: string, value: U64) returns (ok: bool)
    requires ctx.Valid() && b.Valid() && !b.consumed
    modifies ctx, b
    ensures ctx.Valid() && b.Valid() && !b.consumed
    ensures ok <==> InsertOutcome(b.sink, old(b.entries), key).Ok?
    ensures ok ==> b.entries == old(b.entries) + [(key, value)] && !ctx.hasError
    ensures !ok ==> (b.entries == old(b.entries)
      && ctx.View() == LatchedView(InsertOutcome(b.sink, old(b.entries), key).error))
  {
    var r := ctx.WithContext(InsertOutcome(b.sink, b.entries, key));
    if r.None? {
      return false;
    }
    InsertKeepsSorted(b.entries, key, value);
    b.entries := b.entries + [(key, value)];
    ok := true;
  }

  /** `fst_filemapbuilder_finish` / `fst_filesetbuilder_finish`: consumes the
      builder and flushes the encoded index into the writer's buffer, or
      returns false with the write error latched. */
  method FileBuilderFinish(ctx: Context, b: NativeBuilder) returns (ok: bool)
    requires ctx.Valid() && !b.consumed && b.sink != null
    modifies ctx, b, b.sink
    ensures ctx.Valid() && b.consumed && b.entries == old(b.entries)
    ensures ok <==> FinishResult(b.sink, old(b.entries)).Ok?
    ensures ok ==> !ctx.hasError && b.sink.buffer == Encoded(old(b.entries))
    ensures !ok ==> ctx.View() == LatchedView(WriteError()) && b.sink.buffer == old(b.sink.buffer)
  {
    b.consumed := true;
    var r := ctx.WithContext(FinishResult(b.sink, b.entries));
    if r.None? {
      return false;
    }
    b.sink.buffer := Encoded(b.entries);
    ok := true;
  }

  /** `fst_memmapbuilder_finish` / `fst_memsetbuilder_finish`: consumes the
      builder, then `into_inner` and `from_bytes`, each under
      `with_context!`; null with the error latched if either fails. */
  method MemBuilderFinish(ctx: Context, b: NativeBuilder) returns (r: Option<seq<(string, U64)>>)
    requires ctx.Valid() && !b.consumed
    modifies ctx, b
    ensures ctx.Valid() && b.consumed && b.entries == old(b.entries)
    ensures var inner := IntoInner(old(b.entries));
      if inner.Err? then r.None? && ctx.View() == LatchedView(inner.error)
      else if FromBytes(inner.value).Err? then r.None? && ctx.View() == LatchedView(FromBytes(inner.value).error)
      else r == Some(FromBytes(inner.value).value) && !ctx.hasError
  {
    b.consumed := true;
    var data := ctx.WithContext(IntoInner(b.entries));
    if data.None? {
      return None;
    }
    var index := ctx.WithContext(FromBytes(data.value));
    if index.None? {
      return None;
    }
    r := index;
  }

  /** `fst_map_open` / `fst_set_open`. */
  method IndexOpen(ctx: Context, fs: FileSystem, path: string) returns (r: Option<seq<(string, U64)>>)
    requires ctx.Valid()
    modifies ctx
    ensures ctx.Valid()
    ensures FromPath(fs.files, path).Ok? ==> r == Some(FromPath(fs.files, path).value) && !ctx.hasError
    ensures FromPath(fs.files, path).Err? ==> r.None? && ctx.View() == LatchedView(FromPath(fs.files, path).error)
  {
    r := ctx.WithContext(FromPath(fs.files, path));
  }

  /** `fst_levenshtein_new`: the automaton, or null with the crate's error
      latched. */
  method LevenshteinNew(ctx: Context, engine: Engine, term: string, maxDist: U32) returns (r: Option<Automaton>)
    requires ctx.Valid()
    modifies ctx
    ensures ctx.Valid()
    ensures !engine.levenshteinTooLarge(term, maxDist) ==> r == Some(Levenshtein(term, maxDist)) && !ctx.hasError
    ensures engine.levenshteinTooLarge(term, maxDist) ==>
      r.None? && ctx.View() == LatchedView(CrateError("Levenshtein", "TooManyStates"))
  {
    r := ctx.WithContext(BuildLevenshtein(engine, term, maxDist));
  }

  /** `fst_regex_new`: the automaton, or null with the crate's error latched. */
  method RegexNew(ctx: Context, engine: Engine, pattern: string) returns (r: Option<Automaton>)
    requires ctx.Valid()
    modifies ctx
    ensures ctx.Valid()
    ensures !engine.regexRejected(pattern) ==> r == Some(Regex(pattern)) && !ctx.hasError
    ensures engine.regexRejected(pattern) ==> r.None? && ctx.View() == LatchedView(CrateError("Regex", "Syntax"))
  {
    r := ctx.WithContext(BuildRegex(engine, pattern));
  }
}
