/** The Python side of the error channel (rust_fst/lib.py): the exception
    classes, the table from Rust type names to classes, and `checked_call`,
    which turns a latched native `Context` into a raised exception. */
module Errors {
  import opened Wrappers

  /** The exception classes that can reach a caller.  The first five are the
      package's own (FstError and its four subclasses); the rest are Python
      built-ins raised by the package or by `checked_call` itself. */
  datatype ExcKind =
    | FstError | TransducerError | RegexError | LevenshteinError | IoError
    | OSError | KeyError | ValueError | TypeError | AttributeError

  /** The declared base class of a package exception. */
  function Base(k: ExcKind): Option<ExcKind>
  {
    match k
    case TransducerError => Some(FstError)
    case RegexError => Some(FstError)
    case LevenshteinError => Some(FstError)
    case IoError => Some(FstError)
    case _ => None
  }

  /** `issubclass(k, base)` over the hierarchy above (it is two levels deep). */
  predicate IsSubclass(k: ExcKind, base: ExcKind)
  {
    k == base || Base(k) == Some(base)
  }

  /** What `except FstError` catches: FstError itself and its four subclasses,
      and nothing else of the classes above. */
  lemma FstErrorFamily(k: ExcKind)
    ensures IsSubclass(k, FstError) <==>
      k in {FstError, TransducerError, RegexError, LevenshteinError, IoError}
  {
  }

  /** A raised exception: its class and its single argument (None or a string). */
  datatype Exception = Exception(kind: ExcKind, msg: Option<string>)

  /** The result of a Python call: it returns a value or raises. */
  datatype Outcome<+T> = Return(value: T) | Raise(exc: Exception)

  /** EXCEPTION_MAP: Rust type name (optionally `::Variant`) to class. */
  const ExceptionMap: map<string, ExcKind> := map[
    "std::io::Error" := OSError,
    "fst::Error" := FstError,
    "fst::Error::Fst" := TransducerError,
    "fst::Error::Regex" := RegexError,
    "fst::Error::Levenshtein" := LevenshteinError,
    "fst::Error::Io" := IoError,
    "py::KeyError" := KeyError
  ]

  /** `EXCEPTION_MAP.get(t)`. */
  function Lookup(t: string): Option<ExcKind>
  {
    if t in ExceptionMap then Some(ExceptionMap[t]) else None
  }

  /** The fields of the native `Context` that `checked_call` reads; a null
      `char*` is None. */
  datatype ContextView = ContextView(
    hasError: bool,
    errorType: Option<string>,
    errorDisplay: Option<string>,
    errorDescription: Option<string>)

  /** `s.replace('\n', ' ')`. */
  function ReplaceNewlines(s: string): (r: string)
    ensures |r| == |s| && '\n' !in r
    ensures forall i :: 0 <= i < |s| && s[i] != '\n' ==> r[i] == s[i]
    ensures forall i :: 0 <= i < |s| && s[i] == '\n' ==> r[i] == ' '
  {
    seq(|s|, i requires 0 <= i < |s| => if s[i] == '\n' then ' ' else s[i])
  }

  /** A character matched by `\w` (ASCII letters, digits and underscore). */
  predicate IsWordChar(c: char)
  {
    ('a' <= c <= 'z') || ('A' <= c <= 'Z') || ('0' <= c <= '9') || c == '_'
  }

  /** The length of the longest prefix of `s` made of word characters. */
  function WordRun(s: string): (n: nat)
    ensures n <= |s|
    ensures forall i :: 0 <= i < n ==> IsWordChar(s[i])
    ensures n < |s| ==> !IsWordChar(s[n])
    decreases |s|
  {
    if |s| > 0 && IsWordChar(s[0]) then 1 + WordRun(s[1..]) else 0
  }

  /** `re.match(r'(\w+)\(.*?\)', desc, re.DOTALL).group(1)`, or None when the
      pattern does not match at the start of `desc`.  Because `\w+` is greedy
      and `(` is not a word character, the group is the whole leading run of
      word characters, which must be nonempty, followed by `(`, with a `)`
      somewhere after it. */
  function MatchVariant(desc: string): (r: Option<string>)
    ensures r.Some? ==>
      && 0 < |r.value| < |desc| && desc[..|r.value|] == r.value && desc[|r.value|] == '('
      && (forall i :: 0 <= i < |r.value| ==> IsWordChar(r.value[i]))
      && ')' in desc[|r.value| + 1..]
    ensures r.None? ==> forall n ::
      0 < n < |desc| && desc[n] == '(' && (forall i :: 0 <= i < n ==> IsWordChar(desc[i])) ==>
        ')' !in desc[n + 1..]
  {
    var n := WordRun(desc);
    if 0 < n < |desc| && desc[n] == '(' && ')' in desc[n + 1..] then Some(desc[..n]) else None
  }

  /** A description written `Variant(detail)` yields `Variant`. */
  lemma MatchVariantOf(v: string, detail: string)
    requires |v| > 0 && forall i :: 0 <= i < |v| ==> IsWordChar(v[i])
    ensures MatchVariant(v + "(" + detail + ")") == Some(v)
  {
    var desc := v + "(" + detail + ")";
    var n := WordRun(desc);
    assert desc[|v|] == '(' && !IsWordChar('(');
    assert forall i :: 0 <= i < |v| ==> desc[i] == v[i];
    assert n == |v|;
    assert desc[n + 1..] == detail + ")";
    assert desc[n + 1..][|detail|] == ')';
    assert desc[..n] == v;
  }

  /** `str(msg)` inside `"{}: {}".format(...)`: None prints as `None`. */
  function Show(msg: Option<string>): (r: string)
    ensures msg.None? || '\n' !in msg.value ==> '\n' !in r
  {
    if msg.Some? then msg.value else "None"
  }

  /** The exception `checked_call` raises for a latched error. */
  function Raised(view: ContextView): (r: Exception)
    requires view.hasError && view.errorType.Some?
    ensures r.msg.Some? ==> '\n' !in r.msg.value
    ensures r.kind == TypeError || r.kind == AttributeError ==>
      view.errorType == Some("fst::Error") && r.msg.None?
    ensures r.kind == KeyError ==> view.errorType == Some("py::KeyError")
  {
    var typeStr := view.errorType.value;
    var msg := if view.errorDisplay.Some? then Some(ReplaceNewlines(view.errorDisplay.value)) else None;
    var errType := Lookup(typeStr);
    if errType == Some(FstError) then
      if view.errorDescription.None? then
        // re.match(pattern, None) raises TypeError
        Exception(TypeError, None)
      else
        match MatchVariant(view.errorDescription.value)
        // re.match(...) is None, and None.group(1) raises AttributeError
        case None => Exception(AttributeError, None)
        case Some(variant) =>
          var refined := Lookup(typeStr + "::" + variant);
          if refined.None? then Exception(FstError, Some(variant + ": " + Show(msg)))
          else Exception(refined.value, msg)
    else if errType.None? then Exception(FstError, msg)
    else Exception(errType.value, msg)
  }

  /** `checked_call(fn, ctx, *args)` after `fn` returned `res` and left the
      context as `view`.  Every path that sets `has_error` on the native side
      also sets the error type, which is what the requires states. */
  function CheckedCall<T>(view: ContextView, res: T): (r: Outcome<T>)
    requires view.hasError ==> view.errorType.Some?
    ensures r.Return? <==> !view.hasError
    ensures r.Return? ==> r.value == res
  {
    if !view.hasError then Return(res) else Raise(Raised(view))
  }

  /** A type name found in the table other than `fst::Error` picks its class
      directly, with the display text (newlines flattened) as the message. */
  lemma DirectLookup(view: ContextView)
    requires view.hasError && view.errorType.Some?
    requires view.errorType.value in ExceptionMap && view.errorType.value != "fst::Error"
    ensures Raised(view).kind == ExceptionMap[view.errorType.value]
    ensures Raised(view).msg ==
      (if view.errorDisplay.Some? then Some(ReplaceNewlines(view.errorDisplay.value)) else None)
  {
  }

  /** A type name not in the table raises plain FstError. */
  lemma UnknownTypeIsFstError(view: ContextView)
    requires view.hasError && view.errorType.Some? && view.errorType.value !in ExceptionMap
    ensures Raised(view).kind == FstError
  {
  }

  /** An `fst::Error` whose description reads `Variant(detail)` is refined by
      its variant: a known one picks the subclass, an unknown one falls back to
      FstError with the variant prefixed to the message. */
  lemma {:induction false} VariantRefinement(view: ContextView, variant: string, detail: string)
    requires view.hasError && view.errorType == Some("fst::Error")
    requires |variant| > 0 && forall i :: 0 <= i < |variant| ==> IsWordChar(variant[i])
    requires view.errorDescription == Some(variant + "(" + detail + ")")
    ensures var msg := if view.errorDisplay.Some? then Some(ReplaceNewlines(view.errorDisplay.value)) else None;
      var key := "fst::Error::" + variant;
      Raised(view) == (if key in ExceptionMap then Exception(ExceptionMap[key], msg)
                       else Exception(FstError, Some(variant + ": " + Show(msg))))
    ensures IsSubclass(Raised(view).kind, FstError)
  {
    MatchVariantOf(variant, detail);
    var key := "fst::Error::" + variant;
    assert "fst::Error" + "::" + variant == key;
    assert key[0] == 'f' && |key| > |"fst::Error"|;
    assert key != "std::io::Error" && key != "py::KeyError" && key != "fst::Error";
  }
}
