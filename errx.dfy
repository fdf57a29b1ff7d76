/** The error-code algebra every operation of the ordering core returns
    (internal/domain/errx/errx.go), plus the Option and Result wrappers the
    rest of the model uses in place of Go's (value, error) pairs. */
module Errx {

  datatype Option<T> = None | Some(value: T)

  /** A Go `(T, error)` pair: exactly one of the two is meaningful. */
  datatype Result<T> = Ok(value: T) | Err(error: Error)

  datatype Code =
    | CodeInvalid
    | CodeNotFound
    | CodeConflict
    | CodeUnauthorized
    | CodeForbidden
    | CodeInternal

  /** The string a Code stands for. */
  function CodeText(c: Code): string
  {
    match c
    case CodeInvalid => "invalid_argument"
    case CodeNotFound => "not_found"
    case CodeConflict => "conflict"
    case CodeUnauthorized => "unauthorized"
    case CodeForbidden => "forbidden"
    case CodeInternal => "internal"
  }

  /** Inverse of CodeText. */
  function ParseCode(s: string): Option<Code>
  {
    if s == "invalid_argument" then Some(CodeInvalid)
    else if s == "not_found" then Some(CodeNotFound)
    else if s == "conflict" then Some(CodeConflict)
    else if s == "unauthorized" then Some(CodeUnauthorized)
    else if s == "forbidden" then Some(CodeForbidden)
    else if s == "internal" then Some(CodeInternal)
    else None
  }

  /** A Go error value. `Errx` is the package's own *Error (code, message and
      an optional wrapped cause); `Plain` is any other error: a sentinel built
      with errors.New (wrapped == None) or one made with fmt.Errorf("%w")
      that wraps another error. */
  datatype Error =
    | Errx(code: Code, message: string, cause: Option<Error>)
    | Plain(text: string, wrapped: Option<Error>)

  /** (*Error).Error() and, for other errors, their own text. */
  function Render(e: Error): string
  {
    match e
    case Errx(c, m, _) => if m != "" then CodeText(c) + ": " + m else CodeText(c)
    case Plain(t, _) => t
  }

  /** errors.As(err, &e) for e of type *Error: the first Errx on the unwrap chain. */
  function As(e: Error): (r: Option<Error>)
    ensures r.Some? ==> r.value.Errx?
    ensures e.Errx? ==> r == Some(e)
  {
    match e
    case Errx(_, _, _) => Some(e)
    case Plain(_, w) => if w.Some? then As(w.value) else None
  }

  function New(code: Code, msg: string): (e: Error)
    ensures CodeOf(e) == code && Is(e, code)
    ensures Unwrap(e) == None
    ensures msg != "" ==> MsgOf(e) == msg
    ensures ParseRendered(Render(e)) == (Some(code), msg)
  {
    RenderRoundTrip(code, msg);
    Errx(code, msg, None)
  }

  function Wrap(code: Code, msg: string, err: Error): (e: Error)
    ensures CodeOf(e) == code && Is(e, code)
    ensures Unwrap(e) == Some(err)
    ensures Render(e) == Render(New(code, msg))
  {
    Errx(code, msg, Some(err))
  }

  /** (*Error).Unwrap() and the Unwrap of a %w error. */
  function Unwrap(e: Error): Option<Error>
  {
    match e
    case Errx(_, _, c) => c
    case Plain(_, w) => w
  }

  predicate Is(err: Error, code: Code)
  {
    As(err).Some? && As(err).value.code == code
  }

  function CodeOf(err: Error): Code
  {
    if As(err).Some? then As(err).value.code else CodeInternal
  }

  function MsgOf(err: Error): string
  {
    if As(err).Some? && As(err).value.message != "" then As(err).value.message else "internal error"
  }

  /** Is and CodeOf agree: Is(err, c) holds exactly when CodeOf reports c from
      an errx error on the chain; a chain without one reports `internal` and
      satisfies no Is. */
  lemma IsAgreesWithCodeOf(err: Error, c: Code)
    ensures Is(err, c) <==> (As(err).Some? && CodeOf(err) == c)
    ensures As(err).None? ==> CodeOf(err) == CodeInternal && !Is(err, c) && MsgOf(err) == "internal error"
  {
  }

  /** errors.As looks through a %w wrapper: the code and message of a wrapped
      errx error are reported for the wrapper. */
  lemma {:induction false} AsSeesThroughWrappers(text: string, inner: Error, c: Code)
    ensures CodeOf(Plain(text, Some(inner))) == CodeOf(inner)
    ensures MsgOf(Plain(text, Some(inner))) == MsgOf(inner)
    ensures Is(Plain(text, Some(inner)), c) <==> Is(inner, c)
  {
  }

  // ---------- reading a rendered error back ----------

  /** Splits s at its first ':' (the separator is dropped). */
  function SplitAtColon(s: string): (string, string)
  {
    if s == [] then ([], [])
    else if s[0] == ':' then ([], s[1..])
    else var (p, r) := SplitAtColon(s[1..]); ([s[0]] + p, r)
  }

  /** Recovers (code, message) from the text Render produces. */
  function ParseRendered(s: string): (Option<Code>, string)
  {
    var (p, rest) := SplitAtColon(s);
    (ParseCode(p), if |rest| > 0 && rest[0] == ' ' then rest[1..] else rest)
  }

  lemma {:induction false} SplitAtColonPrefix(p: string, rest: string)
    requires ':' !in p
    ensures SplitAtColon(p) == (p, [])
    ensures SplitAtColon(p + ":" + rest) == (p, rest)
  {
    if p != [] {
      assert p[0] in p;
      SplitAtColonPrefix(p[1..], rest);
      assert [p[0]] + p[1..] == p;
      assert (p + ":" + rest)[1..] == p[1..] + ":" + rest;
    }
  }

  /** Render is injective on (code, message): both can be read back. */
  lemma RenderRoundTrip(c: Code, m: string)
    ensures ParseRendered(Render(Errx(c, m, None))) == (Some(c), m)
  {
    var t := CodeText(c);
    CodeTextParses(c);
    if m != "" {
      SplitAtColonPrefix(t, " " + m);
      assert t + ": " + m == t + ":" + (" " + m);
    } else {
      SplitAtColonPrefix(t, "");
    }
  }

  /** Every code's text parses back to it and holds no ':'. */
  lemma CodeTextParses(c: Code)
    ensures ParseCode(CodeText(c)) == Some(c) && ':' !in CodeText(c)
  {
    match c
    case CodeInvalid =>
    case CodeNotFound =>
    case CodeConflict =>
    case CodeUnauthorized =>
    case CodeForbidden =>
    case CodeInternal =>
  }
}
