/** The error values of the server (pkg/mcpserver/errors.go): the sentinel
    errors, the three typed errors with their `Error()` texts, Go's wrapping
    (`Unwrap`, `fmt.Errorf` with `%w`), the `errors.As`/`errors.Is` chain
    search, and `FormatErrorForUser`. */
module Errors {
  import opened Wrappers
  import opened Strings

  /** The package-level sentinel errors. Each is a distinct pointer in Go, so
      two sentinels are equal only when they are the same one. */
  datatype Sentinel =
    | InvalidArguments
    | ReferenceNotFound
    | LocalPathNotSupported
    | RemoteUnreachable
    | OCIImageNotFound
    | ClusterConnection
    | ComparisonFailed
    | ContextCanceled
    | SecurityViolation
    | ExecAuthBlocked
    | AuthProviderBlocked

  function SentinelText(s: Sentinel): string {
    match s
    case InvalidArguments => "invalid arguments"
    case ReferenceNotFound => "reference configuration not found"
    case LocalPathNotSupported => "local filesystem paths are not supported"
    case RemoteUnreachable => "remote reference unreachable"
    case OCIImageNotFound => "container image not found"
    case ClusterConnection => "cluster connection failed"
    case ComparisonFailed => "comparison failed"
    case ContextCanceled => "operation canceled"
    case SecurityViolation => "security policy violation"
    case ExecAuthBlocked => "exec-based authentication is not allowed"
    case AuthProviderBlocked => "auth provider plugins are not allowed"
  }

  /** The three error types `errors.As` looks for. */
  datatype TypedKind = CompareKind | ValidationKind | SecurityKind

  /** A Go `error` value.
      - `SentinelError`: one of the package sentinels;
      - `Plain`: an `errors.New` or `fmt.Errorf` without `%w`;
      - `Wrapped`: an `fmt.Errorf` whose `%w` verbs wrap `causes`
        (one cause: `Unwrap() error`; several: `Unwrap() []error`);
      - the three typed errors; only `CompareError` unwraps. */
  datatype Error =
    | SentinelError(sentinel: Sentinel)
    | Plain(text: string)
    | Wrapped(text: string, causes: seq<Error>)
    | CompareError(op: string, err: Error, details: string)
    | ValidationError(field: string, value: string, message: string, hint: string)
    | SecurityError(code: string, message: string, hint: string)
  {
    /** The `Error()` method. A typed error always has some text. */
    function Text(): (r: string)
      ensures CompareError? || ValidationError? || SecurityError? ==> |r| >= 2
    {
      match this
      case SentinelError(s) => SentinelText(s)
      case Plain(t) => t
      case Wrapped(t, _) => t
      case CompareError(op, err, details) =>
        op + ": " + err.Text() + (if details != "" then "\n\nDetails: " + details else "")
      case ValidationError(field, _, message, hint) =>
        "validation error for '" + field + "': " + message + HintSuffix(hint)
      case SecurityError(code, message, hint) =>
        "security error [" + code + "]: " + message + HintSuffix(hint)
    }

    /** The errors `Unwrap` exposes, in order. */
    function Unwrap(): seq<Error> {
      match this
      case CompareError(_, err, _) => [err]
      case Wrapped(_, causes) => causes
      case _ => []
    }

    predicate IsKind(k: TypedKind) {
      match k
      case CompareKind => CompareError?
      case ValidationKind => ValidationError?
      case SecurityKind => SecurityError?
    }
  }

  function HintSuffix(hint: string): string {
    if hint != "" then " (hint: " + hint + ")" else ""
  }

  /** `fmt.Errorf(prefix + ": %w", cause)`. */
  function Wrap(prefix: string, cause: Error): (e: Error)
    ensures e.Unwrap() == [cause]
    ensures e.Text() == prefix + ": " + cause.Text()
  {
    Wrapped(prefix + ": " + cause.Text(), [cause])
  }

  /** The errors `errors.Is` and `errors.As` visit, in the order they visit
      them: the error itself, then a depth-first walk of what it unwraps to. */
  function Chain(e: Error): (r: seq<Error>)
    ensures |r| >= 1 && r[0] == e
    decreases e, 1, 0
  {
    match e
    case CompareError(_, err, _) => [e] + Chain(err)
    case Wrapped(_, causes) => [e] + ChainAll(e, causes)
    case _ => [e]
  }

  function ChainAll(parent: Error, es: seq<Error>): seq<Error>
    requires forall x :: x in es ==> x < parent
    decreases parent, 0, |es|
  {
    if es == [] then []
    else
      assert es[0] in es;
      assert forall x :: x in es[1..] ==> x in es;
      Chain(es[0]) + ChainAll(parent, es[1..])
  }

  /** `errors.As`: the first error of the chain of kind `k`. */
  function FindKind(chain: seq<Error>, k: TypedKind): (r: Option<Error>)
    ensures r.Some? ==> r.value in chain && r.value.IsKind(k)
    ensures r.None? <==> forall x :: x in chain ==> !x.IsKind(k)
  {
    if chain == [] then None
    else if chain[0].IsKind(k) then Some(chain[0])
    else FindKind(chain[1..], k)
  }

  function As(e: Error, k: TypedKind): (r: Option<Error>)
    ensures r.Some? ==> r.value in Chain(e) && r.value.IsKind(k)
    ensures r.None? <==> forall x :: x in Chain(e) ==> !x.IsKind(k)
    ensures e.IsKind(k) ==> r == Some(e)
  {
    FindKind(Chain(e), k)
  }

  /** `errors.Is(e, target)` for a sentinel target. A sentinel is itself,
      and no other sentinel is. */
  function Is(e: Error, s: Sentinel): (r: bool)
    ensures e.SentinelError? ==> (r <==> e.sentinel == s)
  {
    SentinelError(s) in Chain(e)
  }

  /** `errors.Is` finds a sentinel exactly when it is the error itself or
      `errors.Is` finds it in what the error unwraps to: through
      `CompareError.Unwrap` and through any cause of a `%w` wrapping. */
  lemma IsUnwraps(e: Error, s: Sentinel)
    ensures Is(e, s) <==> (e == SentinelError(s) ||
                           (e.CompareError? && Is(e.err, s)) ||
                           (e.Wrapped? && exists c :: c in e.causes && Is(c, s)))
  {
    if e.Wrapped? {
      ChainAllMember(e, e.causes, SentinelError(s));
    }
  }

  /** The walk over several causes visits exactly what the walks over each
      cause visit. */
  lemma {:induction false} ChainAllMember(parent: Error, es: seq<Error>, y: Error)
    requires forall x :: x in es ==> x < parent
    ensures y in ChainAll(parent, es) <==> exists c :: c in es && y in Chain(c)
    decreases |es|
  {
    if es != [] {
      assert forall x :: x in es[1..] ==> x in es;
      ChainAllMember(parent, es[1..], y);
      if c :| c in es && y in Chain(c) {
        if c != es[0] {
          assert c in es[1..];
        }
      }
    }
  }

  /** The sentinels `FormatErrorForUser` knows, in the order it tests them. */
  const MappedSentinels: seq<Sentinel> :=
    [ReferenceNotFound, LocalPathNotSupported, RemoteUnreachable, OCIImageNotFound,
     ClusterConnection, ContextCanceled, SecurityViolation, ExecAuthBlocked,
     AuthProviderBlocked]

  /** The user-facing sentences of the known sentinels. */
  const ReferenceNotFoundSentence: string :=
    "Reference configuration not found. Please verify the URL is correct and accessible."
  const LocalPathSentence: string :=
    "Local filesystem paths are not supported. " +
    "Please provide a remote reference using HTTP/HTTPS URL or container:// image reference."
  const RemoteUnreachableSentence: string :=
    "Remote reference is unreachable. " +
    "Please verify the URL is correct and accessible from the cluster."
  const ImageNotFoundSentence: string :=
    "Container image not found. " +
    "Please verify the image reference is correct and the image exists in the registry."
  const ClusterConnectionSentence: string :=
    "Failed to connect to Kubernetes cluster. " +
    "Please verify the server has access via in-cluster config or KUBECONFIG environment variable."
  const CanceledSentence: string := "Operation was canceled before completion."
  const SecurityViolationSentence: string :=
    "A security policy was violated. " +
    "Please review the kubeconfig and ensure it does not use exec-based or plugin-based authentication."
  const ExecAuthSentence: string :=
    "Exec-based authentication is not allowed for security reasons. " +
    "Please use token, client certificate, or OIDC authentication instead."
  const AuthProviderSentence: string :=
    "Auth provider plugins are not allowed for security reasons. " +
    "Please use token, client certificate, or OIDC authentication instead."

  function Sentence(s: Sentinel): string {
    match s
    case ReferenceNotFound => ReferenceNotFoundSentence
    case LocalPathNotSupported => LocalPathSentence
    case RemoteUnreachable => RemoteUnreachableSentence
    case OCIImageNotFound => ImageNotFoundSentence
    case ClusterConnection => ClusterConnectionSentence
    case ContextCanceled => CanceledSentence
    case SecurityViolation => SecurityViolationSentence
    case ExecAuthBlocked => ExecAuthSentence
    case AuthProviderBlocked => AuthProviderSentence
    case _ => SentinelText(s)
  }

  /** `FormatErrorForUser`: `None` stands for a nil error. Typed errors
      come first; without them, the text is the sentence of the first
      mapped sentinel the chain holds, else the error's own text. */
  function FormatErrorForUser(err: Option<Error>): (r: string)
    ensures err.None? ==> r == ""
    ensures err.Some? && As(err.value, CompareKind).None? && As(err.value, ValidationKind).None? &&
            As(err.value, SecurityKind).None? ==>
      r == match FirstKnown(err.value, MappedSentinels, 0)
           case Some(s) => Sentence(s)
           case None => err.value.Text()
  {
    match err
    case None => ""
    case Some(e) =>
      if As(e, CompareKind).Some? then As(e, CompareKind).value.Text()
      else if As(e, ValidationKind).Some? then As(e, ValidationKind).value.Text()
      else if As(e, SecurityKind).Some? then As(e, SecurityKind).value.Text()
      else KnownSentence(e)
  }

  /** The `errors.Is` cascade of `FormatErrorForUser`: the sentence of the
      first known sentinel the chain holds, else the error's own text. */
  function KnownSentence(e: Error): string {
    match KnownSentinel(e)
    case Some(s) => Sentence(s)
    case None => e.Text()
  }

  /** The sentinel the cascade stops at, testing in source order: the
      if-chain picks what the first-match search over the mapped list
      picks. */
  function KnownSentinel(e: Error): (r: Option<Sentinel>)
    ensures r == FirstKnown(e, MappedSentinels, 0)
  {
    var m := MappedSentinels;
    assert m[0] == ReferenceNotFound && m[1] == LocalPathNotSupported && m[2] == RemoteUnreachable;
    assert m[3] == OCIImageNotFound && m[4] == ClusterConnection && m[5] == ContextCanceled;
    assert m[6] == SecurityViolation && m[7] == ExecAuthBlocked && m[8] == AuthProviderBlocked;
    assert FirstKnown(e, m, 9) == None;
    assert FirstKnown(e, m, 8) == if Is(e, AuthProviderBlocked) then Some(AuthProviderBlocked) else FirstKnown(e, m, 9);
    assert FirstKnown(e, m, 7) == if Is(e, ExecAuthBlocked) then Some(ExecAuthBlocked) else FirstKnown(e, m, 8);
    assert FirstKnown(e, m, 6) == if Is(e, SecurityViolation) then Some(SecurityViolation) else FirstKnown(e, m, 7);
    assert FirstKnown(e, m, 5) == if Is(e, ContextCanceled) then Some(ContextCanceled) else FirstKnown(e, m, 6);
    assert FirstKnown(e, m, 4) == if Is(e, ClusterConnection) then Some(ClusterConnection) else FirstKnown(e, m, 5);
    assert FirstKnown(e, m, 3) == if Is(e, OCIImageNotFound) then Some(OCIImageNotFound) else FirstKnown(e, m, 4);
    assert FirstKnown(e, m, 2) == if Is(e, RemoteUnreachable) then Some(RemoteUnreachable) else FirstKnown(e, m, 3);
    assert FirstKnown(e, m, 1) == if Is(e, LocalPathNotSupported) then Some(LocalPathNotSupported) else FirstKnown(e, m, 2);
    assert FirstKnown(e, m, 0) == if Is(e, ReferenceNotFound) then Some(ReferenceNotFound) else FirstKnown(e, m, 1);
    if Is(e, ReferenceNotFound) then Some(ReferenceNotFound)
    else if Is(e, LocalPathNotSupported) then Some(LocalPathNotSupported)
    else if Is(e, RemoteUnreachable) then Some(RemoteUnreachable)
    else if Is(e, OCIImageNotFound) then Some(OCIImageNotFound)
    else if Is(e, ClusterConnection) then Some(ClusterConnection)
    else if Is(e, ContextCanceled) then Some(ContextCanceled)
    else if Is(e, SecurityViolation) then Some(SecurityViolation)
    else if Is(e, ExecAuthBlocked) then Some(ExecAuthBlocked)
    else if Is(e, AuthProviderBlocked) then Some(AuthProviderBlocked)
    else None
  }

  /** The first of `order[k..]` that the chain of `e` holds. */
  function FirstKnown(e: Error, order: seq<Sentinel>, k: nat): (r: Option<Sentinel>)
    requires k <= |order|
    ensures r.Some? ==> r.value in order[k..] && Is(e, r.value)
    ensures r.None? ==> forall j :: k <= j < |order| ==> !Is(e, order[j])
    decreases |order| - k
  {
    if k == |order| then None
    else if Is(e, order[k]) then Some(order[k])
    else FirstKnown(e, order, k + 1)
  }

  /** Typed errors take precedence over sentinels: a `CompareError` renders
      its own text even when it wraps a known sentinel such as
      `ErrContextCanceled`. */
  lemma TypedBeforeSentinel(op: string, inner: Error, details: string)
    ensures var e := CompareError(op, inner, details);
      FormatErrorForUser(Some(e)) == e.Text()
  {
  }

  /** `ErrInvalidArguments` and `ErrComparisonFailed` have no sentence: they
      render as their own text. */
  lemma UnmappedFallThrough(s: Sentinel)
    requires s == InvalidArguments || s == ComparisonFailed
    ensures FormatErrorForUser(Some(SentinelError(s))) == SentinelText(s)
  {
    assert Chain(SentinelError(s)) == [SentinelError(s)];
  }

  /** `CompareError.Error()` shows the operation and the wrapped error, and
      the details part exactly when the details are non-empty. */
  lemma CompareErrorText(op: string, inner: Error, details: string)
    ensures var t := CompareError(op, inner, details).Text();
      HasPrefix(t, op + ": " + inner.Text()) &&
      (details == "" <==> |t| == |op| + 2 + |inner.Text()|) &&
      (details != "" ==> t == op + ": " + inner.Text() + "\n\nDetails: " + details)
  {
  }

  /** The two other typed errors show the field or the code, then the
      message, and a hint part exactly when the hint is non-empty. */
  lemma TypedErrorText(field: string, value: string, code: string, message: string, hint: string)
    ensures var t := ValidationError(field, value, message, hint).Text();
      var head := "validation error for '" + field + "': " + message;
      HasPrefix(t, head) && (hint == "" <==> |t| == |head|)
    ensures var t := SecurityError(code, message, hint).Text();
      var head := "security error [" + code + "]: " + message;
      HasPrefix(t, head) && (hint == "" <==> |t| == |head|)
    ensures ValidationError(field, value, message, hint).Text() != SecurityError(code, message, hint).Text()
  {
    var v := ValidationError(field, value, message, hint).Text();
    var s := SecurityError(code, message, hint).Text();
    assert v[0] == 'v' && s[0] == 's';
  }

}
