/**
 * Go error values as the core produces and inspects them: sentinel variables compared
 * by identity, plain messages, `fmt.Errorf("...: %w", err)` wrapping, `errors.Join`,
 * and the three foreign error kinds the core classifies (net.Error, *pgconn.PgError
 * and gRPC status errors). `errors.Is`, `errors.As` and `status.FromError` walk the
 * wrapping the same way the Go standard library does.
 */
module Errors {
  import opened Wrappers

  /** The gRPC status codes (google.golang.org/grpc/codes). */
  datatype Code =
    | OK | Canceled | Unknown | InvalidArgument | DeadlineExceeded | NotFound
    | AlreadyExists | PermissionDenied | ResourceExhausted | FailedPrecondition
    | Aborted | OutOfRange | Unimplemented | Internal | Unavailable | DataLoss
    | Unauthenticated

  datatype Error =
    | Sentinel(name: string)              // a package-level error variable
    | Message(text: string)               // errors.New, or fmt.Errorf without %w
    | Wrapped(prefix: string, inner: Error) // fmt.Errorf("<prefix>: %w", inner)
    | Joined(errs: seq<Error>)            // errors.Join(errs...)
    | Net(text: string)                   // a value implementing net.Error
    | Pg(sqlState: string)                // a *pgconn.PgError
    | Status(code: Code, text: string)    // status.Error(code, text)

  /** server.ErrNotFound, wrapped by the stores' Get* on a missing key. */
  const ErrNotFound: Error := Sentinel("ErrNotFound")
  /** server.validationError, wrapped by the storage helper on bad input. */
  const ValidationError: Error := Sentinel("validationError")
  /** server.notFoundError, wrapped by the storage helper on a missing metric. */
  const NotFoundError: Error := Sentinel("notFoundError")

  /** errors.Is(err, target). */
  predicate Is(err: Error, target: Error)
    decreases err
  {
    if err == target then true
    else match err
      case Wrapped(_, inner) => Is(inner, target)
      case Joined(errs) => exists i :: 0 <= i < |errs| && Is(errs[i], target)
      case _ => false
  }

  /** errors.As(err, &netErr) with netErr of interface type net.Error. */
  predicate AsNet(err: Error)
    decreases err
  {
    match err
    case Net(_) => true
    case Wrapped(_, inner) => AsNet(inner)
    case Joined(errs) => exists i :: 0 <= i < |errs| && AsNet(errs[i])
    case _ => false
  }

  /** errors.As(err, &pgErr) with pgErr of type *pgconn.PgError. */
  predicate AsPg(err: Error)
    decreases err
  {
    match err
    case Pg(_) => true
    case Wrapped(_, inner) => AsPg(inner)
    case Joined(errs) => exists i :: 0 <= i < |errs| && AsPg(errs[i])
    case _ => false
  }

  /**
   * status.FromError: the code of the first status error found by unwrapping,
   * or None when err carries no status (FromError's second result is false).
   */
  function StatusCode(err: Error): Option<Code>
    decreases err
  {
    match err
    case Status(code, _) => Some(code)
    case Wrapped(_, inner) => StatusCode(inner)
    case _ => None
  }

  /** Applies fmt.Errorf("<p>: %w", ...) once per prefix, innermost last. */
  function WrapAll(prefixes: seq<string>, err: Error): Error
  {
    if prefixes == [] then err else Wrapped(prefixes[0], WrapAll(prefixes[1..], err))
  }

  /** Wrapping never hides a sentinel from errors.Is. */
  lemma {:induction false} WrapAllKeepsIs(prefixes: seq<string>, err: Error, target: Error)
    requires Is(err, target)
    ensures Is(WrapAll(prefixes, err), target)
  {
    if prefixes != [] {
      WrapAllKeepsIs(prefixes[1..], err, target);
    }
  }
}
