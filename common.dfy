/** Values shared by every part of the model: optional values, results, the
    errors the program passes around, and the cancellation context. */
module Common {

  datatype Option<T> = None | Some(value: T)

  /** A Go `(value, error)` pair where the value is meaningless once the error is set. */
  datatype Result<T, E> = Ok(value: T) | Err(error: E)

  /** An operating-system error as the program inspects it with `errors.Is`:
      which sentinel kinds it wraps (os.ErrPermission, os.ErrNotExist,
      syscall.EBUSY, syscall.ETXTBSY) and the text `Error()` prints. */
  datatype OsError = OsError(permission: bool, notExist: bool, busy: bool, textBusy: bool, text: string)

  /** The errors that travel up the call chain. `Wrapped` is `fmt.Errorf("prefix: %w", inner)`. */
  datatype Error =
    | Os(os: OsError)
    | Canceled
    | Message(text: string)
    | Wrapped(prefix: string, inner: Error)

  /** What `err.Error()` (or `%v`) prints. */
  function ErrorText(e: Error): string
  {
    match e
    case Os(o) => o.text
    case Canceled => "context canceled"
    case Message(t) => t
    case Wrapped(p, inner) => p + ": " + ErrorText(inner)
  }

  /** A `context.Context` as one loop sees it: the `ctx.Done()` check made
      before iteration `i` of that loop finds the channel closed iff
      `doneFrom` is set and `doneFrom <= i` (once done, always done). */
  datatype Context = Context(doneFrom: Option<nat>) {

    predicate DoneAt(i: nat)
    {
      doneFrom.Some? && doneFrom.value <= i
    }

    /** How many of `n` iterations run before a check finds the context done. */
    function Reached(n: nat): (k: nat)
      ensures k <= n
      ensures forall i :: 0 <= i < k ==> !DoneAt(i)
      ensures k < n ==> DoneAt(k)
    {
      if doneFrom.Some? && doneFrom.value < n then doneFrom.value else n
    }
  }

  /** Renderings done by libraries outside the model: `humanize.IBytes` of a
      byte count and `time.Duration.String` of a number of nanoseconds. */
  datatype Formatters = Formatters(ibytes: nat -> string, duration: int -> string)

  /** `size.FormatSize` (pkg/size/size.go): a negative size prints as "0 B". */
  function FormatSize(fmt: Formatters, bytes: int): string
  {
    if bytes < 0 then "0 B" else fmt.ibytes(bytes)
  }

  /** One hour of `time.Duration`, in nanoseconds. */
  const Hour: int := 3_600_000_000_000

  /** `d.Truncate(m)`: `d` rounded toward zero to a multiple of `m`; Go's `%`
      keeps the sign of the dividend. */
  function Truncate(d: int, m: int): (r: int)
    ensures m > 0 && d >= 0 ==> 0 <= r <= d < r + m
    ensures m > 0 && d < 0 ==> r - m < d <= r <= 0
    ensures m <= 0 ==> r == d
  {
    if m <= 0 then d
    else if d >= 0 then d - d % m
    else d + (-d) % m
  }
}
