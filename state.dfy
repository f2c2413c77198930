/**
 * The settlement states of a promise: the Status tag and the three State
 * classes (PendingState, ResolvedState<T>, RejectedState) as one datatype.
 *
 * A ResolvedState or RejectedState built by its default constructor keeps
 * the base State's Pending tag: `settled` is false for those two, and the
 * tag is then Pending.  `get_value` of a ResolvedState is the
 * address of its stored value, never null; here it is `Some(value)`.
 */
module States {
  import opened Wrappers
  import opened PromiseErrors

  datatype Status = Pending | Resolved | Rejected

  datatype State<T> =
    | PendingState
    | ResolvedState(settled: bool, value: T)
    | RejectedState(settled: bool, reason: PromiseError)

  /** The `_status` field every State carries. */
  function StatusOf<T>(s: State<T>): Status
  {
    match s
    case PendingState => Pending
    case ResolvedState(settled, _) => if settled then Resolved else Pending
    case RejectedState(settled, _) => if settled then Rejected else Pending
  }

  /** PendingState(): the base State() constructor sets Pending. */
  function NewPending<T>(): (s: State<T>)
    ensures StatusOf(s) == Pending
    ensures GetValue(s) == None && GetReason(s) == NoErr
  {
    PendingState
  }

  /**
   * ResolvedState(): `_value` is default-initialised, which the model takes
   * as the parameter `init`; the tag stays Pending.
   */
  function DefaultResolved<T>(init: T): (s: State<T>)
    ensures StatusOf(s) == Pending
    ensures GetValue(s) == Some(init) && GetReason(s) == NoErr
  {
    ResolvedState(false, init)
  }

  /** ResolvedState(T v). */
  function NewResolved<T>(v: T): (s: State<T>)
    ensures StatusOf(s) == Resolved
    ensures GetValue(s) == Some(v) && GetReason(s) == NoErr
  {
    ResolvedState(true, v)
  }

  /** RejectedState(): the reason is a copy of `noerr`; the tag stays Pending. */
  function DefaultRejected<T>(): (s: State<T>)
    ensures StatusOf(s) == Pending
    ensures GetValue(s) == None && GetReason(s) == NoErr
  {
    RejectedState(false, FromException(NoErr))
  }

  /** RejectedState(const std::exception &e). */
  function RejectedWith<T>(e: Exception): (s: State<T>)
    ensures StatusOf(s) == Rejected
    ensures GetValue(s) == None
    ensures GetReason(s) == e
  {
    RejectedState(true, FromException(e))
  }

  /** RejectedState(const std::string &msg). */
  function RejectedWithMessage<T>(msg: string): (s: State<T>)
    ensures StatusOf(s) == Rejected
    ensures GetValue(s) == None
    ensures '\0' !in msg ==> GetReason(s).what == msg
  {
    RejectedState(true, FromString(msg))
  }

  /** RejectedState(const char *msg): the message ends at the buffer's NUL. */
  function RejectedWithCString<T>(buf: string): (s: State<T>)
    requires '\0' in buf
    ensures StatusOf(s) == Rejected
    ensures GetValue(s) == None
    ensures GetReason(s).what == CPrefix(buf)
  {
    RejectedState(true, FromCString(buf))
  }

  /**
   * The copy constructors: State(const State&) copies the tag, and the
   * derived ones copy `_value` or `_reason` beside it.
   */
  function CopyOf<T>(s: State<T>): (c: State<T>)
    ensures StatusOf(c) == StatusOf(s)
    ensures GetValue(c) == GetValue(s) && GetReason(c) == GetReason(s)
  {
    match s
    case PendingState => PendingState
    case ResolvedState(settled, v) => ResolvedState(settled, v)
    case RejectedState(settled, r) => RejectedState(settled, PromiseErrors.CopyOf(r))
  }

  /** get_value(): the stored value's address for a ResolvedState, else nullptr. */
  function GetValue<T>(s: State<T>): (r: Option<T>)
    ensures r.Some? <==> s.ResolvedState?
  {
    match s
    case ResolvedState(_, v) => Some(v)
    case _ => None
  }

  /** get_reason(): the stored Promise_Error for a RejectedState, else `noerr`. */
  function GetReason<T>(s: State<T>): (r: Exception)
    ensures !s.RejectedState? ==> r == NoErr
    ensures s.RejectedState? ==> r == AsException(s.reason)
  {
    match s
    case RejectedState(_, e) => AsException(e)
    case _ => NoErr
  }

  /** operator==(Status): compares the tag. */
  predicate IsStatus<T>(s: State<T>, st: Status)
  {
    StatusOf(s) == st
  }

  /** operator==(const State&): compares the tags, never the payloads. */
  predicate Eq<T>(a: State<T>, b: State<T>)
  {
    IsStatus(a, StatusOf(b))
  }

  /** operator!=(const State&): `_status != state._status`. */
  predicate Neq<T>(a: State<T>, b: State<T>)
    ensures Neq(a, b) <==> !Eq(a, b)
  {
    StatusOf(a) != StatusOf(b)
  }

  /**
   * Equality of states is equality of tags: it is an equivalence, and two
   * states with different payloads of the same status compare equal.
   */
  lemma EqIsTagEquality<T>(a: State<T>, b: State<T>, c: State<T>)
    ensures Eq(a, b) <==> StatusOf(a) == StatusOf(b)
    ensures Eq(a, a)
    ensures Eq(a, b) ==> Eq(b, a)
    ensures Eq(a, b) && Eq(b, c) ==> Eq(a, c)
  {
  }

  /**
   * Every accessor is safe: a reason is always there (and is `noerr` unless
   * the state was built as a RejectedState), a value only for a ResolvedState.
   */
  lemma AccessorsAreSafe<T>(s: State<T>)
    ensures GetReason(s) == NoErr || s.RejectedState?
    ensures StatusOf(s) == Resolved ==> GetValue(s).Some? && GetReason(s) == NoErr
    ensures StatusOf(s) == Rejected ==> GetValue(s).None?
  {
  }
}
