/**
 * The continuation adapters: a user handler wrapped as a ResolvedLambda
 * (fed the settled value) or a RejectedLambda (fed the reason), and Chain,
 * which turns what the handler returned into an optional promise.
 *
 * A handler is a pure function here.  The promise a handler hands back is
 * seen the only way the runtime looks at it, through its get_state() at the
 * moment the handler returns.
 */
module Lambdas {
  import opened Wrappers
  import opened PromiseErrors
  import opened States

  /** A promise handed back by a handler: its state pointer, possibly null. */
  datatype Handed<T> = Handed(state: Option<State<T>>)

  /**
   * What a handler returns: nothing (a void lambda), or a promise pointer,
   * which may itself be null.
   */
  datatype Returned<T> = Void | Promise(promise: Option<Handed<T>>)

  /** An ILambda used by `then`, `_catch` and `finally`. */
  datatype Lambda<!T> =
    | ResolvedLambda(onValue: T -> Returned<T>)
    | RejectedLambda(onReason: Exception -> Returned<T>)

  /** What `call(State*)` comes to. */
  datatype Outcome<T> =
    | Chained(next: Option<Handed<T>>)   // the promise returned, or nullptr
    | Threw(error: Exception)            // a std::logic_error was thrown
    | NullDeref                          // the state's value pointer was null

  /**
   * Chain<Continue> and Chain<void>: a void handler yields nullptr, any other
   * handler's promise is passed on as it is.
   */
  function Chain<T>(r: Returned<T>): (p: Option<Handed<T>>)
    ensures r.Void? ==> p.None?
    ensures r.Promise? ==> p == r.promise
  {
    match r
    case Void => None
    case Promise(prom) => prom
  }

  /** The message each adapter throws when called with a null state. */
  function NullStateMessage<T>(lam: Lambda<T>): string
  {
    if lam.ResolvedLambda? then "ResolvedLambda.call(): state is null"
    else "RejectedLambda.call(): state is null"
  }

  /**
   * `call(State*)` of either adapter: a null state throws; a ResolvedLambda
   * dereferences get_value() and hands the value to the handler; a
   * RejectedLambda hands get_reason() to the handler.
   */
  function Call<T>(lam: Lambda<T>, stat: Option<State<T>>): (r: Outcome<T>)
    ensures stat.None? <==> r.Threw?
    ensures stat.None? ==> r.error.what == NullStateMessage(lam)
    ensures r.NullDeref? <==> lam.ResolvedLambda? && stat.Some? && GetValue(stat.value).None?
    ensures lam.ResolvedLambda? && stat.Some? && stat.value.ResolvedState? ==>
              r == Chained(Chain(lam.onValue(stat.value.value)))
    ensures lam.RejectedLambda? && stat.Some? ==>
              r == Chained(Chain(lam.onReason(GetReason(stat.value))))
  {
    if stat.None? then
      Threw(Exception(NullStateMessage(lam)))
    else
      match lam
      case RejectedLambda(h) =>
        Chained(Chain(h(GetReason(stat.value))))
      case ResolvedLambda(h) =>
        match GetValue(stat.value)
        case None => NullDeref
        case Some(v) => Chained(Chain(h(v)))
  }

  /**
   * A RejectedLambda never touches a state's value, so it runs its handler
   * on every non-null state; on anything but a RejectedState the handler
   * sees the `noerr` reason.
   */
  lemma RejectedLambdaOnOtherStates<T>(h: Exception -> Returned<T>, s: State<T>)
    ensures !s.RejectedState? ==> Call(RejectedLambda(h), Some(s)) == Chained(Chain(h(NoErr)))
    ensures StatusOf(s) == Resolved ==> Call(RejectedLambda(h), Some(s)) == Chained(Chain(h(NoErr)))
  {
  }

  /** A ResolvedLambda called with a rejected state dereferences nullptr. */
  lemma ResolvedLambdaOnRejected<T>(h: T -> Returned<T>, s: State<T>)
    requires StatusOf(s) == Rejected
    ensures Call(ResolvedLambda(h), Some(s)) == NullDeref
  {
  }
}
