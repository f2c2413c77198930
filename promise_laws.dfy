/**
 * What the chaining calls, the factories and await promise, proved about
 * the functions of PromiseSpec: where a continuation is registered or
 * bound, what state it ends in, and what await then reports.
 */
module PromiseLaws {
  import opened Wrappers
  import opened PromiseErrors
  import opened States
  import opened Lambdas
  import opened PromiseSpec

  /** The state a freshly bound continuation ends in, and that older promises keep theirs. */
  lemma BoundOutcome<T>(w: World<T>, lam: Lambda<T>, s: State<T>)
    requires Good(w) && StatusOf(s) != Pending
    ensures var (w', c) := Bound(w, lam, s);
            && c == w.count + 1
            && (StatusOf(s) == Resolved ==> w'.links[c].resolveHandle == Some(lam) && w'.links[c].rejectHandle.None?)
            && (StatusOf(s) == Rejected ==> w'.links[c].rejectHandle == Some(lam) && w'.links[c].resolveHandle.None?)
            && StateOf(w'.run, c) == Adopted(None, Call(lam, Some(s)))
            && forall k: nat :: k < c ==> StateOf(w'.run, k) == StateOf(w.run, k)
  {
    var res := if StatusOf(s) == Resolved then Some(lam) else None;
    var rej := if StatusOf(s) == Resolved then None else Some(lam);
    var (w1, c) := NewPromise(w, res, rej, None);
    var wv := if StatusOf(s) == Resolved then Some(s) else None;
    var wr := if StatusOf(s) == Resolved then None else Some(s);
    SettleOutcome(w1.links, w1.count, w1.run, c, wv, wr);
    forall k: nat | k < c
      ensures StateOf(Settle(w1.links, w1.count, w1.run, c, wv, wr), k) == StateOf(w.run, k)
    {
      SettleKeepsOlder(w1.links, w1.count, w1.run, c, wv, wr, k);
    }
  }

  /**
   * What a chaining call does to a Pending parent `id`: it answers with the
   * new promise `c` (the counter plus one), appends `c` to the parent's
   * list, gives `c` the handles of `node` and a null state, and leaves every
   * other promise's links and every other state as they were.
   */
  ghost predicate RegisteredChild<T>(w: World<T>, id: nat, w': World<T>, r: Reply<T>, node: Node<T>)
    requires id in w.links
  {
    var c := w.count + 1;
    && r == Ok(Some(c)) && c !in w.links
    && w'.count == c && w'.links.Keys == w.links.Keys + {c}
    && w'.links[id] == w.links[id].(children := w.links[id].children + [c])
    && w'.links[c] == node
    && (forall k :: k in w.links && k != id ==> w'.links[k] == w.links[k])
    && StateOf(w'.run, c).None? && w'.run.crashed == w.run.crashed
    && forall k :: k != c ==> StateOf(w'.run, k) == StateOf(w.run, k)
  }

  /**
   * What a chaining call does to a settled parent `id` with handle `lam`:
   * it answers with the new promise `c`, leaves the parent's list alone,
   * and `c` holds what `lam` made of the parent's state; older promises
   * keep their states.
   */
  ghost predicate BoundChild<T>(w: World<T>, id: nat, w': World<T>, r: Reply<T>, lam: Lambda<T>)
    requires id in w.links
  {
    var c := w.count + 1;
    && r == Ok(Some(c)) && c !in w.links && c in w'.links
    && id in w'.links && w'.links[id] == w.links[id]
    && StateOf(w'.run, c) == Adopted(None, Call(lam, StateOf(w.run, id)))
    && forall k: nat :: k < c ==> StateOf(w'.run, k) == StateOf(w.run, k)
  }

  /** A new promise with handles `res` and `rej` registered on `id`. */
  lemma PendingRegisters<T>(w: World<T>, id: nat, res: Option<Lambda<T>>, rej: Option<Lambda<T>>)
    requires Good(w) && id in w.links
    ensures var (w1, c) := NewPromise(w, res, rej, None);
            && id < c && c in w1.links
            && RegisteredChild(w, id, Register(w1, id, c), Ok(Some(c)), Node(res, rej, []))
  {
    var (w1, c) := NewPromise(w, res, rej, None);
    assert id <= w.count;
    var w2 := Register(w1, id, c);
    assert w2.links[id] == w.links[id].(children := w.links[id].children + [c]);
  }

  /**
   * The child a chaining call registers is the last one on its parent's
   * list, and on no other list.
   */
  lemma RegisteredIsLast<T>(w: World<T>, id: nat, w': World<T>, r: Reply<T>, node: Node<T>)
    requires Good(w) && id in w.links && node.children == []
    requires RegisteredChild(w, id, w', r, node)
    ensures var c := w.count + 1;
            var kids := w'.links[id].children;
            && ListedOnlyBy(w'.links, c, id)
            && |kids| > 0 && kids[|kids| - 1] == c && c !in kids[..|kids| - 1]
  {
    var c := w.count + 1;
    var kids := w'.links[id].children;
    assert kids[..|kids| - 1] == w.links[id].children;
    assert ChildrenAfter(w.links, id);
    forall p | p in w'.links && p != id
      ensures c !in w'.links[p].children
    {
      if p != c {
        assert ChildrenAfter(w.links, p);
      }
    }
  }

  /**
   * then(resolver, rejecter) on a Pending parent: exactly one new child,
   * appended to the parent's list, holding both handlers and a null state;
   * no state changes.
   */
  lemma ThenOnPending<T>(w: World<T>, id: nat, res: T -> Returned<T>, rej: Exception -> Returned<T>)
    requires Good(w) && id in w.links
    requires StateOf(w.run, id).Some? && StatusOf(StateOf(w.run, id).value) == Pending
    ensures var (w', r) := Then(w, id, res, rej);
            RegisteredChild(w, id, w', r, Node(Some(ResolvedLambda(res)), Some(RejectedLambda(rej)), []))
  {
    PendingRegisters(w, id, Some(ResolvedLambda(res)), Some(RejectedLambda(rej)));
  }

  /** The shared body of then(handler) and then(ILambda*) on a Pending parent: only the resolve slot is filled. */
  lemma ThenHandleOnPending<T>(w: World<T>, id: nat, lam: Lambda<T>)
    requires Good(w) && id in w.links
    requires StateOf(w.run, id).Some? && StatusOf(StateOf(w.run, id).value) == Pending
    ensures var (w', r) := ThenHandle(w, id, lam);
            RegisteredChild(w, id, w', r, Node(Some(lam), None, []))
  {
    PendingRegisters(w, id, Some(lam), None);
  }

  /** ... and on a Resolved parent it binds the handle, which runs on the parent's state at once. */
  lemma ThenHandleOnResolved<T>(w: World<T>, id: nat, lam: Lambda<T>)
    requires Good(w) && id in w.links
    requires StateOf(w.run, id).Some? && StatusOf(StateOf(w.run, id).value) == Resolved
    ensures var (w', r) := ThenHandle(w, id, lam);
            BoundChild(w, id, w', r, lam)
  {
    assert id <= w.count;
    BoundOutcome(w, lam, StateOf(w.run, id).value);
  }

  /** then(handler) on a Pending parent registers a child with the handler in the resolve slot only. */
  lemma ThenResolvedOnPending<T>(w: World<T>, id: nat, h: T -> Returned<T>)
    requires Good(w) && id in w.links
    requires StateOf(w.run, id).Some? && StatusOf(StateOf(w.run, id).value) == Pending
    ensures var (w', r) := ThenResolved(w, id, h);
            RegisteredChild(w, id, w', r, Node(Some(ResolvedLambda(h)), None, []))
  {
    ThenHandleOnPending(w, id, ResolvedLambda(h));
  }

  /** then(handler) on a Resolved parent runs the handler on the value for the new child. */
  lemma ThenResolvedOnResolved<T>(w: World<T>, id: nat, h: T -> Returned<T>)
    requires Good(w) && id in w.links
    requires StateOf(w.run, id).Some? && StatusOf(StateOf(w.run, id).value) == Resolved
    ensures var (w', r) := ThenResolved(w, id, h);
            BoundChild(w, id, w', r, ResolvedLambda(h))
  {
    ThenHandleOnResolved(w, id, ResolvedLambda(h));
  }

  /** then(ILambda *lam) on a Pending parent registers a child with `lam` in the resolve slot only. */
  lemma ThenLambdaOnPending<T>(w: World<T>, id: nat, lam: Lambda<T>)
    requires Good(w) && id in w.links
    requires StateOf(w.run, id).Some? && StatusOf(StateOf(w.run, id).value) == Pending
    ensures var (w', r) := ThenLambda(w, id, Some(lam));
            RegisteredChild(w, id, w', r, Node(Some(lam), None, []))
  {
    ThenHandleOnPending(w, id, lam);
  }

  /** then(ILambda *lam) on a Resolved parent runs `lam` on the parent's state for the new child. */
  lemma ThenLambdaOnResolved<T>(w: World<T>, id: nat, lam: Lambda<T>)
    requires Good(w) && id in w.links
    requires StateOf(w.run, id).Some? && StatusOf(StateOf(w.run, id).value) == Resolved
    ensures var (w', r) := ThenLambda(w, id, Some(lam));
            BoundChild(w, id, w', r, lam)
  {
    ThenHandleOnResolved(w, id, lam);
  }

  /** _catch as written on a Pending parent puts its RejectedLambda in the resolve slot. */
  lemma CatchAsWrittenOnPending<T>(w: World<T>, id: nat, h: Exception -> Returned<T>)
    requires Good(w) && id in w.links
    requires StateOf(w.run, id).Some? && StatusOf(StateOf(w.run, id).value) == Pending
    ensures var (w', r) := CatchAsWritten(w, id, h);
            RegisteredChild(w, id, w', r, Node(Some(RejectedLambda(h)), None, []))
  {
    ThenHandleOnPending(w, id, RejectedLambda(h));
  }

  /** _catch as intended on a Pending parent puts the handler in the reject slot only. */
  lemma CatchOnPending<T>(w: World<T>, id: nat, h: Exception -> Returned<T>)
    requires Good(w) && id in w.links
    requires StateOf(w.run, id).Some? && StatusOf(StateOf(w.run, id).value) == Pending
    ensures var (w', r) := Catch(w, id, h);
            RegisteredChild(w, id, w', r, Node(None, Some(RejectedLambda(h)), []))
  {
    PendingRegisters(w, id, None, Some(RejectedLambda(h)));
  }

  /** finally on a Pending parent puts the handler, as a ResolvedLambda, in both slots. */
  lemma FinallyOnPending<T>(w: World<T>, id: nat, h: T -> Returned<T>)
    requires Good(w) && id in w.links
    requires StateOf(w.run, id).Some? && StatusOf(StateOf(w.run, id).value) == Pending
    ensures var (w', r) := Finally(w, id, h);
            RegisteredChild(w, id, w', r, Node(Some(ResolvedLambda(h)), Some(ResolvedLambda(h)), []))
  {
    PendingRegisters(w, id, Some(ResolvedLambda(h)), Some(ResolvedLambda(h)));
  }

  /**
   * finally on a Resolved parent runs the handler on the value, and the
   * continuation takes the handler's result in place of the parent's state.
   */
  lemma FinallyOnResolved<T>(w: World<T>, id: nat, h: T -> Returned<T>)
    requires Good(w) && id in w.links
    requires StateOf(w.run, id).Some? && StatusOf(StateOf(w.run, id).value) == Resolved
    ensures var (w', r) := Finally(w, id, h);
            BoundChild(w, id, w', r, ResolvedLambda(h))
  {
    assert id <= w.count;
    BoundOutcome(w, ResolvedLambda(h), StateOf(w.run, id).value);
  }

  /**
   * So a void handler drops the value: after Resolve(v).finally(h) the
   * continuation's state is null and a then() on it throws.
   */
  lemma FinallyVoidDropsValue<T>(w: World<T>, id: nat, v: T, h: T -> Returned<T>, f: T -> Returned<T>)
    requires Good(w) && id in w.links
    requires StateOf(w.run, id) == Some(NewResolved(v)) && h(v) == Void
    ensures var (w', r) := Finally(w, id, h);
            var c := w.count + 1;
            && r == Ok(Some(c)) && c in w'.links
            && StateOf(w'.run, c).None?
            && ThenResolved(w', c, f) == (w', Err(ThenNullState))
  {
    FinallyOnResolved(w, id, h);
  }

  /**
   * finally as intended on a Pending parent: a child with no handles,
   * appended to the parent's list, which takes the parent's state when the
   * parent is resolved or rejected, whatever was registered before it.
   */
  lemma FinallyPassThroughOnPending<T>(w: World<T>, id: nat, h: T -> Returned<T>, v: T, e: Exception)
    requires Good(w) && id in w.links
    requires StateOf(w.run, id).Some? && StatusOf(StateOf(w.run, id).value) == Pending
    ensures var (w1, r) := FinallyPassThrough(w, id, h);
            var c := w.count + 1;
            && RegisteredChild(w, id, w1, r, Node(None, None, []))
            && StateOf(SettlementResolve(w1, Some(id), v).0.run, c) == Some(NewResolved(v))
            && StateOf(SettlementReject(w1, Some(id), e).0.run, c) == Some(RejectedWith(e))
  {
    PendingRegisters(w, id, None, None);
    var (w1, r) := FinallyPassThrough(w, id, h);
    var c := w.count + 1;
    RegisteredIsLast(w, id, w1, r, Node(None, None, []));
    LastChildSettles(w1.links, w1.count, w1.run, id, c, NewResolved(v));
    LastChildSettles(w1.links, w1.count, w1.run, id, c, RejectedWith(e));
  }

  /**
   * finally as intended on a settled parent, Resolved or Rejected: the
   * continuation holds the parent's state, nothing crashes, and no other
   * promise changes.
   */
  lemma FinallyPassesState<T>(w: World<T>, id: nat, h: T -> Returned<T>)
    requires Good(w) && id in w.links
    requires StateOf(w.run, id).Some? && StatusOf(StateOf(w.run, id).value) != Pending
    ensures var (w', r) := FinallyPassThrough(w, id, h);
            var c := w.count + 1;
            && r == Ok(Some(c)) && c !in w.links && c in w'.links
            && w'.links[c] == Node(None, None, [])
            && StateOf(w'.run, c) == StateOf(w.run, id)
            && w'.run.crashed == w.run.crashed
            && (forall k :: k in w.links ==> k in w'.links && w'.links[k] == w.links[k])
            && forall k :: k != c ==> StateOf(w'.run, k) == StateOf(w.run, k)
  {
  }

  /**
   * So Resolve(v).finally(h).then(f), with finally as intended, runs f on v
   * whatever h returns.
   */
  lemma FinallyPassesValue<T>(w: World<T>, id: nat, h: T -> Returned<T>, v: T, f: T -> Returned<T>)
    requires Good(w) && id in w.links
    requires StateOf(w.run, id) == Some(NewResolved(v))
    ensures var (w', r) := FinallyPassThrough(w, id, h);
            var c := w.count + 1;
            && r == Ok(Some(c)) && c in w'.links
            && StateOf(w'.run, c) == StateOf(w.run, id)
            && BoundChild(w', c, ThenResolved(w', c, f).0, ThenResolved(w', c, f).1, ResolvedLambda(f))
            && StateOf(ThenResolved(w', c, f).0.run, c + 1) == Adopted(None, Chained(Chain(f(v))))
  {
    var (w', r) := FinallyPassThrough(w, id, h);
    var c := w.count + 1;
    ThenResolvedOnResolved(w', c, f);
  }

  /**
   * A continuation registered on a Pending promise runs when that promise is
   * settled later: Settlement resolve(v) runs the resolver on v and reject(e)
   * runs the rejecter on e's reason, and the continuation adopts the result,
   * whatever continuations were registered before it.
   */
  lemma PendingThenRunsOnSettlement<T>(w: World<T>, id: nat, res: T -> Returned<T>,
                                       rej: Exception -> Returned<T>, v: T, e: Exception)
    requires Good(w) && id in w.links
    requires StateOf(w.run, id).Some? && StatusOf(StateOf(w.run, id).value) == Pending
    ensures var (w1, r) := Then(w, id, res, rej);
            var c := w.count + 1;
            && r == Ok(Some(c))
            && StateOf(SettlementResolve(w1, Some(id), v).0.run, c)
               == Adopted(None, Call(ResolvedLambda(res), Some(NewResolved(v))))
            && StateOf(SettlementReject(w1, Some(id), e).0.run, c)
               == Adopted(None, Call(RejectedLambda(rej), Some(RejectedWith(e))))
  {
    ThenOnPending(w, id, res, rej);
    var (w1, r) := Then(w, id, res, rej);
    var c := w.count + 1;
    RegisteredIsLast(w, id, w1, r, Node(Some(ResolvedLambda(res)), Some(RejectedLambda(rej)), []));
    LastChildSettles(w1.links, w1.count, w1.run, id, c, NewResolved(v));
    LastChildSettles(w1.links, w1.count, w1.run, id, c, RejectedWith(e));
  }

  /**
   * The continuation registered on a Pending parent has a null state until
   * the parent settles, so every chaining call on it throws.
   */
  lemma ChainOnWaitingChildThrows<T>(w: World<T>, id: nat, res: T -> Returned<T>, rej: Exception -> Returned<T>,
                                     h: T -> Returned<T>, g: Exception -> Returned<T>)
    requires Good(w) && id in w.links
    requires StateOf(w.run, id).Some? && StatusOf(StateOf(w.run, id).value) == Pending
    ensures var (w', r) := Then(w, id, res, rej);
            var c := w.count + 1;
            && c in w'.links
            && Then(w', c, res, rej).1 == Err(ThenNullState)
            && ThenResolved(w', c, h).1 == Err(ThenNullState)
            && CatchAsWritten(w', c, g).1 == Err(CatchNullState)
            && Finally(w', c, h).1 == Err(FinallyNullState)
  {
    ThenOnPending(w, id, res, rej);
  }

  /**
   * then(resolver, rejecter) on a settled parent: an unregistered child
   * bound to the handler for the parent's status, which has already run
   * with the parent's state; the parent's list is unchanged.
   */
  lemma ThenOnSettled<T>(w: World<T>, id: nat, res: T -> Returned<T>, rej: Exception -> Returned<T>)
    requires Good(w) && id in w.links
    requires StateOf(w.run, id).Some? && StatusOf(StateOf(w.run, id).value) != Pending
    ensures var s := StateOf(w.run, id).value;
            var (w', r) := Then(w, id, res, rej);
            var c := w.count + 1;
            && r == Ok(Some(c)) && c !in w.links
            && w'.links[id] == w.links[id]
            && (StatusOf(s) == Resolved ==>
                  StateOf(w'.run, c) == Adopted(None, Call(ResolvedLambda(res), Some(s))))
            && (StatusOf(s) == Rejected ==>
                  StateOf(w'.run, c) == Adopted(None, Call(RejectedLambda(rej), Some(s))))
            && StateOf(w'.run, id) == Some(s)
  {
    var s := StateOf(w.run, id).value;
    assert 1 <= id <= w.count;
    if StatusOf(s) == Resolved {
      BoundOutcome(w, ResolvedLambda(res), s);
    } else {
      BoundOutcome(w, RejectedLambda(rej), s);
    }
  }

  /**
   * then(handler) on a Rejected parent yields nullptr and changes nothing:
   * the rejection does not reach any later continuation.
   */
  lemma ThenResolvedDropsRejection<T>(w: World<T>, id: nat, h: T -> Returned<T>)
    requires Good(w) && id in w.links
    requires StateOf(w.run, id).Some? && StatusOf(StateOf(w.run, id).value) == Rejected
    ensures ThenResolved(w, id, h) == (w, Ok(None))
  {
  }

  /**
   * _catch as written never runs its handler for a rejection: on a
   * Rejected parent it yields nullptr and changes nothing.
   */
  lemma CatchAsWrittenSkipsRejection<T>(w: World<T>, id: nat, h: Exception -> Returned<T>)
    requires Good(w) && id in w.links
    requires StateOf(w.run, id).Some? && StatusOf(StateOf(w.run, id).value) == Rejected
    ensures CatchAsWritten(w, id, h) == (w, Ok(None))
  {
  }

  /**
   * _catch as written runs its handler for a resolution instead, with the
   * `noerr` reason, and the continuation takes the handler's result in
   * place of the value.
   */
  lemma CatchAsWrittenRunsOnValue<T>(w: World<T>, id: nat, h: Exception -> Returned<T>)
    requires Good(w) && id in w.links
    requires StateOf(w.run, id).Some? && StatusOf(StateOf(w.run, id).value) == Resolved
    ensures var (w', r) := CatchAsWritten(w, id, h);
            && r == Ok(Some(w.count + 1))
            && StateOf(w'.run, w.count + 1) == Adopted(None, Chained(Chain(h(NoErr))))
  {
    BoundOutcome(w, RejectedLambda(h), StateOf(w.run, id).value);
  }

  /** With the handler in the reject slot, a resolved value passes through unchanged. */
  lemma CatchPassesValue<T>(w: World<T>, id: nat, h: Exception -> Returned<T>)
    requires Good(w) && id in w.links
    requires StateOf(w.run, id).Some? && StatusOf(StateOf(w.run, id).value) == Resolved
    ensures var (w', r) := Catch(w, id, h);
            && r == Ok(Some(w.count + 1))
            && StateOf(w'.run, w.count + 1) == StateOf(w.run, id)
            && w'.links[id] == w.links[id]
  {
    var s := StateOf(w.run, id);
    var (w1, c) := NewPromise(w, None, Some(RejectedLambda(h)), None);
    SettleOutcome(w1.links, w1.count, w1.run, c, s, None);
  }

  /** ... and a rejection runs the handler with the parent's reason. */
  lemma CatchHandlesRejection<T>(w: World<T>, id: nat, h: Exception -> Returned<T>)
    requires Good(w) && id in w.links
    requires StateOf(w.run, id).Some? && StatusOf(StateOf(w.run, id).value) == Rejected
    ensures var (w', r) := Catch(w, id, h);
            && r == Ok(Some(w.count + 1))
            && StateOf(w'.run, w.count + 1)
               == Adopted(None, Chained(Chain(h(GetReason(StateOf(w.run, id).value)))))
  {
    var s := StateOf(w.run, id);
    var (w1, c) := NewPromise(w, None, Some(RejectedLambda(h)), None);
    SettleOutcome(w1.links, w1.count, w1.run, c, None, s);
  }

  /**
   * finally on a Rejected parent binds the handler, a ResolvedLambda, to the
   * reject slot; calling it dereferences the null value pointer.
   */
  lemma FinallyOnRejectedCrashes<T>(w: World<T>, id: nat, h: T -> Returned<T>)
    requires Good(w) && id in w.links
    requires StateOf(w.run, id).Some? && StatusOf(StateOf(w.run, id).value) == Rejected
    ensures Finally(w, id, h).0.run.crashed
  {
    var s := StateOf(w.run, id).value;
    var (w1, c) := NewPromise(w, None, Some(ResolvedLambda(h)), None);
    HandleOutcome(w1.links, w1.count, w1.run, c, ResolvedLambda(h), s);
    assert Settle(w1.links, w1.count, w1.run, c, None, Some(s))
        == WithHandle(w1.links, w1.count, w1.run, c, ResolvedLambda(h), s);
  }

  /** await(Resolve(v)) gives v back. */
  lemma AwaitResolved<T>(w: World<T>, v: T)
    requires Good(w)
    ensures Await(ResolveNow(w, v).0, ResolveNow(w, v).1) == Ok(Some(v))
    ensures AwaitAsWritten(ResolveNow(w, v).0, ResolveNow(w, v).1) == Ok(Some(v))
  {
  }

  /**
   * Reject(e) followed by await reports the generic std::exception text,
   * not e's message: with e = Promise_Error("IUPUI") the two differ.
   */
  lemma AwaitRejectedAsWritten<T>(w: World<T>)
    requires Good(w)
    ensures var (w', p) := RejectNowAsWritten(w, Exception("IUPUI"));
            AwaitAsWritten(w', p) == Err(Exception(StdExceptionWhat))
    ensures StdExceptionWhat != "IUPUI"
  {
  }

  /** With both slices removed, await(Reject(e)) surfaces e itself. */
  lemma AwaitRejected<T>(w: World<T>, e: Exception)
    requires Good(w)
    ensures var (w', p) := RejectNow(w, e);
            Await(w', p) == Err(e)
  {
  }

  /** The state a Settlement call leaves in its promise. */
  function ActionState<T>(a: Action<T>): State<T>
  {
    match a
    case ResolveWith(v) => NewResolved(v)
    case RejectWith(e) => RejectedWith(e)
    case RejectWithMessage(msg) => RejectedWithMessage(msg)
  }

  /** After a settlement callback, its promise holds what the last call gave it. */
  lemma {:induction false} ExecuteLastWins<T>(w: World<T>, id: nat, acts: seq<Action<T>>)
    requires Good(w) && id in w.links && acts != []
    ensures StateOf(Execute(w, id, acts).run, id) == Some(ActionState(acts[|acts| - 1]))
    decreases |acts|
  {
    var w1 := match acts[0]
      case ResolveWith(v) => SettlementResolve(w, Some(id), v).0
      case RejectWith(e) => SettlementReject(w, Some(id), e).0
      case RejectWithMessage(msg) => SettlementRejectMessage(w, Some(id), msg).0;
    assert Execute(w, id, acts) == Execute(w1, id, acts[1..]);
    if |acts| > 1 {
      ExecuteLastWins(w1, id, acts[1..]);
    }
  }

  /**
   * A promise whose callback resolves it with v awaits to v; one whose
   * callback rejects it with e awaits to e (as intended) or to the generic
   * text (as written).
   */
  lemma AwaitAfterCallback<T>(w: World<T>, v: T, e: Exception)
    requires Good(w)
    ensures var (w', p) := WithExecutor(w, [ResolveWith(v)]);
            Await(w', p) == Ok(Some(v))
    ensures var (w', p) := WithExecutor(w, [RejectWith(e)]);
            Await(w', p) == Err(e) && AwaitAsWritten(w', p) == Err(Exception(StdExceptionWhat))
  {
    var (w1, id) := NewPromise(w, None, None, None);
    ExecuteLastWins(w1, id, [ResolveWith(v)]);
    ExecuteLastWins(w1, id, [RejectWith(e)]);
  }

  /**
   * Resolve(v).catch(g).then(f), with catch as intended, runs f on v: the
   * rejection handler never touches a resolved chain.
   */
  lemma ResolvedChainSkipsCatch<T>(w: World<T>, v: T, g: Exception -> Returned<T>, f: T -> Returned<T>)
    requires Good(w)
    ensures var (w1, p) := ResolveNow(w, v);
            var (w2, r2) := Catch(w1, p, g);
            && r2 == Ok(Some(p + 1))
            && var (w3, r3) := ThenResolved(w2, p + 1, f);
               && r3 == Ok(Some(p + 2))
               && StateOf(w3.run, p + 2) == Adopted(None, Chained(Chain(f(v))))
  {
    var (w1, p) := ResolveNow(w, v);
    CatchPassesValue(w1, p, g);
    var (w2, r2) := Catch(w1, p, g);
    assert StateOf(w2.run, p + 1) == Some(NewResolved(v));
    BoundOutcome(w2, ResolvedLambda(f), NewResolved(v));
  }
}
