/**
 * The Promise objects of Promise.h, run without threads: the runtime holds
 * the `_promiseID` counter and every promise's fields (handles, `_Promises`
 * list, `_state`), and its methods change them as the Promise methods do.
 * Each method is proved to end in the state the matching PromiseSpec
 * function describes.  Where the source departs from what it evidently
 * intends, both are here: CatchAsWritten, Finally and RejectNowAsWritten
 * follow the code, Catch, FinallyPassThrough and RejectNow the intent.
 */
module PromiseRuntime {
  import opened Wrappers
  import opened PromiseErrors
  import opened States
  import opened Lambdas
  import opened PromiseSpec

  class Runtime<!T> {
    /** `_promiseID`: how many promises were created so far. */
    var count: nat
    /** Each promise's `_resolveHandle`, `_rejectHandle` and `_Promises`, by `_id`. */
    var links: map<nat, Node<T>>
    /** Each promise's `_state`, by `_id`. */
    var states: map<nat, Option<State<T>>>
    /** Set once a null pointer has been dereferenced. */
    var crashed: bool

    ghost function Run(): Run<T>
      reads this
    {
      PromiseSpec.Run(states, crashed)
    }

    ghost function Model(): World<T>
      reads this
    {
      World(count, links, Run())
    }

    ghost predicate Valid()
      reads this
    {
      Good(Model())
    }

    constructor ()
      ensures Valid() && Model() == World(0, map[], PromiseSpec.Run(map[], false))
    {
      count := 0;
      links := map[];
      states := map[];
      crashed := false;
    }

    /** `_state` of promise `id`. */
    function StateOf(id: nat): (s: Option<State<T>>)
      reads this
      ensures s == PromiseSpec.StateOf(Run(), id)
    {
      if id in states then states[id] else None
    }

    /** Allocating a Promise: the fields every constructor initialises. */
    method NewPromise(res: Option<Lambda<T>>, rej: Option<Lambda<T>>, state: Option<State<T>>)
      returns (id: nat)
      requires Valid()
      modifies this
      ensures Valid()
      ensures (Model(), id) == PromiseSpec.NewPromise(old(Model()), res, rej, state)
    {
      count := count + 1;
      id := count;
      links := links[id := Node(res, rej, [])];
      states := states[id := state];
    }

    /** Promise(void): no state, no handles. */
    method CreatePending() returns (id: nat)
      requires Valid()
      modifies this
      ensures Valid()
      ensures (Model(), id) == PromiseSpec.NewPromise(old(Model()), None, None, None)
    {
      id := NewPromise(None, None, None);
    }

    /** Promise(ILambda *lam, State *parentState). */
    method CreateBound(lam: Lambda<T>, parent: State<T>) returns (id: nat)
      requires Valid()
      modifies this
      ensures Valid()
      ensures (Model(), id) == Bound(old(Model()), lam, parent)
    {
      if StatusOf(parent) == Resolved {
        id := NewPromise(Some(lam), None, None);
        Settle(id, Some(parent), None);
      } else if StatusOf(parent) == Rejected {
        id := NewPromise(None, Some(lam), None);
        Settle(id, None, Some(parent));
      } else {
        id := NewPromise(None, None, None);
      }
    }

    // -------------------------------------------------------------------
    // Settlement

    /** `_settle(withValue, withReason)`. */
    method Settle(id: nat, withValue: Option<State<T>>, withReason: Option<State<T>>)
      requires Valid() && id in links
      modifies this
      ensures links == old(links) && count == old(count)
      ensures Run() == PromiseSpec.Settle(links, count, old(Run()), id, withValue, withReason)
      decreases count - id, 3, 0
    {
      if withValue.Some? {
        if links[id].resolveHandle.Some? {
          WithResolveHandle(id, withValue.value);
        } else {
          Resolve(id, withValue.value);
        }
      } else if withReason.Some? {
        if links[id].rejectHandle.Some? {
          WithRejectHandle(id, withReason.value);
        } else {
          Reject(id, withReason.value);
        }
      }
    }

    /** `_withResolveHandle(input)`. */
    method WithResolveHandle(id: nat, input: State<T>)
      requires Valid() && id in links && links[id].resolveHandle.Some?
      modifies this
      ensures links == old(links) && count == old(count)
      ensures Run() == WithHandle(links, count, old(Run()), id, links[id].resolveHandle.value, input)
      decreases count - id, 2, 0
    {
      Adopt(id, Call(links[id].resolveHandle.value, Some(input)), links[id].resolveHandle.value, input);
    }

    /** `_withRejectHandle(input)`. */
    method WithRejectHandle(id: nat, input: State<T>)
      requires Valid() && id in links && links[id].rejectHandle.Some?
      modifies this
      ensures links == old(links) && count == old(count)
      ensures Run() == WithHandle(links, count, old(Run()), id, links[id].rejectHandle.value, input)
      decreases count - id, 2, 0
    {
      Adopt(id, Call(links[id].rejectHandle.value, Some(input)), links[id].rejectHandle.value, input);
    }

    /**
     * The rest of both handle runners, once the handle has returned `o`:
     * adopt the returned promise's state, or end the chain.
     */
    method Adopt(id: nat, o: Outcome<T>, ghost lam: Lambda<T>, ghost input: State<T>)
      requires Valid() && id in links && o == Call(lam, Some(input))
      modifies this
      ensures links == old(links) && count == old(count)
      ensures Run() == WithHandle(links, count, old(Run()), id, lam, input)
      decreases count - id, 1, 1
    {
      if o.Chained? {
        match o.next {
          case None =>
            states := states[id := None];
          case Some(p) =>
            match p.state {
              case None =>
                crashed := true;
              case Some(st) =>
                if StatusOf(st) == Resolved {
                  Resolve(id, st);
                } else {
                  Reject(id, st);
                }
            }
        }
      } else {
        // a null value pointer dereferenced by the handle
        crashed := true;
      }
    }

    /** `_resolve(state)`. */
    method Resolve(id: nat, s: State<T>)
      requires Valid() && id in links
      modifies this
      ensures links == old(links) && count == old(count)
      ensures Run() == PromiseSpec.Resolve(links, count, old(Run()), id, s)
      decreases count - id, 1, 0
    {
      states := states[id := Some(s)];
      NotifyChildren(id, true);
    }

    /** `_reject(state)`. */
    method Reject(id: nat, s: State<T>)
      requires Valid() && id in links
      modifies this
      ensures links == old(links) && count == old(count)
      ensures Run() == PromiseSpec.Reject(links, count, old(Run()), id, s)
      decreases count - id, 1, 0
    {
      states := states[id := Some(s)];
      NotifyChildren(id, false);
    }

    /** The loop of `_resolve` / `_reject` over `_Promises`. */
    method NotifyChildren(id: nat, asValue: bool)
      requires Valid() && id in links
      modifies this
      ensures links == old(links) && count == old(count)
      ensures Run() == Notify(links, count, old(Run()), id, 0, asValue)
      decreases count - id, 0, 0
    {
      var kids := links[id].children;
      assert ChildrenAfter(links, id);
      var i := 0;
      while i < |kids|
        invariant links == old(links) && count == old(count)
        invariant 0 <= i <= |kids|
        invariant Notify(links, count, Run(), id, i, asValue) == Notify(links, count, old(Run()), id, 0, asValue)
        decreases |kids| - i
      {
        ghost var before := Run();
        var cur := StateOf(id);
        if asValue {
          Settle(kids[i], cur, None);
        } else {
          Settle(kids[i], None, cur);
        }
        assert Notify(links, count, before, id, i, asValue) == Notify(links, count, Run(), id, i + 1, asValue);
        i := i + 1;
      }
    }

    // -------------------------------------------------------------------
    // Chaining

    /** then(resolver, rejecter). */
    method Then(id: nat, res: T -> Returned<T>, rej: Exception -> Returned<T>) returns (r: Reply<T>)
      requires Valid() && id in links
      modifies this
      ensures Valid()
      ensures (Model(), r) == PromiseSpec.Then(old(Model()), id, res, rej)
    {
      var st := StateOf(id);
      if st.None? {
        return Err(ThenNullState);
      }
      var c;
      if StatusOf(st.value) == Pending {
        c := NewPromise(Some(ResolvedLambda(res)), Some(RejectedLambda(rej)), None);
        Register(id, c);
      } else if StatusOf(st.value) == Resolved {
        c := CreateBound(ResolvedLambda(res), st.value);
      } else {
        c := CreateBound(RejectedLambda(rej), st.value);
      }
      r := Ok(Some(c));
    }

    /** `_Promises.push_back(child)`. */
    method Register(parent: nat, child: nat)
      requires Valid() && parent in links && child in links && parent < child
      modifies this
      ensures Valid()
      ensures Model() == PromiseSpec.Register(old(Model()), parent, child)
    {
      links := links[parent := links[parent].(children := links[parent].children + [child])];
    }

    /** The body shared by then(handler) and then(ILambda*). */
    method ThenHandle(id: nat, lam: Lambda<T>) returns (r: Reply<T>)
      requires Valid() && id in links && StateOf(id).Some?
      modifies this
      ensures Valid()
      ensures (Model(), r) == PromiseSpec.ThenHandle(old(Model()), id, lam)
    {
      var st := StateOf(id).value;
      if StatusOf(st) == Pending {
        var c := NewPromise(Some(lam), None, None);
        Register(id, c);
        r := Ok(Some(c));
      } else if StatusOf(st) == Resolved {
        var c := CreateBound(lam, st);
        r := Ok(Some(c));
      } else {
        r := Ok(None);
      }
    }

    /** then(handler). */
    method ThenResolved(id: nat, h: T -> Returned<T>) returns (r: Reply<T>)
      requires Valid() && id in links
      modifies this
      ensures Valid()
      ensures (Model(), r) == PromiseSpec.ThenResolved(old(Model()), id, h)
    {
      if StateOf(id).None? {
        return Err(ThenNullState);
      }
      r := ThenHandle(id, ResolvedLambda(h));
    }

    /** then(ILambda *lam). */
    method ThenLambda(id: nat, lam: Option<Lambda<T>>) returns (r: Reply<T>)
      requires Valid() && id in links
      modifies this
      ensures Valid()
      ensures (Model(), r) == PromiseSpec.ThenLambda(old(Model()), id, lam)
    {
      if lam.None? {
        return Err(ThenNullLambda);
      }
      if StateOf(id).None? {
        return Err(ThenNullState);
      }
      r := ThenHandle(id, lam.value);
    }

    /** _catch(rejecter) as written: a RejectedLambda handed to then(ILambda*). */
    method CatchAsWritten(id: nat, h: Exception -> Returned<T>) returns (r: Reply<T>)
      requires Valid() && id in links
      modifies this
      ensures Valid()
      ensures (Model(), r) == PromiseSpec.CatchAsWritten(old(Model()), id, h)
    {
      if StateOf(id).None? {
        return Err(CatchNullState);
      }
      r := ThenLambda(id, Some(RejectedLambda(h)));
    }

    /** _catch(rejecter) as intended, with the handler in the reject slot. */
    method Catch(id: nat, h: Exception -> Returned<T>) returns (r: Reply<T>)
      requires Valid() && id in links
      modifies this
      ensures Valid()
      ensures (Model(), r) == PromiseSpec.Catch(old(Model()), id, h)
    {
      var st := StateOf(id);
      if st.None? {
        return Err(CatchNullState);
      }
      var c := NewPromise(None, Some(RejectedLambda(h)), None);
      if StatusOf(st.value) == Pending {
        Register(id, c);
      } else if StatusOf(st.value) == Resolved {
        Settle(c, st, None);
      } else {
        Settle(c, None, st);
      }
      r := Ok(Some(c));
    }

    /** finally(handler) as written: the handler in both slots, or bound to the parent. */
    method Finally(id: nat, h: T -> Returned<T>) returns (r: Reply<T>)
      requires Valid() && id in links
      modifies this
      ensures Valid()
      ensures (Model(), r) == PromiseSpec.Finally(old(Model()), id, h)
    {
      var st := StateOf(id);
      if st.None? {
        return Err(FinallyNullState);
      }
      var c;
      if StatusOf(st.value) == Pending {
        c := NewPromise(Some(ResolvedLambda(h)), Some(ResolvedLambda(h)), None);
        Register(id, c);
      } else {
        c := CreateBound(ResolvedLambda(h), st.value);
      }
      r := Ok(Some(c));
    }

    /** finally(handler) as intended: the continuation takes the parent's state. */
    method FinallyPassThrough(id: nat, h: T -> Returned<T>) returns (r: Reply<T>)
      requires Valid() && id in links
      modifies this
      ensures Valid()
      ensures (Model(), r) == PromiseSpec.FinallyPassThrough(old(Model()), id, h)
    {
      var st := StateOf(id);
      if st.None? {
        return Err(FinallyNullState);
      }
      var c;
      if StatusOf(st.value) == Pending {
        c := NewPromise(None, None, None);
        Register(id, c);
      } else {
        c := NewPromise(None, None, st);
      }
      r := Ok(Some(c));
    }

    // -------------------------------------------------------------------
    // Settling from outside, factories

    /** Settlement(prom).resolve(v). */
    method SettlementResolve(prom: Option<nat>, v: T) returns (thrown: Option<Exception>)
      requires Valid() && (prom.Some? ==> prom.value in links)
      modifies this
      ensures Valid()
      ensures (Model(), thrown) == PromiseSpec.SettlementResolve(old(Model()), prom, v)
    {
      if prom.None? {
        return Some(ResolveNullPromise);
      }
      Resolve(prom.value, NewResolved(v));
      thrown := None;
    }

    /** Settlement(prom).reject(const std::exception &e). */
    method SettlementReject(prom: Option<nat>, e: Exception) returns (thrown: Option<Exception>)
      requires Valid() && (prom.Some? ==> prom.value in links)
      modifies this
      ensures Valid()
      ensures (Model(), thrown) == PromiseSpec.SettlementReject(old(Model()), prom, e)
    {
      if prom.None? {
        return Some(RejectNullPromise);
      }
      Reject(prom.value, RejectedWith(e));
      thrown := None;
    }

    /** Settlement(prom).reject(const std::string &msg). */
    method SettlementRejectMessage(prom: Option<nat>, msg: string) returns (thrown: Option<Exception>)
      requires Valid() && (prom.Some? ==> prom.value in links)
      modifies this
      ensures Valid()
      ensures (Model(), thrown) == PromiseSpec.SettlementRejectMessage(old(Model()), prom, msg)
    {
      if prom.None? {
        return Some(RejectNullPromise);
      }
      Reject(prom.value, RejectedWithMessage(msg));
      thrown := None;
    }

    /**
     * Promise(ILambda *lam) with a settlement lambda, and the `promise(...)`
     * helper: a new promise, then the callback's calls on its Settlement.
     */
    method CreateWithExecutor(acts: seq<Action<T>>) returns (id: nat)
      requires Valid()
      modifies this
      ensures Valid()
      ensures (Model(), id) == WithExecutor(old(Model()), acts)
    {
      id := NewPromise(None, None, None);
      ghost var start := Model();
      var i := 0;
      while i < |acts|
        invariant Valid() && id in links
        invariant 0 <= i <= |acts|
        invariant Execute(Model(), id, acts[i..]) == Execute(start, id, acts)
        decreases |acts| - i
      {
        ghost var before := Model();
        var thrown;
        match acts[i] {
          case ResolveWith(v) => thrown := SettlementResolve(Some(id), v);
          case RejectWith(e) => thrown := SettlementReject(Some(id), e);
          case RejectWithMessage(msg) => thrown := SettlementRejectMessage(Some(id), msg);
        }
        assert acts[i..][1..] == acts[i + 1..];
        assert Execute(before, id, acts[i..]) == Execute(Model(), id, acts[i + 1..]);
        i := i + 1;
      }
    }

    /** Resolve(v). */
    method ResolveNow(v: T) returns (id: nat)
      requires Valid()
      modifies this
      ensures Valid()
      ensures (Model(), id) == PromiseSpec.ResolveNow(old(Model()), v)
    {
      id := NewPromise(None, None, Some(NewResolved(v)));
    }

    /** Reject(std::exception e) as written: only the std::exception part is kept. */
    method RejectNowAsWritten(e: Exception) returns (id: nat)
      requires Valid()
      modifies this
      ensures Valid()
      ensures (Model(), id) == PromiseSpec.RejectNowAsWritten(old(Model()), e)
    {
      id := NewPromise(None, None, Some(RejectedWith(Exception(StdExceptionWhat))));
    }

    /** Reject(e) as intended, keeping e's message. */
    method RejectNow(e: Exception) returns (id: nat)
      requires Valid()
      modifies this
      ensures Valid()
      ensures (Model(), id) == PromiseSpec.RejectNow(old(Model()), e)
    {
      id := NewPromise(None, None, Some(RejectedWith(e)));
    }
  }
}
