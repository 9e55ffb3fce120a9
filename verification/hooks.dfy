/** How ent wraps a builder's operation in hooks and a query in interceptors.  A mutator is a
    function from a state and a mutation to a state and an answer, so "was not invoked" reads as
    "the state is the one we started from" and "the answer does not depend on it". */
module Hooks {
  import opened Wrappers

  datatype Error = Uninitialized | WrongMutation | WrongNode | Failed(code: int)

  /** A value a hook passes along: of the expected type, or of some other one. */
  datatype Any<+T> = Typed(value: T) | Foreign

  type Mutator<!S, !M, !V> = (S, Any<M>) -> (S, Result<Any<V>, Error>)
  type Hook<!S, !M, !V> = Mutator<S, M, V> -> Mutator<S, M, V>

  /** The builder's operation and the builder's own mutation, which is part of the state. */
  datatype State<W, M> = State(world: W, mutation: M)

  /** The innermost mutator: copy the mutation into the builder, then run the operation. */
  function Base<W, M, V>(exec: State<W, M> -> (State<W, M>, Result<V, Error>)): Mutator<State<W, M>, M, V> {
    (s: State<W, M>, m: Any<M>) =>
      if m.Foreign? then (s, Err(WrongMutation))
      else
        var (s', r) := exec(s.(mutation := m.value));
        (s', if r.Ok? then Ok(Typed(r.value)) else Err(r.error))
  }

  /** h0(h1(...(base))). */
  function Compose<T>(hooks: seq<T -> T>, base: T): T {
    if hooks == [] then base else hooks[0](Compose(hooks[1..], base))
  }

  lemma {:induction false} ComposeAppend<T>(a: seq<T -> T>, b: seq<T -> T>, base: T)
    ensures Compose(a + b, base) == Compose(a, Compose(b, base))
  {
    if a == [] {
      assert a + b == b;
    } else {
      assert (a + b)[1..] == a[1..] + b;
      ComposeAppend(a[1..], b, base);
    }
  }

  /** A hook that answers without looking at what it wraps cuts off everything inside it: neither the
      hooks after it nor the operation can have any effect. */
  lemma {:induction false} VetoCutsOff<T>(hooks: seq<T -> T>, k: nat, tail: seq<T -> T>, base: T, other: T)
    requires k < |hooks|
    requires forall inner: T, inner': T :: hooks[k](inner) == hooks[k](inner')
    ensures Compose(hooks, base) == Compose(hooks[..k+1] + tail, other)
  {
    if k == 0 {
      assert (hooks[..1] + tail)[1..] == tail;
      assert hooks[0](Compose(hooks[1..], base)) == hooks[0](Compose(tail, other));
    } else {
      assert (hooks[..k+1] + tail)[1..] == hooks[1..][..k] + tail;
      VetoCutsOff(hooks[1..], k - 1, tail, base, other);
    }
  }

  function Finish<S, V>(out: (S, Result<Any<V>, Error>)): (S, Result<V, Error>) {
    (out.0,
     match out.1
     case Err(e) => Err(e)
     case Ok(Foreign) => Err(WrongNode)
     case Ok(Typed(v)) => Ok(v))
  }

  /** A hook that hands on an edited mutation. */
  function Editing<W, M, V>(edit: M -> M): Hook<State<W, M>, M, V> {
    (next: Mutator<State<W, M>, M, V>) =>
      (s: State<W, M>, m: Any<M>) => next(s, if m.Typed? then Typed(edit(m.value)) else Foreign)
  }

  function EditAll<W, M, V>(edits: seq<M -> M>): seq<Hook<State<W, M>, M, V>> {
    if edits == [] then [] else [Editing(edits[0])] + EditAll(edits[1..])
  }

  /** The edits in turn. */
  function Edited<M>(edits: seq<M -> M>, m: M): M {
    if edits == [] then m else Edited(edits[1..], edits[0](m))
  }

  /** The operation runs on the mutation the hooks hand on: it has been copied into the builder. */
  lemma EditsReachOperation<W, M, V>(
    edits: seq<M -> M>, s: State<W, M>, exec: State<W, M> -> (State<W, M>, Result<V, Error>))
    ensures Finish(Compose(EditAll(edits), Base(exec))(s, Typed(s.mutation)))
         == exec(s.(mutation := Edited(edits, s.mutation)))
  {
    EditsPassOn(edits, s, s.mutation, Base(exec));
  }

  lemma {:induction false} EditsPassOn<W, M, V>(
    edits: seq<M -> M>, s: State<W, M>, m: M, base: Mutator<State<W, M>, M, V>)
    ensures Compose(EditAll(edits), base)(s, Typed(m)) == base(s, Typed(Edited(edits, m)))
  {
    if edits != [] {
      assert EditAll<W, M, V>(edits)[1..] == EditAll<W, M, V>(edits[1..]);
      EditsPassOn(edits[1..], s, edits[0](m), base);
    }
  }

  /** A hook that hands on a mutation of another type. */
  function Swapping<S, M, V>(): Hook<S, M, V> {
    (next: Mutator<S, M, V>) => (s: S, m: Any<M>) => next(s, Foreign)
  }

  /** A hook that answers a value of another type. */
  function Masking<S, M, V>(): Hook<S, M, V> {
    (next: Mutator<S, M, V>) => (s: S, m: Any<M>) => (next(s, m).0, Ok(Foreign))
  }

  /** A mutation of another type keeps the operation from running, and an answer of another type is an
      error although it ran. */
  lemma WrongTypesAreRefused<W, M, V>(s: State<W, M>, exec: State<W, M> -> (State<W, M>, Result<V, Error>))
    ensures Finish(Compose([Swapping()], Base(exec))(s, Typed(s.mutation))) == (s, Err(WrongMutation))
    ensures Finish(Compose([Masking()], Base(exec))(s, Typed(s.mutation))) == (exec(s).0, Err(WrongNode))
  {
    One(Swapping(), Base(exec));
    One(Masking(), Base(exec));
    assert s.(mutation := s.mutation) == s;
  }

  lemma One<T>(hook: T -> T, base: T)
    ensures Compose([hook], base) == hook(base)
  {
    assert [hook][1..] == [];
  }

  function Installed<S, M, V>(hooks: seq<Option<Hook<S, M, V>>>): seq<Hook<S, M, V>>
    requires forall k :: 0 <= k < |hooks| ==> hooks[k].Some?
  {
    seq(|hooks|, k requires 0 <= k < |hooks| => hooks[k].value)
  }

  /** `withHooks`: the operation, wrapped in the hooks by a loop that runs from the last hook to
      the first.  A missing hook is an error, and nothing runs at all. */
  method WithHooks<W, M, V>(s: State<W, M>, exec: State<W, M> -> (State<W, M>, Result<V, Error>),
                            hooks: seq<Option<Hook<State<W, M>, M, V>>>)
    returns (s': State<W, M>, r: Result<V, Error>)
    ensures (exists k :: 0 <= k < |hooks| && hooks[k].None?) ==> s' == s && r == Err(Uninitialized)
    ensures (forall k :: 0 <= k < |hooks| ==> hooks[k].Some?) && hooks != [] ==>
              (s', r) == Finish(Compose(Installed(hooks), Base(exec))(s, Typed(s.mutation)))
    ensures hooks == [] ==> (s', r) == exec(s)
  {
    if |hooks| == 0 {
      var out := exec(s);
      return out.0, out.1;
    }
    var mut := Base(exec);
    var i := |hooks|;
    while i > 0
      invariant 0 <= i <= |hooks|
      invariant forall k :: i <= k < |hooks| ==> hooks[k].Some?
      invariant mut == Compose(Installed(hooks[i..]), Base(exec))
    {
      i := i - 1;
      if hooks[i].None? {
        return s, Err(Uninitialized);
      }
      mut := hooks[i].value(mut);
      assert Installed(hooks[i..])[1..] == Installed(hooks[i+1..]);
    }
    assert hooks[0..] == hooks;
    var out := Finish(mut(s, Typed(s.mutation)));
    return out.0, out.1;
  }

  /** `withInterceptors`: the same right-nested wrapping around a query, without the check for a
      missing interceptor. */
  method WithInterceptors<W, Q, V>(w: W, q: Q, query: Mutator<W, Q, V>, inters: seq<Hook<W, Q, V>>)
    returns (w': W, r: Result<V, Error>)
    ensures (w', r) == Finish(Compose(inters, query)(w, Typed(q)))
  {
    var qr := query;
    var i := |inters|;
    while i > 0
      invariant 0 <= i <= |inters|
      invariant qr == Compose(inters[i..], query)
    {
      i := i - 1;
      qr := inters[i](qr);
      assert inters[i..][1..] == inters[i+1..];
    }
    assert inters[0..] == inters;
    var out := Finish(qr(w, Typed(q)));
    return out.0, out.1;
  }

  /** The hooks a client holds for one entity type. */
  class Client<W, M, V> {
    var hooks: seq<Hook<State<W, M>, M, V>>

    constructor ()
      ensures hooks == []
    {
      hooks := [];
    }

    /** Two calls to Use behave as one call with the concatenation: whatever is wrapped, the
        hooks given first stay outermost. */
    method Use(more: seq<Hook<State<W, M>, M, V>>)
      modifies this
      ensures hooks == old(hooks) + more
      ensures forall base: Mutator<State<W, M>, M, V> ::
                Compose(hooks, base) == Compose(old(hooks), Compose(more, base))
    {
      hooks := hooks + more;
      forall base: Mutator<State<W, M>, M, V>
        ensures Compose(hooks, base) == Compose(old(hooks), Compose(more, base))
      {
        ComposeAppend(old(hooks), more, base);
      }
    }
  }
}
