/** The query engine as the test doubles present it: a materialized view is a
    listener list, a `destroyed` flag and the last emitted value; the engine
    (`z.current`) materializes a fresh view per call and logs it in `created`. */
module Fakes {
  import opened Wrappers

  /** The engine's query description as the tests build it: an opaque
      content hash and the singular/plural result shape. */
  datatype QueryDef = QueryDef(hash: string, singular: bool)

  /** A JSON-like payload emitted by a view. */
  datatype Value =
    | Undefined
    | Num(n: int)
    | Str(s: string)
    | Arr(items: seq<Value>)
    | Obj(fields: map<string, Value>)

  datatype ResultType = Unknown | Complete

  /** A listener, named by the observer that registered it. */
  type Listener = nat

  /** One invocation `listener(data, resultType)`. */
  datatype Call = Call(listener: Listener, data: Value, resultType: ResultType)

  /** `makeTypedViewStub()`: the view together with its private state. */
  datatype ViewStub = ViewStub(listeners: seq<Listener>, destroyed: bool, data: Value)

  const NewViewStub := ViewStub([], false, Undefined)

  /** `view.addListener(l)`: appends `l` to the listener list. */
  function AddListener(v: ViewStub, l: Listener): (r: ViewStub)
    ensures r.destroyed == v.destroyed && r.data == v.data
    ensures |r.listeners| == |v.listeners| + 1
    ensures r.listeners[..|v.listeners|] == v.listeners && r.listeners[|v.listeners|] == l
    ensures multiset(r.listeners) == multiset(v.listeners) + multiset{l}
  {
    v.(listeners := v.listeners + [l])
  }

  /** `listeners.indexOf(l)`: the position of the first occurrence, or -1. */
  function IndexOf(xs: seq<Listener>, l: Listener): (r: int)
    ensures -1 <= r < |xs|
    ensures r == -1 <==> l !in xs
    ensures 0 <= r ==> xs[r] == l && forall k :: 0 <= k < r ==> xs[k] != l
  {
    if xs == [] then -1
    else if xs[0] == l then 0
    else
      var j := IndexOf(xs[1..], l);
      assert j >= 0 ==> xs[1..][..j] == xs[1..j + 1];
      if j == -1 then -1 else j + 1
  }

  /** The remover returned by `addListener(l)`: splices out the first
      occurrence of `l`, and does nothing once `l` is gone. */
  function RemoveListener(v: ViewStub, l: Listener): (r: ViewStub)
    ensures r.destroyed == v.destroyed && r.data == v.data
    ensures l !in v.listeners ==> r == v
    ensures l in v.listeners ==>
      exists i :: 0 <= i < |v.listeners| && v.listeners[i] == l && l !in v.listeners[..i]
                  && r.listeners == v.listeners[..i] + v.listeners[i + 1..]
    ensures multiset(r.listeners) == multiset(v.listeners) - multiset{l}
  {
    var i := IndexOf(v.listeners, l);
    if i == -1 then
      v
    else
      assert v.listeners == v.listeners[..i] + [l] + v.listeners[i + 1..];
      assert l !in v.listeners[..i];
      v.(listeners := v.listeners[..i] + v.listeners[i + 1..])
  }

  /** `view.destroy()`: marks the view destroyed and empties its listeners. */
  function Destroy(v: ViewStub): (r: ViewStub)
    ensures r.destroyed && r.listeners == [] && r.data == v.data
    ensures v.destroyed && v.listeners == [] ==> r == v
  {
    v.(destroyed := true, listeners := [])
  }

  /** The calls made by `for (const l of listeners) l(value, resultType)`. */
  function Notify(listeners: seq<Listener>, value: Value, rt: ResultType): (calls: seq<Call>)
    ensures |calls| == |listeners|
    ensures forall i :: 0 <= i < |listeners| ==> calls[i] == Call(listeners[i], value, rt)
  {
    if listeners == [] then []
    else [Call(listeners[0], value, rt)] + Notify(listeners[1..], value, rt)
  }

  /** `emit(value, resultType = 'complete')`: stores `value` as the view's
      data and calls every current listener, in registration order. */
  function Emit(v: ViewStub, value: Value, resultType: Option<ResultType>): (r: (ViewStub, seq<Call>))
    ensures r.0 == v.(data := value)
    ensures |r.1| == |v.listeners|
    ensures forall i :: 0 <= i < |r.1| ==>
              r.1[i].listener == v.listeners[i] && r.1[i].data == value
              && r.1[i].resultType == (if resultType.Some? then resultType.value else Complete)
  {
    (v.(data := value), Notify(v.listeners, value, resultType.GetOr(Complete)))
  }

  /** Removing a listener just added (and not registered before) restores
      the view. */
  lemma RemoveUndoesAdd(v: ViewStub, l: Listener)
    requires l !in v.listeners
    ensures RemoveListener(AddListener(v, l), l) == v
  {
    var xs := AddListener(v, l).listeners;
    assert IndexOf(xs, l) == |v.listeners| by {
      assert xs[..|v.listeners|] == v.listeners;
    }
    assert xs[..|v.listeners|] == v.listeners;
  }

  /** Adding a listener that is already registered and removing it right
      away keeps the same listeners, but moves the first copy to the end:
      the remover splices out the earliest occurrence, not the one just
      added. */
  lemma RemoveAfterDuplicateAdd(v: ViewStub, l: Listener)
    requires l in v.listeners
    ensures var r := RemoveListener(AddListener(v, l), l);
            && r.destroyed == v.destroyed && r.data == v.data
            && multiset(r.listeners) == multiset(v.listeners)
            && |r.listeners| == |v.listeners|
            && r.listeners[|r.listeners| - 1] == l
  {
    DuplicateAddEndsLast(v, l);
  }

  /** After adding a registered listener again, the remover takes out an
      earlier copy, so the one just added is still last. */
  lemma DuplicateAddEndsLast(v: ViewStub, l: Listener)
    requires l in v.listeners
    ensures var r := RemoveListener(AddListener(v, l), l);
            |r.listeners| == |v.listeners| && r.listeners[|r.listeners| - 1] == l
  {
    var xs := AddListener(v, l).listeners;
    var i := IndexOf(xs, l);
    var j :| 0 <= j < |v.listeners| && v.listeners[j] == l;
    assert xs[j] == l;
    assert i <= j;
    assert RemoveListener(AddListener(v, l), l).listeners == xs[..i] + xs[i + 1..];
  }

  /** Destroying is idempotent, and once destroyed a view delivers no
      emission to anyone, though `emit` still records the value. */
  lemma EmitAfterDestroy(v: ViewStub, value: Value, rt: Option<ResultType>)
    ensures Destroy(Destroy(v)) == Destroy(v)
    ensures Emit(Destroy(v), value, rt).1 == []
    ensures Emit(Destroy(v), value, rt).0.data == value
    ensures Emit(Destroy(v), value, rt).0.destroyed
  {
  }

  /** The operations a test can apply to one view stub. */
  datatype StubOp =
    | AddOp(l: Listener)
    | RemoveOp(l: Listener)
    | DestroyOp
    | EmitOp(value: Value, rt: Option<ResultType>)

  function Step(v: ViewStub, op: StubOp): (r: ViewStub)
    ensures r.destroyed <==> v.destroyed || op == DestroyOp
  {
    match op
    case AddOp(l) => AddListener(v, l)
    case RemoveOp(l) => RemoveListener(v, l)
    case DestroyOp => Destroy(v)
    case EmitOp(value, rt) => Emit(v, value, rt).0
  }

  function Run(v: ViewStub, ops: seq<StubOp>): (r: ViewStub)
    decreases |ops|
  {
    if ops == [] then v else Run(Step(v, ops[0]), ops[1..])
  }

  /** `destroyed` starts false, becomes true exactly through `destroy`, and
      never reverts. */
  lemma {:induction false} DestroyedNeverReverts(v: ViewStub, ops: seq<StubOp>)
    ensures Run(v, ops).destroyed <==> v.destroyed || DestroyOp in ops
    decreases |ops|
  {
    if ops != [] {
      DestroyedNeverReverts(Step(v, ops[0]), ops[1..]);
      assert DestroyOp in ops <==> ops[0] == DestroyOp || DestroyOp in ops[1..];
    }
  }

  /** One entry of `created`: the query passed to `materialize`, the userID
      of the session that asked, and the view stub handed back. */
  datatype Created = Created(query: QueryDef, user: Option<string>, tv: ViewStub)

  /** `makeZStub()`: the engine with its log of materializations. */
  datatype ZStub = ZStub(created: seq<Created>)

  /** `stub.last`: the most recently materialized view, if any. */
  function Last(z: ZStub): (r: Option<nat>)
    ensures r.None? <==> z.created == []
    ensures r.Some? ==> r.value < |z.created| && r.value + 1 == |z.created|
  {
    if z.created == [] then None else Some(|z.created| - 1)
  }

  /** `z.current.materialize(query)`: a fresh view, logged as one new entry
      of `created` and made `last`; earlier entries are untouched. */
  function Materialize(z: ZStub, q: QueryDef, user: Option<string>): (r: (ZStub, nat))
    ensures r.1 == |z.created| && |r.0.created| == |z.created| + 1
    ensures r.0.created[..|z.created|] == z.created
    ensures r.0.created[r.1] == Created(q, user, NewViewStub)
    ensures Last(r.0) == Some(r.1)
  {
    (ZStub(z.created + [Created(q, user, NewViewStub)]), |z.created|)
  }

  /** Replaces the state of view `id` (the stub's closures mutating it). */
  function WithView(z: ZStub, id: nat, tv: ViewStub): (r: ZStub)
    requires id < |z.created|
    ensures |r.created| == |z.created|
    ensures r.created[id] == z.created[id].(tv := tv)
    ensures forall i :: 0 <= i < |z.created| && i != id ==> r.created[i] == z.created[i]
  {
    ZStub(z.created[id := z.created[id].(tv := tv)])
  }
}
