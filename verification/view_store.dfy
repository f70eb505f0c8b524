/** The shared, reference-counted materialized-view cache behind the query
    handle. Every wrapper ever created lives in `wrappers` (its index is its
    identity); `registry` maps a (hash, userID) key to the wrapper currently
    shared under it. A wrapper materializes on its first observer and tears
    its materialization down, leaving the registry, when the last observer
    detaches. `destroys` logs every `destroy()` the store calls on a view. */
module ViewStore {
  import opened Wrappers
  import opened Fakes

  /** The cache key: the query's content hash and the session's userID. */
  datatype Key = Key(hash: string, user: Option<string>)

  function KeyOf(q: QueryDef, user: Option<string>): (r: Key)
  {
    Key(q.hash, user)
  }

  /** A result payload paired with its status (`details.type`). */
  datatype Snapshot = Snapshot(data: Value, details: ResultType)

  /** The snapshot shown before any emission: `undefined` for a singular
      query, `[]` for a plural one, status `unknown`. */
  function DefaultSnapshot(q: QueryDef): (r: Snapshot)
    ensures r.details == Unknown
    ensures q.singular ==> r.data == Undefined
    ensures !q.singular ==> r.data == Arr([])
  {
    Snapshot(if q.singular then Undefined else Arr([]), Unknown)
  }

  /** One view wrapper. `mat` is the index, in the engine's `created` log,
      of its live materialization. A disabled wrapper never materializes. */
  datatype Wrapper = Wrapper(
    key: Key,
    query: QueryDef,
    enabled: bool,
    observers: nat,
    mat: Option<nat>,
    snap: Snapshot)

  function NewWrapper(q: QueryDef, user: Option<string>, enabled: bool): (r: Wrapper)
  {
    Wrapper(KeyOf(q, user), q, enabled, 0, None, DefaultSnapshot(q))
  }

  datatype Store = Store(
    wrappers: seq<Wrapper>,
    registry: map<Key, nat>,
    engine: ZStub,
    destroys: seq<nat>)

  const EmptyStore := Store([], map[], ZStub([]), [])

  /** Registry entries refer to existing wrappers, and materializations to
      existing entries of the engine's log. */
  predicate RefsInBounds(s: Store)
  {
    && (forall k :: k in s.registry ==> s.registry[k] < |s.wrappers|)
    && (forall u :: 0 <= u < |s.wrappers| && s.wrappers[u].mat.Some? ==> s.wrappers[u].mat.value < |s.engine.created|)
  }

  /** `getView(z, query, enabled)`. A disabled request gets a fresh private
      wrapper and leaves the registry alone; an enabled one gets the wrapper
      registered under its key, registering a new one first if there is
      none. Resolution alone never calls the engine. */
  function GetView(s: Store, user: Option<string>, q: QueryDef, enabled: bool): (r: (Store, nat))
    requires RefsInBounds(s)
    ensures RefsInBounds(r.0)
    ensures r.1 < |r.0.wrappers|
    ensures r.0.engine == s.engine && r.0.destroys == s.destroys
    ensures |r.0.wrappers| == if enabled && KeyOf(q, user) in s.registry then |s.wrappers| else |s.wrappers| + 1
    ensures forall w :: 0 <= w < |s.wrappers| ==> r.0.wrappers[w] == s.wrappers[w]
    ensures !enabled ==> r.1 == |s.wrappers| && r.0.registry == s.registry
    ensures enabled ==> KeyOf(q, user) in r.0.registry && r.0.registry[KeyOf(q, user)] == r.1
    ensures enabled && KeyOf(q, user) in s.registry ==> r.0 == s
    ensures enabled && KeyOf(q, user) !in s.registry ==>
              r.1 == |s.wrappers| && r.0.registry == s.registry[KeyOf(q, user) := r.1]
    ensures r.1 == |s.wrappers| ==> r.0.wrappers[r.1] == NewWrapper(q, user, enabled)
  {
    var k := KeyOf(q, user);
    if !enabled then
      (s.(wrappers := s.wrappers + [NewWrapper(q, user, false)]), |s.wrappers|)
    else if k in s.registry then
      (s, s.registry[k])
    else
      var w := |s.wrappers|;
      (s.(wrappers := s.wrappers + [NewWrapper(q, user, true)], registry := s.registry[k := w]), w)
  }

  /** One observer starts watching wrapper `w`. The first observer of an
      enabled wrapper materializes it and registers the wrapper's listener on
      the new view; any other attach only counts. */
  function Attach(s: Store, w: nat): (r: Store)
    requires w < |s.wrappers|
    ensures |r.wrappers| == |s.wrappers| && r.registry == s.registry && r.destroys == s.destroys
    ensures RefsInBounds(s) ==> RefsInBounds(r)
    ensures r.wrappers[w].observers == s.wrappers[w].observers + 1
    ensures forall u :: 0 <= u < |s.wrappers| && u != w ==> r.wrappers[u] == s.wrappers[u]
    ensures r.wrappers[w] == s.wrappers[w].(observers := r.wrappers[w].observers, mat := r.wrappers[w].mat)
    ensures s.wrappers[w].enabled && s.wrappers[w].observers == 0 ==>
              var id := |s.engine.created|;
              && r.wrappers[w].mat == Some(id)
              && |r.engine.created| == id + 1
              && r.engine.created[..id] == s.engine.created
              && r.engine.created[id] == Created(s.wrappers[w].query, s.wrappers[w].key.user, ViewStub([w], false, Undefined))
    ensures !(s.wrappers[w].enabled && s.wrappers[w].observers == 0) ==>
              r.engine == s.engine && r.wrappers[w].mat == s.wrappers[w].mat
  {
    var x := s.wrappers[w];
    if x.enabled && x.observers == 0 then
      var (z1, id) := Materialize(s.engine, x.query, x.key.user);
      var z2 := WithView(z1, id, AddListener(z1.created[id].tv, w));
      s.(wrappers := s.wrappers[w := x.(observers := 1, mat := Some(id))], engine := z2)
    else
      s.(wrappers := s.wrappers[w := x.(observers := x.observers + 1)])
  }

  /** One observer of wrapper `w` stops watching. When the last observer of
      a materialized wrapper leaves, the wrapper removes its listener, destroys
      the view, forgets it and drops its registry entry. */
  function Detach(s: Store, w: nat): (r: Store)
    requires w < |s.wrappers| && RefsInBounds(s)
    ensures RefsInBounds(r)
    ensures |r.wrappers| == |s.wrappers| && |r.engine.created| == |s.engine.created|
    ensures forall u :: 0 <= u < |s.wrappers| && u != w ==> r.wrappers[u] == s.wrappers[u]
    ensures r.wrappers[w] == s.wrappers[w].(observers := r.wrappers[w].observers, mat := r.wrappers[w].mat)
    ensures r.wrappers[w].observers == if s.wrappers[w].observers == 0 then 0 else s.wrappers[w].observers - 1
    ensures s.wrappers[w].observers != 1 || s.wrappers[w].mat.None? ==>
              r.engine == s.engine && r.destroys == s.destroys && r.registry == s.registry
              && r.wrappers[w].mat == s.wrappers[w].mat
    ensures s.wrappers[w].observers == 1 && s.wrappers[w].mat.Some? ==>
              var id := s.wrappers[w].mat.value;
              && r.wrappers[w].mat.None?
              && r.registry == s.registry - {s.wrappers[w].key}
              && r.destroys == s.destroys + [id]
              && r.engine.created[id] == s.engine.created[id].(tv := s.engine.created[id].tv.(destroyed := true, listeners := []))
              && forall i :: 0 <= i < |s.engine.created| && i != id ==> r.engine.created[i] == s.engine.created[i]
  {
    var x := s.wrappers[w];
    if x.observers != 1 || x.mat.None? then
      s.(wrappers := s.wrappers[w := x.(observers := if x.observers == 0 then 0 else x.observers - 1)])
    else
      var id := x.mat.value;
      var tv := Destroy(RemoveListener(s.engine.created[id].tv, w));
      s.(wrappers := s.wrappers[w := x.(observers := 0, mat := None)],
         registry := s.registry - {x.key},
         engine := WithView(s.engine, id, tv),
         destroys := s.destroys + [id])
  }

  /** Call `i` is the last one made to its listener. */
  predicate FinalCall(calls: seq<Call>, i: nat)
    requires i < |calls|
  {
    forall j :: i < j < |calls| ==> calls[j].listener != calls[i].listener
  }

  /** Applies the listener calls of one emission: each called wrapper
      replaces its snapshot by the emitted value and status. */
  function Deliver(ws: seq<Wrapper>, calls: seq<Call>): (r: seq<Wrapper>)
    ensures |r| == |ws|
    ensures forall u :: 0 <= u < |ws| ==> r[u] == ws[u].(snap := r[u].snap)
    ensures forall u :: 0 <= u < |ws| && (forall c :: c in calls ==> c.listener != u) ==> r[u] == ws[u]
    ensures calls != [] && calls[|calls| - 1].listener < |ws| ==>
              var c := calls[|calls| - 1];
              r[c.listener].snap == Snapshot(c.data, c.resultType)
    decreases |calls|
  {
    if calls == [] then ws
    else
      var c := calls[0];
      var ws1 := if c.listener < |ws| then ws[c.listener := ws[c.listener].(snap := Snapshot(c.data, c.resultType))] else ws;
      assert forall c' :: c' in calls[1..] ==> c' in calls;
      Deliver(ws1, calls[1..])
  }

  /** Every wrapper an emission calls ends up with the value and status of
      the last call made to it. */
  lemma DeliverFinalCalls(ws: seq<Wrapper>, calls: seq<Call>)
    ensures forall i :: 0 <= i < |calls| && calls[i].listener < |ws| && FinalCall(calls, i) ==>
              Deliver(ws, calls)[calls[i].listener].snap == Snapshot(calls[i].data, calls[i].resultType)
  {
    forall i | 0 <= i < |calls| && calls[i].listener < |ws| && FinalCall(calls, i)
      ensures Deliver(ws, calls)[calls[i].listener].snap == Snapshot(calls[i].data, calls[i].resultType)
    {
      DeliverFinalCall(ws, calls, i);
    }
  }

  /** The wrapper named by call `i` ends up with that call's value and
      status when no later call names it. */
  lemma {:induction false} DeliverFinalCall(ws: seq<Wrapper>, calls: seq<Call>, i: nat)
    requires i < |calls| && calls[i].listener < |ws| && FinalCall(calls, i)
    ensures Deliver(ws, calls)[calls[i].listener].snap == Snapshot(calls[i].data, calls[i].resultType)
    decreases |calls|
  {
    var c := calls[0];
    var rest := calls[1..];
    var ws1 := if c.listener < |ws| then ws[c.listener := ws[c.listener].(snap := Snapshot(c.data, c.resultType))] else ws;
    if i == 0 {
      forall c' | c' in rest ensures c'.listener != c.listener {
        var j :| 0 <= j < |rest| && rest[j] == c';
        assert calls[j + 1] == c';
      }
    } else {
      assert rest[i - 1] == calls[i];
      forall j | i - 1 < j < |rest| ensures rest[j].listener != rest[i - 1].listener {
        assert rest[j] == calls[j + 1];
      }
      DeliverFinalCall(ws1, rest, i - 1);
    }
  }

  /** `emit(value, resultType)` on the engine's view `id`: the view records
      the value and every wrapper listening on it takes the new snapshot. */
  function Publish(s: Store, id: nat, value: Value, rt: Option<ResultType>): (r: Store)
    requires id < |s.engine.created|
    ensures r.registry == s.registry && r.destroys == s.destroys
    ensures |r.engine.created| == |s.engine.created|
    ensures r.engine.created[id] == s.engine.created[id].(tv := s.engine.created[id].tv.(data := value))
    ensures RefsInBounds(s) ==> RefsInBounds(r)
    ensures forall i :: 0 <= i < |s.engine.created| && i != id ==> r.engine.created[i] == s.engine.created[i]
    ensures |r.wrappers| == |s.wrappers|
    ensures forall u :: 0 <= u < |s.wrappers| ==> r.wrappers[u] == s.wrappers[u].(snap := r.wrappers[u].snap)
  {
    var (tv, calls) := Fakes.Emit(s.engine.created[id].tv, value, rt);
    s.(wrappers := Deliver(s.wrappers, calls), engine := WithView(s.engine, id, tv))
  }

  // ---------------------------------------------------------------------
  // The store's invariant

  /** Every registered wrapper exists, is enabled and carries its key. */
  ghost predicate RegistryOk(s: Store)
  {
    forall k :: k in s.registry ==>
      s.registry[k] < |s.wrappers| && s.wrappers[s.registry[k]].enabled && s.wrappers[s.registry[k]].key == k
  }

  /** A wrapper is materialized exactly when it is enabled and observed; an
      observed enabled wrapper is the one registered under its key; its live
      view was made for its own query and user and has its listener alone. */
  ghost predicate WrapperOk(s: Store, w: nat)
    requires w < |s.wrappers|
  {
    var x := s.wrappers[w];
    && x.key.hash == x.query.hash
    && (x.mat.Some? <==> x.enabled && x.observers > 0)
    && (x.enabled && x.observers > 0 ==> x.key in s.registry && s.registry[x.key] == w)
    && (x.mat.Some? ==>
          && x.mat.value < |s.engine.created|
          && s.engine.created[x.mat.value].tv.listeners == [w]
          && s.engine.created[x.mat.value].query == x.query
          && s.engine.created[x.mat.value].user == x.key.user)
  }

  /** A view is destroyed exactly when the store logged its destruction; a
      destroyed view has no listener, a live one is owned by one wrapper. */
  ghost predicate ViewOk(s: Store, i: nat)
    requires i < |s.engine.created|
  {
    var tv := s.engine.created[i].tv;
    && (tv.destroyed <==> i in s.destroys)
    && (tv.destroyed ==> tv.listeners == [])
    && (!tv.destroyed ==>
          |tv.listeners| == 1 && tv.listeners[0] < |s.wrappers| && s.wrappers[tv.listeners[0]].mat == Some(i))
  }

  ghost predicate NoDup(xs: seq<nat>)
  {
    forall a, b :: 0 <= a < b < |xs| ==> xs[a] != xs[b]
  }

  ghost predicate LogOk(s: Store)
  {
    && (forall j :: 0 <= j < |s.destroys| ==> s.destroys[j] < |s.engine.created|)
    && NoDup(s.destroys)
  }

  ghost predicate Valid(s: Store)
  {
    && RefsInBounds(s)
    && RegistryOk(s)
    && (forall w :: 0 <= w < |s.wrappers| ==> WrapperOk(s, w))
    && (forall i :: 0 <= i < |s.engine.created| ==> ViewOk(s, i))
    && LogOk(s)
  }

  /** A wrapper an observer may attach to: an enabled one must be the one
      registered under its key (a torn-down wrapper is never re-attached). */
  ghost predicate Attachable(s: Store, w: nat)
  {
    w < |s.wrappers| && (s.wrappers[w].enabled ==> s.wrappers[w].key in s.registry && s.registry[s.wrappers[w].key] == w)
  }

  /** Whether a live materialization is shared under key `k`. */
  ghost predicate Materialized(s: Store, k: Key)
  {
    k in s.registry && s.registry[k] < |s.wrappers| && s.wrappers[s.registry[k]].mat.Some?
  }

  // ---------------------------------------------------------------------
  // The invariant holds initially and every store operation keeps it

  lemma ValidRefsInBounds(s: Store)
    requires Valid(s)
    ensures RefsInBounds(s)
  {
  }

  lemma EmptyValid()
    ensures Valid(EmptyStore)
  {
  }

  /** Resolution keeps the invariant and hands back a wrapper an observer may
      attach to; a freshly made wrapper has no observer yet. */
  lemma GetViewValid(s: Store, user: Option<string>, q: QueryDef, enabled: bool)
    requires Valid(s)
    ensures RefsInBounds(s)
    ensures Valid(GetView(s, user, q, enabled).0)
    ensures Attachable(GetView(s, user, q, enabled).0, GetView(s, user, q, enabled).1)
    ensures GetView(s, user, q, enabled).0.wrappers[GetView(s, user, q, enabled).1].key == KeyOf(q, user)
  {
    var (s', w) := GetView(s, user, q, enabled);
    forall u | 0 <= u < |s'.wrappers| ensures WrapperOk(s', u) {
      if u < |s.wrappers| {
        assert WrapperOk(s, u);
      }
    }
    forall i | 0 <= i < |s'.engine.created| ensures ViewOk(s', i) {
      assert ViewOk(s, i);
    }
  }

  /** Attaching to an attachable wrapper keeps the invariant. */
  lemma AttachValid(s: Store, w: nat)
    requires Valid(s) && Attachable(s, w)
    ensures Valid(Attach(s, w))
  {
    AttachWrappersOk(s, w);
    AttachViewsOk(s, w);
  }

  /** After attaching, every wrapper still satisfies its part of the
      invariant. */
  lemma AttachWrappersOk(s: Store, w: nat)
    requires Valid(s) && Attachable(s, w)
    ensures forall u :: 0 <= u < |Attach(s, w).wrappers| ==> WrapperOk(Attach(s, w), u)
  {
    var s' := Attach(s, w);
    assert WrapperOk(s, w);
    forall u | 0 <= u < |s'.wrappers| ensures WrapperOk(s', u) {
      assert WrapperOk(s, u);
    }
  }

  /** After attaching, every engine record, the new one included, still
      satisfies its part of the invariant. */
  lemma AttachViewsOk(s: Store, w: nat)
    requires Valid(s) && Attachable(s, w)
    ensures forall i :: 0 <= i < |Attach(s, w).engine.created| ==> ViewOk(Attach(s, w), i)
  {
    var s' := Attach(s, w);
    assert WrapperOk(s, w);
    forall i | 0 <= i < |s'.engine.created| ensures ViewOk(s', i) {
      if i < |s.engine.created| {
        assert ViewOk(s, i);
        assert s'.engine.created[i] == s.engine.created[i];
      } else {
        forall j | 0 <= j < |s.destroys| ensures s.destroys[j] != i {}
      }
    }
  }

  /** Detaching an observed wrapper keeps the invariant. */
  lemma DetachValid(s: Store, w: nat)
    requires Valid(s) && w < |s.wrappers| && s.wrappers[w].observers > 0
    ensures Valid(Detach(s, w))
  {
    var x := s.wrappers[w];
    if x.observers == 1 && x.mat.Some? {
      TeardownValid(s, w);
    } else {
      ReleaseValid(s, w);
    }
  }

  /** The last observer of a materialized wrapper leaves: the teardown
      keeps the invariant. */
  lemma TeardownValid(s: Store, w: nat)
    requires Valid(s) && w < |s.wrappers|
    requires s.wrappers[w].observers == 1 && s.wrappers[w].mat.Some?
    ensures Valid(Detach(s, w))
  {
    var s' := Detach(s, w);
    var x := s.wrappers[w];
    assert WrapperOk(s, w);
    var id := x.mat.value;
    assert ViewOk(s, id);
    assert id !in s.destroys;
    assert RegistryOk(s');
    assert LogOk(s');
    forall u | 0 <= u < |s'.wrappers| ensures WrapperOk(s', u) {
      assert WrapperOk(s, u);
      if u != w && s.wrappers[u].mat.Some? {
        assert s.wrappers[u].mat.value != id;
      }
    }
    TeardownViewsOk(s, w);
  }

  /** After a teardown every view still matches the destroy log and has its
      owner's listener alone. */
  lemma TeardownViewsOk(s: Store, w: nat)
    requires Valid(s) && w < |s.wrappers|
    requires s.wrappers[w].observers == 1 && s.wrappers[w].mat.Some?
    ensures forall i :: 0 <= i < |Detach(s, w).engine.created| ==> ViewOk(Detach(s, w), i)
  {
    var s' := Detach(s, w);
    assert WrapperOk(s, w);
    var id := s.wrappers[w].mat.value;
    assert ViewOk(s, id);
    forall i | 0 <= i < |s'.engine.created| ensures ViewOk(s', i) {
      assert ViewOk(s, i);
    }
  }

  /** An observer leaves a wrapper that stays observed (or was never
      materialized): only the count moves, and the invariant holds. */
  lemma ReleaseValid(s: Store, w: nat)
    requires Valid(s) && w < |s.wrappers| && s.wrappers[w].observers > 0
    requires s.wrappers[w].observers != 1 || s.wrappers[w].mat.None?
    ensures Valid(Detach(s, w))
  {
    var s' := Detach(s, w);
    assert WrapperOk(s, w);
    forall u | 0 <= u < |s'.wrappers| ensures WrapperOk(s', u) {
      assert WrapperOk(s, u);
    }
    forall i | 0 <= i < |s'.engine.created| ensures ViewOk(s', i) {
      assert ViewOk(s, i);
    }
  }

  /** An emission keeps the invariant: it touches only data and snapshots. */
  lemma EmitValid(s: Store, id: nat, value: Value, rt: Option<ResultType>)
    requires Valid(s) && id < |s.engine.created|
    ensures Valid(Publish(s, id, value, rt))
  {
    var s' := Publish(s, id, value, rt);
    forall u | 0 <= u < |s'.wrappers| ensures WrapperOk(s', u) {
      assert WrapperOk(s, u);
    }
    forall i | 0 <= i < |s'.engine.created| ensures ViewOk(s', i) {
      assert ViewOk(s, i);
    }
  }

  // ---------------------------------------------------------------------
  // What the invariant guarantees

  /** Deduplication and isolation: two live (undestroyed) materializations
      are one and the same whenever they were made for the same hash and the
      same userID; distinct live views always differ in hash or user. */
  lemma AtMostOneLiveView(s: Store, i: nat, j: nat)
    requires Valid(s)
    requires i < |s.engine.created| && j < |s.engine.created|
    requires !s.engine.created[i].tv.destroyed && !s.engine.created[j].tv.destroyed
    requires s.engine.created[i].query.hash == s.engine.created[j].query.hash
    requires s.engine.created[i].user == s.engine.created[j].user
    ensures i == j
  {
    assert ViewOk(s, i) && ViewOk(s, j);
    var wi := s.engine.created[i].tv.listeners[0];
    var wj := s.engine.created[j].tv.listeners[0];
    assert WrapperOk(s, wi) && WrapperOk(s, wj);
    assert s.wrappers[wi].key == s.wrappers[wj].key;
  }

  /** An emission on a wrapper's live view reaches that wrapper: it now holds
      the emitted value with the emitted status (`complete` by default). */
  lemma EmitReachesWrapper(s: Store, w: nat, value: Value, rt: Option<ResultType>)
    requires Valid(s) && w < |s.wrappers| && s.wrappers[w].mat.Some?
    ensures s.wrappers[w].mat.value < |s.engine.created|
    ensures Publish(s, s.wrappers[w].mat.value, value, rt).wrappers[w].snap == Snapshot(value, rt.GetOr(Complete))
  {
    assert WrapperOk(s, w);
    var id := s.wrappers[w].mat.value;
    var (tv, calls) := Fakes.Emit(s.engine.created[id].tv, value, rt);
    assert calls == [Call(w, value, rt.GetOr(Complete))];
    assert Deliver(s.wrappers, calls[1..]) == s.wrappers;
  }

  /** An emission reaches no wrapper but the owner of the emitting view. */
  lemma EmitElsewhereUnseen(s: Store, w: nat, id: nat, value: Value, rt: Option<ResultType>)
    requires Valid(s) && w < |s.wrappers| && id < |s.engine.created|
    requires s.wrappers[w].mat != Some(id)
    ensures Publish(s, id, value, rt).wrappers[w] == s.wrappers[w]
  {
    assert ViewOk(s, id);
    var tv := s.engine.created[id].tv;
    if !tv.destroyed {
      assert tv.listeners == [tv.listeners[0]];
      assert tv.listeners[0] != w;
    }
  }

  /** An emission on a destroyed view is discarded: no wrapper changes. */
  lemma EmitAfterTeardown(s: Store, id: nat, value: Value, rt: Option<ResultType>)
    requires Valid(s)
    requires id < |s.engine.created|
    requires s.engine.created[id].tv.destroyed
    ensures Publish(s, id, value, rt).wrappers == s.wrappers
  {
    assert ViewOk(s, id);
  }

  lemma {:induction false} NoDupCount(xs: seq<nat>, x: nat)
    requires NoDup(xs) && x in xs
    ensures multiset(xs)[x] == 1
  {
    var last := xs[|xs| - 1];
    var init := xs[..|xs| - 1];
    assert xs == init + [last];
    if x == last {
      assert x !in init;
    } else {
      NoDupCount(init, x);
    }
  }

  /** A destroyed view was destroyed by the store exactly once. */
  lemma DestroyedExactlyOnce(s: Store, i: nat)
    requires Valid(s) && i < |s.engine.created| && s.engine.created[i].tv.destroyed
    ensures multiset(s.destroys)[i] == 1
  {
    assert ViewOk(s, i);
    NoDupCount(s.destroys, i);
  }
}
