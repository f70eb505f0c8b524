/** The `Query` handle: what a call site holds. Construction resolves a view
    through the store and starts a persistent observer on it; `data` and
    `details` read the view's snapshot; `updateQuery` re-resolves and moves
    the observer; `destroy` ends the observer. Svelte's `$effect` tracking
    is replaced by explicit attach/detach. */
module Query {
  import opened Wrappers
  import opened Fakes
  import opened ViewStore

  /** One `Query` instance: its current query, the userID of its session,
      the wrapper it references (`#view`) and whether its persistent
      observer is still running (`#cleanup` not yet called). */
  datatype Handle = Handle(query: QueryDef, user: Option<string>, view: Option<nat>, live: bool)

  /** The store together with every handle created so far. */
  datatype Session = Session(store: Store, handles: seq<Handle>)

  const EmptySession := Session(EmptyStore, [])

  /** Handle `h` exists and references an existing wrapper, if any. */
  predicate HandleOk(s: Session, h: nat)
  {
    h < |s.handles| && (s.handles[h].view.Some? ==> s.handles[h].view.value < |s.store.wrappers|)
  }

  /** `query.data`: the shape default while there is no view, otherwise the
      view's snapshot data. */
  function Data(s: Session, h: nat): (r: Value)
    requires HandleOk(s, h)
    ensures s.handles[h].view.None? ==> r == DefaultSnapshot(s.handles[h].query).data
    ensures s.handles[h].view.Some? ==> r == s.store.wrappers[s.handles[h].view.value].snap.data
  {
    match s.handles[h].view
    case None => if s.handles[h].query.singular then Undefined else Arr([])
    case Some(w) => s.store.wrappers[w].snap.data
  }

  /** `query.details`: `{type: 'unknown'}` while there is no view, otherwise
      the view's status. */
  function Details(s: Session, h: nat): (r: ResultType)
    requires HandleOk(s, h)
    ensures s.handles[h].view.None? ==> r == Unknown
    ensures s.handles[h].view.Some? ==> r == s.store.wrappers[s.handles[h].view.value].snap.details
  {
    match s.handles[h].view
    case None => Unknown
    case Some(w) => s.store.wrappers[w].snap.details
  }

  /** The deprecated `query.current` reports exactly what `data` reports. */
  function Current(s: Session, h: nat): (r: Value)
    requires HandleOk(s, h)
    ensures r == Data(s, h)
  {
    Data(s, h)
  }

  /** `new Query(query, z, enabled)`: resolves one view through the store and
      attaches the handle's persistent observer to it. */
  function NewQuery(s: Session, user: Option<string>, q: QueryDef, enabled: bool): (r: (Session, nat))
    requires RefsInBounds(s.store)
    ensures RefsInBounds(r.0.store)
    ensures r.1 == |s.handles| && |r.0.handles| == |s.handles| + 1
    ensures r.0.handles[..|s.handles|] == s.handles
    ensures var hd := r.0.handles[r.1];
            && hd.query == q && hd.user == user && hd.live
            && hd.view == Some(GetView(s.store, user, q, enabled).1)
    ensures r.0.store == Attach(GetView(s.store, user, q, enabled).0, GetView(s.store, user, q, enabled).1)
  {
    var (st1, w) := GetView(s.store, user, q, enabled);
    (Session(Attach(st1, w), s.handles + [Handle(q, user, Some(w), true)]), |s.handles|)
  }

  /** `query.updateQuery(newQuery, enabled)`: stores the new query and the
      store's answer for it. A running observer moves along: it attaches to
      the new view before leaving the old one, so a view both sides share
      sees no churn. Nothing else in the handle changes. */
  function UpdateQuery(s: Session, h: nat, q: QueryDef, enabled: bool): (r: Session)
    requires HandleOk(s, h) && RefsInBounds(s.store)
    ensures RefsInBounds(r.store)
    ensures |r.handles| == |s.handles|
    ensures forall g :: 0 <= g < |s.handles| && g != h ==> r.handles[g] == s.handles[g]
    ensures r.handles[h] == s.handles[h].(query := q, view := Some(GetView(s.store, s.handles[h].user, q, enabled).1))
    ensures !s.handles[h].live ==> r.store == GetView(s.store, s.handles[h].user, q, enabled).0
  {
    var hd := s.handles[h];
    var (st1, w) := GetView(s.store, hd.user, q, enabled);
    var st := if !hd.live then st1
              else
                var st2 := Attach(st1, w);
                if hd.view.Some? then Detach(st2, hd.view.value) else st2;
    Session(st, s.handles[h := hd.(query := q, view := Some(w))])
  }

  /** `query.destroy()`: ends the persistent observer, detaching it from the
      current view; a second call does nothing. */
  function DestroyQuery(s: Session, h: nat): (r: Session)
    requires HandleOk(s, h) && RefsInBounds(s.store)
    ensures RefsInBounds(r.store)
    ensures |r.handles| == |s.handles|
    ensures r.handles == s.handles[h := s.handles[h].(live := false)]
    ensures !s.handles[h].live ==> r == s
    ensures s.handles[h].live && s.handles[h].view.Some? ==> r.store == Detach(s.store, s.handles[h].view.value)
  {
    var hd := s.handles[h];
    var st := if hd.live && hd.view.Some? then Detach(s.store, hd.view.value) else s.store;
    Session(st, s.handles[h := hd.(live := false)])
  }

  /** The test's `stub.created[id].tv.emit(value, resultType)`. */
  function EmitView(s: Session, id: nat, value: Value, rt: Option<ResultType>): (r: Session)
    requires id < |s.store.engine.created|
    ensures r.handles == s.handles
    ensures r.store == Publish(s.store, id, value, rt)
    ensures RefsInBounds(s.store) ==> RefsInBounds(r.store)
  {
    Session(Publish(s.store, id, value, rt), s.handles)
  }

  // ---------------------------------------------------------------------
  // Reference counting: a wrapper's observer count is the number of running
  // handles that reference it.

  function Refs(hs: seq<Handle>, w: nat): (r: nat)
  {
    if hs == [] then 0
    else Refs(hs[..|hs| - 1], w) + Contrib(hs[|hs| - 1], w)
  }

  /** Whether handle `hd` holds a running observer on wrapper `w`. */
  function Contrib(hd: Handle, w: nat): (r: nat)
  {
    if hd.live && hd.view == Some(w) then 1 else 0
  }

  ghost predicate CountsOk(s: Session)
  {
    forall w :: 0 <= w < |s.store.wrappers| ==> s.store.wrappers[w].observers == Refs(s.handles, w)
  }

  /** Handle `h` references a wrapper kept under the handle's own key:
      its current query's hash and its session's userID. */
  ghost predicate Keyed(s: Session, h: nat)
  {
    && h < |s.handles|
    && s.handles[h].view.Some?
    && s.handles[h].view.value < |s.store.wrappers|
    && s.store.wrappers[s.handles[h].view.value].key == KeyOf(s.handles[h].query, s.handles[h].user)
  }

  ghost predicate Valid(s: Session)
  {
    && ViewStore.Valid(s.store)
    && (forall h :: 0 <= h < |s.handles| ==> s.handles[h].view.Some? && HandleOk(s, h) && Keyed(s, h))
    && CountsOk(s)
  }

  lemma RefsAppend(hs: seq<Handle>, hd: Handle, w: nat)
    ensures Refs(hs + [hd], w) == Refs(hs, w) + Contrib(hd, w)
  {
    assert (hs + [hd])[..|hs|] == hs;
  }

  /** Replacing one handle changes a wrapper's reference count by exactly what
      the old and new handle contribute to it. */
  lemma {:induction false} RefsUpdate(hs: seq<Handle>, i: nat, hd: Handle, w: nat)
    requires i < |hs|
    ensures Refs(hs[i := hd], w) == Refs(hs, w) - Contrib(hs[i], w) + Contrib(hd, w)
    ensures Refs(hs, w) >= Contrib(hs[i], w)
  {
    var n := |hs| - 1;
    var hs' := hs[i := hd];
    assert hs'[..n] == if i == n then hs[..n] else hs[..n][i := hd];
    if i < n {
      RefsUpdate(hs[..n], i, hd, w);
    }
  }

  /** A wrapper no handle references has no references. */
  lemma {:induction false} RefsUnreferenced(hs: seq<Handle>, w: nat)
    requires forall h :: 0 <= h < |hs| ==> hs[h].view != Some(w)
    ensures Refs(hs, w) == 0
  {
    if hs != [] {
      RefsUnreferenced(hs[..|hs| - 1], w);
    }
  }

  lemma EmptyValid()
    ensures Valid(EmptySession)
  {
  }

  /** Constructing a handle keeps the session invariant. */
  lemma NewQueryValid(s: Session, user: Option<string>, q: QueryDef, enabled: bool)
    requires Valid(s)
    ensures RefsInBounds(s.store)
    ensures Valid(NewQuery(s, user, q, enabled).0)
  {
    ValidRefsInBounds(s.store);
    var (st1, w) := GetView(s.store, user, q, enabled);
    GetViewValid(s.store, user, q, enabled);
    AttachValid(st1, w);
    NewQueryCounts(s, user, q, enabled);
    NewQueryHandles(s, user, q, enabled);
  }

  /** After construction each wrapper's observer count is still the number
      of running handles on it. */
  lemma NewQueryCounts(s: Session, user: Option<string>, q: QueryDef, enabled: bool)
    requires Valid(s)
    ensures RefsInBounds(s.store)
    ensures CountsOk(NewQuery(s, user, q, enabled).0)
  {
    ValidRefsInBounds(s.store);
    var (s', h) := NewQuery(s, user, q, enabled);
    var hd := s'.handles[h];
    forall u | 0 <= u < |s'.store.wrappers|
      ensures s'.store.wrappers[u].observers == Refs(s'.handles, u)
    {
      RefsAppend(s.handles, hd, u);
      if u >= |s.store.wrappers| {
        RefsUnreferenced(s.handles, u);
      }
    }
  }

  /** After construction every handle, the new one included, references a
      wrapper under its own key. */
  lemma NewQueryHandles(s: Session, user: Option<string>, q: QueryDef, enabled: bool)
    requires Valid(s)
    ensures RefsInBounds(s.store)
    ensures var s' := NewQuery(s, user, q, enabled).0;
            forall g :: 0 <= g < |s'.handles| ==> s'.handles[g].view.Some? && HandleOk(s', g) && Keyed(s', g)
  {
    ValidRefsInBounds(s.store);
    GetViewValid(s.store, user, q, enabled);
    var (s', h) := NewQuery(s, user, q, enabled);
    forall g | 0 <= g < |s'.handles| ensures s'.handles[g].view.Some? && HandleOk(s', g) && Keyed(s', g) {
      if g < |s.handles| {
        assert s'.handles[g] == s.handles[g];
        assert HandleOk(s, g) && Keyed(s, g);
      }
    }
  }

  /** A running handle's wrapper has at least one observer. */
  lemma LiveHandleObserved(s: Session, h: nat)
    requires Valid(s) && h < |s.handles| && s.handles[h].live
    ensures s.handles[h].view.Some? && s.handles[h].view.value < |s.store.wrappers|
    ensures s.store.wrappers[s.handles[h].view.value].observers >= 1
  {
    assert HandleOk(s, h);
    RefsUpdate(s.handles, h, s.handles[h], s.handles[h].view.value);
  }

  /** Re-pointing a handle keeps the session invariant. */
  lemma UpdateQueryValid(s: Session, h: nat, q: QueryDef, enabled: bool)
    requires Valid(s) && h < |s.handles|
    ensures HandleOk(s, h) && RefsInBounds(s.store)
    ensures Valid(UpdateQuery(s, h, q, enabled))
  {
    assert HandleOk(s, h);
    ValidRefsInBounds(s.store);
    UpdateStoreValid(s, h, q, enabled);
    if s.handles[h].live {
      LiveHandleObserved(s, h);
    }
    assert forall g :: 0 <= g < |s.handles| ==> HandleOk(s, g);
    UpdateCounts(s, h, q, enabled);
    UpdateHandles(s, h, q, enabled);
  }

  /** `updateQuery` keeps the store invariant. */
  lemma UpdateStoreValid(s: Session, h: nat, q: QueryDef, enabled: bool)
    requires Valid(s) && h < |s.handles|
    ensures HandleOk(s, h) && RefsInBounds(s.store)
    ensures ViewStore.Valid(UpdateQuery(s, h, q, enabled).store)
  {
    assert HandleOk(s, h);
    ValidRefsInBounds(s.store);
    var hd := s.handles[h];
    var (st1, w) := GetView(s.store, hd.user, q, enabled);
    GetViewValid(s.store, hd.user, q, enabled);
    if hd.live {
      var a := hd.view.value;
      LiveHandleObserved(s, h);
      AttachValid(st1, w);
      var st2 := Attach(st1, w);
      assert st2.wrappers[a].observers >= 1;
      DetachValid(st2, a);
    }
  }

  /** After `updateQuery` every handle still references a wrapper under its
      own key, the re-pointed one under its new query's. */
  lemma UpdateHandles(s: Session, h: nat, q: QueryDef, enabled: bool)
    requires Valid(s) && h < |s.handles|
    ensures HandleOk(s, h) && RefsInBounds(s.store)
    ensures var s' := UpdateQuery(s, h, q, enabled);
            forall g :: 0 <= g < |s'.handles| ==> s'.handles[g].view.Some? && HandleOk(s', g) && Keyed(s', g)
  {
    assert HandleOk(s, h);
    ValidRefsInBounds(s.store);
    GetViewValid(s.store, s.handles[h].user, q, enabled);
    UpdateKeepsWrappers(s, h, q, enabled);
    var s' := UpdateQuery(s, h, q, enabled);
    forall g | 0 <= g < |s'.handles| ensures s'.handles[g].view.Some? && HandleOk(s', g) && Keyed(s', g) {
      if g != h {
        assert HandleOk(s, g) && Keyed(s, g);
      }
    }
  }

  /** `updateQuery` changes no wrapper's key or snapshot: it only
      resolves, attaches and detaches. */
  lemma UpdateKeepsWrappers(s: Session, h: nat, q: QueryDef, enabled: bool)
    requires HandleOk(s, h) && RefsInBounds(s.store)
    ensures var st1 := GetView(s.store, s.handles[h].user, q, enabled).0;
            var s' := UpdateQuery(s, h, q, enabled);
            && |s'.store.wrappers| == |st1.wrappers|
            && (forall u :: 0 <= u < |st1.wrappers| ==> s'.store.wrappers[u].key == st1.wrappers[u].key)
            && (forall u :: 0 <= u < |s.store.wrappers| ==> s'.store.wrappers[u].snap == s.store.wrappers[u].snap)
  {
    var hd := s.handles[h];
    var (st1, w) := GetView(s.store, hd.user, q, enabled);
    if hd.live {
      var st2 := Attach(st1, w);
      assert forall u :: 0 <= u < |st1.wrappers| ==> st2.wrappers[u].key == st1.wrappers[u].key;
      assert forall u :: 0 <= u < |st1.wrappers| ==> st2.wrappers[u].snap == st1.wrappers[u].snap;
    }
  }

  /** After `updateQuery` every wrapper's observer count still equals the
      number of running handles that reference it. */
  lemma UpdateCounts(s: Session, h: nat, q: QueryDef, enabled: bool)
    requires h < |s.handles| && RefsInBounds(s.store) && CountsOk(s)
    requires forall g :: 0 <= g < |s.handles| ==> HandleOk(s, g)
    requires s.handles[h].live ==>
               s.handles[h].view.Some? && s.handles[h].view.value < |s.store.wrappers|
               && s.store.wrappers[s.handles[h].view.value].observers >= 1
    ensures HandleOk(s, h)
    ensures CountsOk(UpdateQuery(s, h, q, enabled))
  {
    assert HandleOk(s, h);
    var hd := s.handles[h];
    var w := GetView(s.store, hd.user, q, enabled).1;
    var s' := UpdateQuery(s, h, q, enabled);
    var hd' := hd.(query := q, view := Some(w));
    assert s'.handles == s.handles[h := hd'];
    forall u | 0 <= u < |s'.store.wrappers|
      ensures s'.store.wrappers[u].observers == Refs(s'.handles, u)
    {
      RefsUpdate(s.handles, h, hd', u);
      if u >= |s.store.wrappers| {
        forall g | 0 <= g < |s.handles| ensures s.handles[g].view != Some(u) {
          assert HandleOk(s, g);
        }
        RefsUnreferenced(s.handles, u);
      }
    }
  }

  /** Destroying a handle keeps the session invariant. */
  lemma DestroyQueryValid(s: Session, h: nat)
    requires Valid(s) && h < |s.handles|
    ensures HandleOk(s, h)
    ensures Valid(DestroyQuery(s, h))
  {
    assert HandleOk(s, h);
    var hd := s.handles[h];
    var s' := DestroyQuery(s, h);
    if hd.live {
      LiveHandleObserved(s, h);
      DetachValid(s.store, hd.view.value);
    }
    forall u | 0 <= u < |s'.store.wrappers|
      ensures s'.store.wrappers[u].observers == Refs(s'.handles, u)
    {
      RefsUpdate(s.handles, h, hd.(live := false), u);
    }
    forall g | 0 <= g < |s'.handles| ensures s'.handles[g].view.Some? && HandleOk(s', g) {
      assert HandleOk(s, g);
    }
  }

  /** An emission keeps the session invariant. */
  lemma EmitViewValid(s: Session, id: nat, value: Value, rt: Option<ResultType>)
    requires Valid(s) && id < |s.store.engine.created|
    ensures Valid(EmitView(s, id, value, rt))
  {
    ViewStore.EmitValid(s.store, id, value, rt);
    var s' := EmitView(s, id, value, rt);
    forall g | 0 <= g < |s'.handles| ensures s'.handles[g].view.Some? && HandleOk(s', g) {
      assert HandleOk(s, g);
    }
  }
}
