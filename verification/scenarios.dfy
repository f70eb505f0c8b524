/** The cache contract the handle's scenario tests pin down, stated for all
    sessions that satisfy the invariant: deduplication, user isolation, the
    disabled bypass, shape defaults, delivery of emissions, reference-counted
    teardown and re-keying on `updateQuery`. */
module Scenarios {
  import opened Wrappers
  import opened Fakes
  import opened ViewStore
  import opened Query

  /** The materialization a running handle's wrapper currently owns. */
  ghost function LiveView(s: Session, h: nat): (r: Option<nat>)
    requires Query.Valid(s) && h < |s.handles|
  {
    assert HandleOk(s, h);
    s.store.wrappers[s.handles[h].view.value].mat
  }

  /** A running handle on an enabled view always has a live materialization,
      and that view has not been destroyed. */
  lemma LiveHandleMaterialized(s: Session, h: nat)
    requires Query.Valid(s) && h < |s.handles| && s.handles[h].live
    requires s.store.wrappers[s.handles[h].view.value].enabled
    ensures LiveView(s, h).Some?
    ensures LiveView(s, h).value < |s.store.engine.created|
    ensures !s.store.engine.created[LiveView(s, h).value].tv.destroyed
  {
    LiveHandleObserved(s, h);
    var w := s.handles[h].view.value;
    assert WrapperOk(s.store, w);
    assert ViewOk(s.store, s.store.wrappers[w].mat.value);
  }

  /** Construction calls the engine at most once: exactly when the request is
      enabled and nothing is yet materialized under its key. The new record
      is for this query and user, the rest of the log is untouched, and an
      enabled key is materialized afterwards. */
  lemma NewQueryMaterializes(s: Session, user: Option<string>, q: QueryDef, enabled: bool)
    requires Query.Valid(s)
    ensures RefsInBounds(s.store)
    ensures var s' := NewQuery(s, user, q, enabled).0;
            var n := |s.store.engine.created|;
            var isNew := enabled && !Materialized(s.store, KeyOf(q, user));
            && |s'.store.engine.created| == n + (if isNew then 1 else 0)
            && s'.store.engine.created[..n] == s.store.engine.created
            && (isNew ==> s'.store.engine.created[n].query.hash == q.hash && s'.store.engine.created[n].user == user)
            && s'.store.destroys == s.store.destroys
            && (enabled ==> Materialized(s'.store, KeyOf(q, user)))
  {
    ValidRefsInBounds(s.store);
    var k := KeyOf(q, user);
    var (st1, w) := GetView(s.store, user, q, enabled);
    GetViewValid(s.store, user, q, enabled);
    if enabled && k in s.store.registry {
      assert RegistryOk(s.store);
      assert WrapperOk(s.store, w);
    }
  }

  /** Construction attaches exactly one observer, to the resolved view, and
      leaves every other wrapper's count alone. */
  lemma NewQueryObserves(s: Session, user: Option<string>, q: QueryDef, enabled: bool)
    requires Query.Valid(s)
    ensures RefsInBounds(s.store)
    ensures var (s', h) := NewQuery(s, user, q, enabled);
            var w := s'.handles[h].view.value;
            && w < |s'.store.wrappers|
            && s'.store.wrappers[w].observers
               == (if w < |s.store.wrappers| then s.store.wrappers[w].observers else 0) + 1
            && forall u :: 0 <= u < |s.store.wrappers| && u != w ==>
                 s'.store.wrappers[u].observers == s.store.wrappers[u].observers
  {
    ValidRefsInBounds(s.store);
  }

  /** Before any emission a new handle shows the default for its query's
      shape with status `unknown`, whenever its key has no view yet (always
      for a disabled request). */
  lemma DefaultsBeforeEmission(s: Session, user: Option<string>, q: QueryDef, enabled: bool)
    requires Query.Valid(s)
    requires enabled ==> KeyOf(q, user) !in s.store.registry
    ensures RefsInBounds(s.store)
    ensures var (s', h) := NewQuery(s, user, q, enabled);
            && HandleOk(s', h)
            && Data(s', h) == (if q.singular then Undefined else Arr([]))
            && Current(s', h) == Data(s', h)
            && Details(s', h) == Unknown
  {
    NewQueryValid(s, user, q, enabled);
    var (s', h) := NewQuery(s, user, q, enabled);
    assert HandleOk(s', h);
  }

  /** After its view emits `(value, resultType)`, a running handle reports
      `value` as its data and the emitted status (`complete` by default). */
  lemma EmitReachesHandle(s: Session, h: nat, value: Value, rt: Option<ResultType>)
    requires Query.Valid(s) && h < |s.handles| && s.handles[h].live
    requires s.store.wrappers[s.handles[h].view.value].enabled
    ensures LiveView(s, h).Some? && LiveView(s, h).value < |s.store.engine.created|
    ensures var s' := EmitView(s, LiveView(s, h).value, value, rt);
            && HandleOk(s', h)
            && Data(s', h) == value
            && Current(s', h) == value
            && Details(s', h) == rt.GetOr(Complete)
  {
    LiveHandleMaterialized(s, h);
    assert HandleOk(s, h);
    EmitReachesWrapper(s.store, s.handles[h].view.value, value, rt);
  }

  /** What a handle reports changes only through its own view's emissions:
      an emission on any other view leaves its data and status alone. */
  lemma EmitElsewhereInvisible(s: Session, h: nat, id: nat, value: Value, rt: Option<ResultType>)
    requires Query.Valid(s) && h < |s.handles| && id < |s.store.engine.created|
    requires LiveView(s, h) != Some(id)
    ensures HandleOk(s, h) && HandleOk(EmitView(s, id, value, rt), h)
    ensures Data(EmitView(s, id, value, rt), h) == Data(s, h)
    ensures Details(EmitView(s, id, value, rt), h) == Details(s, h)
  {
    assert HandleOk(s, h);
    EmitElsewhereUnseen(s.store, s.handles[h].view.value, id, value, rt);
  }

  /** Another handle's construction leaves what handle `h` reports alone. */
  lemma NewQueryInvisible(s: Session, h: nat, user: Option<string>, q: QueryDef, enabled: bool)
    requires Query.Valid(s) && h < |s.handles|
    ensures RefsInBounds(s.store) && HandleOk(s, h)
    ensures var s' := NewQuery(s, user, q, enabled).0;
            && HandleOk(s', h)
            && Data(s', h) == Data(s, h)
            && Details(s', h) == Details(s, h)
  {
    assert HandleOk(s, h);
  }

  /** Re-pointing another handle leaves what handle `h` reports alone. */
  lemma UpdateElsewhereInvisible(s: Session, h: nat, g: nat, q: QueryDef, enabled: bool)
    requires Query.Valid(s) && h < |s.handles| && g < |s.handles| && g != h
    ensures RefsInBounds(s.store) && HandleOk(s, h) && HandleOk(s, g)
    ensures var s' := UpdateQuery(s, g, q, enabled);
            && HandleOk(s', h)
            && Data(s', h) == Data(s, h)
            && Details(s', h) == Details(s, h)
  {
    assert HandleOk(s, h);
    assert HandleOk(s, g);
    UpdateKeepsWrappers(s, g, q, enabled);
  }

  /** Destroying any handle, `h` itself included, leaves what `h` reports
      alone: the view's last snapshot stays readable. */
  lemma DestroyInvisible(s: Session, h: nat, g: nat)
    requires Query.Valid(s) && h < |s.handles| && g < |s.handles|
    ensures HandleOk(s, h) && HandleOk(s, g)
    ensures var s' := DestroyQuery(s, g);
            && HandleOk(s', h)
            && Data(s', h) == Data(s, h)
            && Details(s', h) == Details(s, h)
  {
    assert HandleOk(s, h);
    assert HandleOk(s, g);
  }

  /** Handles of different users never reference the same wrapper and never
      watch the same live view. */
  lemma UsersIsolated(s: Session, g: nat, h: nat)
    requires Query.Valid(s) && g < |s.handles| && h < |s.handles|
    requires s.handles[g].user != s.handles[h].user
    ensures s.handles[g].view != s.handles[h].view
    ensures LiveView(s, g).Some? ==> LiveView(s, g) != LiveView(s, h)
  {
    assert Keyed(s, g) && Keyed(s, h);
    assert HandleOk(s, g) && HandleOk(s, h);
    assert WrapperOk(s.store, s.handles[g].view.value);
    assert WrapperOk(s.store, s.handles[h].view.value);
  }

  /** A handle's live view was materialized for the handle's own userID and
      for a query with the handle's hash. */
  lemma LiveViewOwnKey(s: Session, h: nat)
    requires Query.Valid(s) && h < |s.handles|
    ensures LiveView(s, h).Some? ==>
              && LiveView(s, h).value < |s.store.engine.created|
              && s.store.engine.created[LiveView(s, h).value].user == s.handles[h].user
              && s.store.engine.created[LiveView(s, h).value].query.hash == s.handles[h].query.hash
  {
    assert Keyed(s, h) && HandleOk(s, h);
    assert WrapperOk(s.store, s.handles[h].view.value);
  }

  /** Running handles with the same key on enabled views share one wrapper. */
  lemma SameKeyShares(s: Session, g: nat, h: nat)
    requires Query.Valid(s) && g < |s.handles| && h < |s.handles|
    requires s.handles[g].live && s.handles[h].live
    requires KeyOf(s.handles[g].query, s.handles[g].user) == KeyOf(s.handles[h].query, s.handles[h].user)
    requires s.store.wrappers[s.handles[g].view.value].enabled
    requires s.store.wrappers[s.handles[h].view.value].enabled
    ensures s.handles[g].view == s.handles[h].view
  {
    LiveHandleObserved(s, g);
    LiveHandleObserved(s, h);
    assert Keyed(s, g) && Keyed(s, h);
    assert WrapperOk(s.store, s.handles[g].view.value);
    assert WrapperOk(s.store, s.handles[h].view.value);
  }

  /** Destroying a running handle releases its observer: a view it shares
      with another running observer stays alive and nothing is destroyed;
      as the last observer it destroys the view exactly once, in the engine
      and in the log, and the key leaves the registry. */
  lemma DestroyQueryReleases(s: Session, h: nat)
    requires Query.Valid(s) && h < |s.handles| && s.handles[h].live
    requires s.store.wrappers[s.handles[h].view.value].enabled
    ensures LiveView(s, h).Some? && LiveView(s, h).value < |s.store.engine.created|
    ensures HandleOk(s, h)
    ensures var w := s.handles[h].view.value;
            var id := LiveView(s, h).value;
            var s' := DestroyQuery(s, h);
            && |s'.store.engine.created| == |s.store.engine.created|
            && (s.store.wrappers[w].observers > 1 ==>
                  s'.store.engine == s.store.engine && s'.store.destroys == s.store.destroys)
            && (s.store.wrappers[w].observers == 1 ==>
                  && s'.store.engine.created[id].tv.destroyed
                  && s'.store.destroys == s.store.destroys + [id]
                  && s.store.wrappers[w].key !in s'.store.registry)
  {
    LiveHandleMaterialized(s, h);
    assert HandleOk(s, h);
  }

  // ---------------------------------------------------------------------
  // Many handles at once

  /** Constructs one handle per query in `qs`, in order, for one user. */
  function NewQueries(s: Session, user: Option<string>, qs: seq<QueryDef>, enabled: bool): (r: Session)
    requires RefsInBounds(s.store)
    ensures RefsInBounds(r.store)
    decreases |qs|
  {
    if qs == [] then s
    else NewQueries(NewQuery(s, user, qs[0], enabled).0, user, qs[1..], enabled)
  }

  /** Any number of disabled handles never call the engine, and the session
      invariant still holds. */
  lemma {:induction false} DisabledNeverMaterializes(s: Session, user: Option<string>, qs: seq<QueryDef>)
    requires Query.Valid(s)
    ensures RefsInBounds(s.store)
    ensures Query.Valid(NewQueries(s, user, qs, false))
    ensures NewQueries(s, user, qs, false).store.engine == s.store.engine
    decreases |qs|
  {
    ValidRefsInBounds(s.store);
    if qs != [] {
      NewQueryValid(s, user, qs[0], false);
      var s1 := NewQuery(s, user, qs[0], false).0;
      DisabledNeverMaterializes(s1, user, qs[1..]);
    }
  }

  /** Any number of enabled handles for one hash and one user share a single
      materialization: the engine is called once if nothing was shared under
      that key yet, and otherwise not at all. */
  lemma {:induction false} SharedKeyOneMaterialization(s: Session, user: Option<string>, qs: seq<QueryDef>)
    requires Query.Valid(s) && |qs| > 0
    requires forall i :: 0 <= i < |qs| ==> qs[i].hash == qs[0].hash
    ensures RefsInBounds(s.store)
    ensures var s' := NewQueries(s, user, qs, true);
            && Query.Valid(s')
            && Materialized(s'.store, KeyOf(qs[0], user))
            && |s'.store.engine.created| == |s.store.engine.created|
                 + (if Materialized(s.store, KeyOf(qs[0], user)) then 0 else 1)
    decreases |qs|
  {
    ValidRefsInBounds(s.store);
    NewQueryValid(s, user, qs[0], true);
    NewQueryMaterializes(s, user, qs[0], true);
    var s1 := NewQuery(s, user, qs[0], true).0;
    if |qs| > 1 {
      var rest := qs[1..];
      assert forall i :: 0 <= i < |rest| ==> rest[i].hash == rest[0].hash by {
        assert forall i :: 0 <= i < |rest| ==> rest[i] == qs[i + 1];
      }
      assert KeyOf(rest[0], user) == KeyOf(qs[0], user);
      SharedKeyOneMaterialization(s1, user, rest);
    }
  }

  // ---------------------------------------------------------------------
  // updateQuery

  /** `updateQuery` to a query with the same key (even a different query
      object) keeps the handle on the same view, calls the engine neither to
      materialize nor to destroy, and the view stays live. */
  lemma UpdateSameKeyReuses(s: Session, h: nat, q: QueryDef)
    requires Query.Valid(s) && h < |s.handles| && s.handles[h].live
    requires s.store.wrappers[s.handles[h].view.value].enabled
    requires KeyOf(q, s.handles[h].user) == s.store.wrappers[s.handles[h].view.value].key
    ensures HandleOk(s, h) && RefsInBounds(s.store)
    ensures var s' := UpdateQuery(s, h, q, true);
            && Query.Valid(s')
            && s'.handles[h] == s.handles[h].(query := q)
            && s'.store.engine == s.store.engine
            && s'.store.destroys == s.store.destroys
            && LiveView(s', h) == LiveView(s, h)
  {
    UpdateQueryValid(s, h, q, true);
    LiveHandleObserved(s, h);
    var w := s.handles[h].view.value;
    assert WrapperOk(s.store, w);
  }

  /** `updateQuery` to a new key from a view the handle alone observes:
      exactly one new materialization, for the new query and the handle's
      user, becomes the handle's live view, and the old view is destroyed. */
  lemma UpdateNewKeyRekeys(s: Session, h: nat, q: QueryDef)
    requires Query.Valid(s) && h < |s.handles| && s.handles[h].live
    requires s.store.wrappers[s.handles[h].view.value].enabled
    requires s.store.wrappers[s.handles[h].view.value].observers == 1
    requires KeyOf(q, s.handles[h].user) != s.store.wrappers[s.handles[h].view.value].key
    requires !Materialized(s.store, KeyOf(q, s.handles[h].user))
    ensures LiveView(s, h).Some? && LiveView(s, h).value < |s.store.engine.created|
    ensures HandleOk(s, h) && RefsInBounds(s.store)
    ensures var s' := UpdateQuery(s, h, q, true);
            var n := |s.store.engine.created|;
            var prev := LiveView(s, h).value;
            && Query.Valid(s')
            && |s'.store.engine.created| == n + 1
            && s'.store.engine.created[n].query.hash == q.hash
            && s'.store.engine.created[n].user == s.handles[h].user
            && LiveView(s', h) == Some(n)
            && s'.store.engine.created[prev].tv.destroyed
            && s'.store.destroys == s.store.destroys + [prev]
  {
    LiveHandleMaterialized(s, h);
    UpdateQueryValid(s, h, q, true);
    ValidRefsInBounds(s.store);
    var hd := s.handles[h];
    var a := hd.view.value;
    var k := KeyOf(q, hd.user);
    var (st1, w) := GetView(s.store, hd.user, q, true);
    GetViewValid(s.store, hd.user, q, true);
    assert w != a by {
      assert RegistryOk(st1);
    }
    if k in s.store.registry {
      assert WrapperOk(s.store, w);
    }
    assert st1.wrappers[w].observers == 0;
  }

  /** `updateQuery(q, false)` on a view the handle alone observes destroys it
      without materializing anything; `updateQuery(q, true)` afterwards
      creates one fresh, live view for the same key. */
  lemma DisableThenEnable(s: Session, h: nat, q: QueryDef)
    requires Query.Valid(s) && h < |s.handles| && s.handles[h].live
    requires s.store.wrappers[s.handles[h].view.value].enabled
    requires s.store.wrappers[s.handles[h].view.value].observers == 1
    requires KeyOf(q, s.handles[h].user) == s.store.wrappers[s.handles[h].view.value].key
    ensures LiveView(s, h).Some? && LiveView(s, h).value < |s.store.engine.created|
    ensures HandleOk(s, h) && RefsInBounds(s.store)
    ensures var s1 := UpdateQuery(s, h, q, false);
            var n := |s.store.engine.created|;
            && Query.Valid(s1)
            && |s1.store.engine.created| == n
            && s1.store.engine.created[LiveView(s, h).value].tv.destroyed
            && LiveView(s1, h).None?
            && HandleOk(s1, h) && RefsInBounds(s1.store)
            && var s2 := UpdateQuery(s1, h, q, true);
               && Query.Valid(s2)
               && |s2.store.engine.created| == n + 1
               && LiveView(s2, h) == Some(n)
               && !s2.store.engine.created[n].tv.destroyed
  {
    LiveHandleMaterialized(s, h);
    UpdateQueryValid(s, h, q, false);
    ValidRefsInBounds(s.store);
    var hd := s.handles[h];
    var k := KeyOf(q, hd.user);
    var (st1, w) := GetView(s.store, hd.user, q, false);
    var s1 := UpdateQuery(s, h, q, false);
    assert WrapperOk(s.store, hd.view.value);
    assert k !in s1.store.registry;
    UpdateQueryValid(s1, h, q, true);
    LiveHandleMaterialized(UpdateQuery(s1, h, q, true), h);
  }

  /** After `updateQuery` to a new key, emissions from the new view reach
      the handle. */
  lemma ResubscribeAfterRekey(s: Session, h: nat, q: QueryDef, value: Value)
    requires Query.Valid(s) && h < |s.handles| && s.handles[h].live
    requires s.store.wrappers[s.handles[h].view.value].enabled
    requires s.store.wrappers[s.handles[h].view.value].observers == 1
    requires KeyOf(q, s.handles[h].user) != s.store.wrappers[s.handles[h].view.value].key
    requires !Materialized(s.store, KeyOf(q, s.handles[h].user))
    ensures HandleOk(s, h) && RefsInBounds(s.store)
    ensures var s' := UpdateQuery(s, h, q, true);
            var n := |s.store.engine.created|;
            && n < |s'.store.engine.created|
            && HandleOk(EmitView(s', n, value, Some(Complete)), h)
            && Data(EmitView(s', n, value, Some(Complete)), h) == value
            && Details(EmitView(s', n, value, Some(Complete)), h) == Complete
  {
    UpdateNewKeyRekeys(s, h, q);
    var s' := UpdateQuery(s, h, q, true);
    LiveHandleObserved(s', h);
    assert WrapperOk(s'.store, s'.handles[h].view.value);
    EmitReachesHandle(s', h, value, Some(Complete));
  }

  /** After `updateQuery` to the same key, emissions from the same view
      still reach the handle. */
  lemma EmissionsSurviveSameKeyUpdate(s: Session, h: nat, q: QueryDef, value: Value)
    requires Query.Valid(s) && h < |s.handles| && s.handles[h].live
    requires s.store.wrappers[s.handles[h].view.value].enabled
    requires KeyOf(q, s.handles[h].user) == s.store.wrappers[s.handles[h].view.value].key
    ensures HandleOk(s, h) && RefsInBounds(s.store)
    ensures LiveView(s, h).Some? && LiveView(s, h).value < |s.store.engine.created|
    ensures var s' := UpdateQuery(s, h, q, true);
            var id := LiveView(s, h).value;
            && HandleOk(EmitView(s', id, value, Some(Complete)), h)
            && Data(EmitView(s', id, value, Some(Complete)), h) == value
            && Details(EmitView(s', id, value, Some(Complete)), h) == Complete
  {
    LiveHandleMaterialized(s, h);
    UpdateSameKeyReuses(s, h, q);
    var s' := UpdateQuery(s, h, q, true);
    EmitReachesHandle(s', h, value, Some(Complete));
  }

  // ---------------------------------------------------------------------
  // The scenario tests, from a fresh session

  /** Two hosts with the same userID and the same hash: one materialization,
      shared by both handles. */
  lemma TwoHostsShareOne(user: Option<string>, q1: QueryDef, q2: QueryDef)
    requires q1.hash == q2.hash
    ensures var (s1, h1) := NewQuery(EmptySession, user, q1, true);
            var (s2, h2) := NewQuery(s1, user, q2, true);
            && |s2.store.engine.created| == 1
            && s2.handles[h1].view == s2.handles[h2].view
  {
    Query.EmptyValid();
    var (s1, h1) := NewQuery(EmptySession, user, q1, true);
    NewQueryMaterializes(EmptySession, user, q1, true);
    NewQueryValid(EmptySession, user, q1, true);
    NewQueryMaterializes(s1, user, q2, true);
    assert KeyOf(q1, user) == KeyOf(q2, user);
  }

  /** The same hash under two different userIDs: two materializations, one
      per user, on two different views. */
  lemma UsersNeverShare(u1: Option<string>, u2: Option<string>, q: QueryDef)
    requires u1 != u2
    ensures var (s1, h1) := NewQuery(EmptySession, u1, q, true);
            var (s2, h2) := NewQuery(s1, u2, q, true);
            && |s2.store.engine.created| == 2
            && s2.store.engine.created[0].user == u1
            && s2.store.engine.created[1].user == u2
            && s2.handles[h1].view != s2.handles[h2].view
  {
    Query.EmptyValid();
    var (s1, h1) := NewQuery(EmptySession, u1, q, true);
    NewQueryMaterializes(EmptySession, u1, q, true);
    NewQueryValid(EmptySession, u1, q, true);
    NewQueryMaterializes(s1, u2, q, true);
  }

  /** A view shared by two hosts survives the first unmount and is destroyed,
      exactly once, by the second. */
  lemma SharedViewOutlivesFirstHost(user: Option<string>, q: QueryDef)
    ensures var (s1, h1) := NewQuery(EmptySession, user, q, true);
            var (s2, h2) := NewQuery(s1, user, q, true);
            var s3 := DestroyQuery(s2, h1);
            var s4 := DestroyQuery(s3, h2);
            && |s2.store.engine.created| == 1
            && !s3.store.engine.created[0].tv.destroyed
            && s4.store.engine.created[0].tv.destroyed
            && multiset(s4.store.destroys)[0] == 1
  {
    Query.EmptyValid();
    var (s1, h1) := NewQuery(EmptySession, user, q, true);
    NewQueryValid(EmptySession, user, q, true);
    var (s2, h2) := NewQuery(s1, user, q, true);
    NewQueryValid(s1, user, q, true);
    TwoHostsShareOne(user, q, q);
    var w := s2.handles[h1].view.value;
    assert s2.store.wrappers[w].observers == 2 by {
      assert Refs(s2.handles, w) == 2;
    }
    DestroyQueryReleases(s2, h1);
    DestroyQueryValid(s2, h1);
    var s3 := DestroyQuery(s2, h1);
    assert s3.store.wrappers[w].observers == 1;
    DestroyQueryReleases(s3, h2);
    DestroyQueryValid(s3, h2);
    DestroyedExactlyOnce(DestroyQuery(s3, h2).store, 0);
  }
}
