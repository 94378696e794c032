/**
 * The entity-component manager of src/manager.hpp and src/manager.cpp: the
 * registry of component types and their hooks, one store per type, the live
 * entity set, the deferred destruction queue, the init fixpoint and the
 * depth-ordered render pass.
 */
module Manager {
  import opened Component
  import opened Wrappers
  import opened ComponentStore
  import opened ManagerCalls
  import opened RenderOrder
  import opened ManagerInit
  import EC = EntityContainer

  // ---------------------------------------------------------------------
  // The container's remove hook, run on one store
  // ---------------------------------------------------------------------

  /** What a reference resolves to once all records of `gone` entities are removed. */
  function Surviving(rec: Option<Record<Value>>, gone: set<Entity>): (r: Option<Record<Value>>)
  {
    if rec.Some? && rec.value.entity !in gone then rec else None
  }

  /**
   * The remove hook: walks the store, removing every record of entity e
   * (without advancing, since the last record moves into the hole) and
   * stepping past all others.
   */
  method RemoveEntityRecords(v: StoreView<Value>, e: Entity) returns (w: StoreView<Value>)
    requires v.Consistent()
    ensures w.Consistent() && w.References() == v.References()
    ensures forall r :: w.Resolve(r) == Surviving(v.Resolve(r), {e})
    ensures forall r :: w.Resolve(r).Some? ==> v.Resolve(r).Some? && w.InitOf(r) == v.InitOf(r)
    ensures Done(v) ==> Done(w)
    ensures w.Count() <= v.Count()
  {
    w := v;
    var i := 0;
    while i < w.Count()
      invariant w.Consistent() && w.References() == v.References() && i <= w.Count() <= v.Count()
      invariant forall j :: 0 <= j < i ==> w.records[j].entity != e
      invariant forall r :: w.Resolve(r).Some? ==> v.Resolve(r) == w.Resolve(r) && w.InitOf(r) == v.InitOf(r)
      invariant forall r :: v.Resolve(r).Some? && v.Resolve(r).value.entity != e ==> w.Resolve(r) == v.Resolve(r)
      invariant Done(v) ==> Done(w)
      decreases w.Count() - i
    {
      if w.records[i].entity == e {
        RemoveKeepsConsistent(w, i);
        RemoveKeepsReferences(w, i);
        RemoveFrame(w, i);
        var ri := w.referenceOf[i];
        assert w.Resolve(ri) == Some(w.records[i]);
        w := RemoveSpec(w, i);
      } else {
        i := i + 1;
      }
    }
    forall r: nat ensures w.Resolve(r) == Surviving(v.Resolve(r), {e}) {
      if w.Resolve(r).Some? {
        var j := w.componentOf[r];
        assert w.records[j].entity != e;
      }
    }
  }

  /** The render calls that drawing a sequence of draw calls makes. */
  function AsRenderCalls(ds: seq<DrawCall>): (calls: seq<HookCall>)
    ensures |calls| == |ds|
    ensures forall j :: 0 <= j < |ds| ==> calls[j] == HookCall(Render, ds[j].k, ds[j].ref)
  {
    seq(|ds|, j requires 0 <= j < |ds| => HookCall(Render, ds[j].k, ds[j].ref))
  }

  /** Which types a hook loop visits: the types whose id is in the hook's id set and whose hook is set. */
  function Selected(registry: seq<TypeInfo>, hooks: seq<Hooks>, hook: Hook): (sel: seq<bool>)
    requires |hooks| == |registry|
    ensures |sel| == |registry|
  {
    seq(|registry|, k requires 0 <= k < |registry| =>
      match hook
      case PreUpdate => registry[k].hasPreupdate && hooks[k].preupdate
      case Update => registry[k].hasUpdate && hooks[k].update
      case PostUpdate => registry[k].hasPostupdate && hooks[k].postupdate
      case Render => registry[k].hasRender && hooks[k].render
      case Collision(_) => registry[k].hasCollision
      case Destroyed => registry[k].hasDestroyed && hooks[k].destroyed)
  }


  /** Whether a container's hook for the given member function is set. */
  function HookSet(h: Hooks, hook: Hook): (b: bool)
    ensures hook == Destroyed ==> b == h.destroyed
    ensures hook.Collision? ==> b == h.collision
  {
    match hook
    case PreUpdate => h.preupdate
    case Update => h.update
    case PostUpdate => h.postupdate
    case Render => h.render
    case Collision(_) => h.collision
    case Destroyed => h.destroyed
  }

  /** A selected type whose hook is not the collision hook always has its hook set. */
  lemma SelectedHookSet(registry: seq<TypeInfo>, hooks: seq<Hooks>, hook: Hook, k: nat)
    requires |hooks| == |registry| && k < |registry| && !hook.Collision?
    ensures Selected(registry, hooks, hook)[k] ==> HookSet(hooks[k], hook)
  {
  }

  /** The loop of a per-type hook over the store's slots. */
  method RunSlots(v: StoreView<Value>, k: nat, hook: Hook, owner: Option<Entity>) returns (calls: seq<HookCall>)
    requires v.Consistent()
    ensures calls == SlotCalls(v, k, hook, owner, v.Count())
  {
    calls := [];
    for i := 0 to v.Count()
      invariant calls == SlotCalls(v, k, hook, owner, i)
    {
      if Matches(v.records[i], owner) {
        calls := calls + [HookCall(hook, k, v.referenceOf[i])];
      }
    }
  }

  /** The loop of a render hook: one draw call per slot, at the component's depth or DEFAULT_DEPTH. */
  method QueueDraws(v: StoreView<Value>, t: TypeInfo, k: nat) returns (ds: seq<DrawCall>)
    requires v.Consistent()
    ensures ds == SlotDraws(v, t, k, v.Count())
  {
    ds := [];
    for i := 0 to v.Count()
      invariant ds == SlotDraws(v, t, k, i)
    {
      ds := ds + [DrawCall(DrawDepth(t, v.records[i].component), k, v.referenceOf[i])];
    }
  }

  /**
   * The loop over one hook's types on the stores: the calls it makes and the
   * position it reached, which is the first selected type whose hook is null
   * when there is one.
   */
  method SweepTypes(registry: seq<TypeInfo>, hooks: seq<Hooks>, stores: seq<StoreView<Value>>, hook: Hook, owner: Option<Entity>)
    returns (made: seq<HookCall>, stop: nat)
    requires AllConsistent(stores) && |hooks| == |registry| && |stores| == |registry|
    ensures stop <= |registry|
    ensures made == TypeCalls(stores, Selected(registry, hooks, hook), hook, owner, stop)
    ensures stop == |registry| <==> forall k :: 0 <= k < |registry| && Selected(registry, hooks, hook)[k] ==> HookSet(hooks[k], hook)
  {
    var sel := Selected(registry, hooks, hook);
    made := [];
    stop := 0;
    while stop < |registry|
      invariant stop <= |registry| && made == TypeCalls(stores, sel, hook, owner, stop)
      invariant forall j :: 0 <= j < stop && sel[j] ==> HookSet(hooks[j], hook)
    {
      if sel[stop] && !HookSet(hooks[stop], hook) {
        break;
      }
      if sel[stop] {
        var cs := RunSlots(stores[stop], stop, hook, owner);
        made := made + cs;
      }
      stop := stop + 1;
    }
  }

  /** The draw calls of one render pass, after the stable sort by descending depth. */
  function RenderQueue(registry: seq<TypeInfo>, hooks: seq<Hooks>, stores: seq<StoreView<Value>>): (q: seq<DrawCall>)
    requires AllConsistent(stores) && |hooks| == |registry| && |stores| == |registry|
    ensures SortedByDepth(q)
    ensures multiset(q) == multiset(CollectDraws(stores, registry, Selected(registry, hooks, Render), |registry|))
  {
    var queued := CollectDraws(stores, registry, Selected(registry, hooks, Render), |registry|);
    SortByDepthProperties(queued);
    SortByDepth(queued)
  }

  /** A pass queues one draw call for each live component of a type whose render hook is set, at its depth. */
  lemma RenderQueueContents(registry: seq<TypeInfo>, hooks: seq<Hooks>, stores: seq<StoreView<Value>>, d: DrawCall)
    requires AllConsistent(stores) && |hooks| == |registry| && |stores| == |registry|
    ensures d in RenderQueue(registry, hooks, stores) <==>
            d.k < |registry| && registry[d.k].hasRender && hooks[d.k].render && stores[d.k].Resolve(d.ref).Some? &&
            d.depth == DrawDepth(registry[d.k], stores[d.k].Resolve(d.ref).value.component)
  {
    var queued := CollectDraws(stores, registry, Selected(registry, hooks, Render), |registry|);
    CollectDrawsMembership(stores, registry, Selected(registry, hooks, Render), |registry|, d);
    assert d in RenderQueue(registry, hooks, stores) <==> d in multiset(queued);
  }

  /**
   * A pass with the default argument, after a pass that also had it, starts
   * from the first draw call and draws the whole queue in order.
   */
  lemma DefaultPassDrawsAll(q: seq<DrawCall>)
    requires |q| <= U64
    ensures DrawFrom(q, StartIndex(INVALID_INDEX, |q|), NEG_INF_DEPTH).drawn == q
  {
    NoCutoffDrawsAll(q, 0);
  }

  /** The identifiers in a queue. */
  function Elements(q: seq<Entity>): (s: set<Entity>)
    ensures forall e :: e in s <==> e in q
  {
    set e | e in q
  }

  /** The entities of s that are not persistent, in order. */
  function NonPersistent(s: seq<Entity>, persistent: set<Entity>): (r: seq<Entity>)
    ensures |r| <= |s|
    ensures forall e :: e in r <==> e in s && e !in persistent
  {
    if s == [] then []
    else NonPersistent(s[..|s| - 1], persistent) + (if s[|s| - 1] in persistent then [] else [s[|s| - 1]])
  }

  /** A destroyed() call that call_destroy makes for the entities in `gone`, on the stores as they were queued. */
  ghost predicate DestroyedCall(registry: seq<TypeInfo>, hooks: seq<Hooks>, stores: seq<StoreView<Value>>, gone: set<Entity>, c: HookCall)
    requires |hooks| == |registry| && |stores| == |registry|
  {
    && c.hook == Destroyed && c.k < |registry| && registry[c.k].hasDestroyed && hooks[c.k].destroyed
    && stores[c.k].Resolve(c.ref).Some? && stores[c.k].Resolve(c.ref).value.entity in gone
  }

  /** The loop of destroy_non_persistent_entities: each live entity that is not persistent is queued. */
  method QueueNonPersistent(q: seq<Entity>, live: seq<Entity>, persistent: set<Entity>) returns (q': seq<Entity>)
    ensures q' == q + NonPersistent(live, persistent)
  {
    q' := q;
    for i := 0 to |live|
      invariant q' == q + NonPersistent(live[..i], persistent)
    {
      assert live[..i + 1][..i] == live[..i];
      if live[i] !in persistent {
        q' := q' + [live[i]];
      }
    }
    assert live[..|live|] == live;
  }

  /**
   * The drawing loop of call_render from index `start`: each visited index
   * becomes the cursor, and a call shallower than `until` stops the loop.
   */
  method DrawPass(ds: seq<DrawCall>, start: nat, until: int, cursor: nat) returns (drawn: seq<DrawCall>, last: nat)
    ensures drawn == DrawFrom(ds, start, until).drawn
    ensures last == if DrawFrom(ds, start, until).lastIndex.Some? then DrawFrom(ds, start, until).lastIndex.value else cursor
  {
    drawn := [];
    last := cursor;
    if start < |ds| {
      var i := start;
      while i < |ds|
        invariant start <= i <= |ds|
        invariant forall m :: start <= m < i ==> ds[m].depth >= until
        invariant drawn == ds[start..i]
        invariant last == if i > start then i - 1 else cursor
      {
        last := i;
        if ds[i].depth < until {
          break;
        }
        drawn := drawn + [ds[i]];
        i := i + 1;
      }
      DrawFromSkip(ds, start, i, until);
    }
  }

  /** One render pass: the sorted queue of the stores, drawn from where the cursor says to start. */
  function RenderPassSpec(registry: seq<TypeInfo>, hooks: seq<Hooks>, stores: seq<StoreView<Value>>, cursor: nat, until: int): (p: Pass)
    requires AllConsistent(stores) && |hooks| == |registry| && |stores| == |registry|
  {
    var q := RenderQueue(registry, hooks, stores);
    DrawFrom(q, StartIndex(cursor, |q|), until)
  }

  /**
   * The work of call_render on the stores: the render hooks queue their draw
   * calls, the queue is sorted, and the drawing loop runs from the cursor.
   */
  method RenderPass(registry: seq<TypeInfo>, hooks: seq<Hooks>, stores: seq<StoreView<Value>>, cursor: nat, until: int)
    returns (drawn: seq<DrawCall>, last: nat)
    requires AllConsistent(stores) && |hooks| == |registry| && |stores| == |registry|
    ensures var q := RenderQueue(registry, hooks, stores);
            var p := DrawFrom(q, StartIndex(cursor, |q|), until);
            drawn == p.drawn && last == if p.lastIndex.Some? then p.lastIndex.value else cursor
    ensures var p := RenderPassSpec(registry, hooks, stores, cursor, until);
            drawn == p.drawn && last == if p.lastIndex.Some? then p.lastIndex.value else cursor
  {
    var sel := Selected(registry, hooks, Render);
    var queued: seq<DrawCall> := [];
    for k := 0 to |registry|
      invariant queued == CollectDraws(stores, registry, sel, k)
    {
      if sel[k] {
        var ds := QueueDraws(stores[k], registry[k], k);
        queued := queued + ds;
      }
    }
    // std::stable_sort by descending depth
    var ds := SortByDepth(queued);
    assert ds == RenderQueue(registry, hooks, stores);
    drawn, last := DrawPass(ds, StartIndex(cursor, |ds|), until, cursor);
  }

  /** What call_destroy has done once the entities in `gone` are processed, from stores s0, calls c0 and live set live0. */
  ghost predicate DestroyedSoFar(registry: seq<TypeInfo>, hooks: seq<Hooks>, s0: seq<StoreView<Value>>, c0: seq<HookCall>,
                                 live0: set<Entity>, gone: set<Entity>,
                                 stores: seq<StoreView<Value>>, calls: seq<HookCall>, live: set<Entity>)
    requires |hooks| == |registry| && |s0| == |registry|
  {
    && |stores| == |registry|
    && live == live0 - gone
    && (forall k, r: nat :: 0 <= k < |registry| ==> stores[k].Resolve(r) == Surviving(s0[k].Resolve(r), gone))
    && |c0| <= |calls| && calls[..|c0|] == c0
    && (forall c :: c in calls[|c0|..] <==> DestroyedCall(registry, hooks, s0, gone, c))
  }

  /** One more destroyed entity: its destroyed() calls are exactly those on its records that earlier removals left. */
  lemma DestroyedStep(registry: seq<TypeInfo>, hooks: seq<Hooks>, s0: seq<StoreView<Value>>, c0: seq<HookCall>,
                      live0: set<Entity>, gone: set<Entity>, e: Entity,
                      sA: seq<StoreView<Value>>, cA: seq<HookCall>, lA: set<Entity>,
                      sB: seq<StoreView<Value>>, cB: seq<HookCall>, lB: set<Entity>)
    requires |hooks| == |registry| && |s0| == |registry| && AllConsistent(sA)
    requires DestroyedSoFar(registry, hooks, s0, c0, live0, gone, sA, cA, lA)
    requires |sB| == |registry| && lB == lA - {e}
    requires forall k, r: nat :: 0 <= k < |registry| ==> sB[k].Resolve(r) == Surviving(sA[k].Resolve(r), {e})
    requires cB == cA + TypeCalls(sA, Selected(registry, hooks, Destroyed), Destroyed, Some(e), |registry|)
    ensures DestroyedSoFar(registry, hooks, s0, c0, live0, gone + {e}, sB, cB, lB)
  {
    var sel := Selected(registry, hooks, Destroyed);
    var chunk := TypeCalls(sA, sel, Destroyed, Some(e), |registry|);
    assert cB[|c0|..] == cA[|c0|..] + chunk;
    assert cB[..|c0|] == cA[..|c0|];
    forall c ensures c in chunk <==> DestroyedCall(registry, hooks, s0, gone + {e}, c) && !DestroyedCall(registry, hooks, s0, gone, c)
    {
      TypeCallsMembership(sA, sel, Destroyed, Some(e), |registry|, c.k, c.ref);
    }
  }

  /** ComponentReference<C>: a reference index, INVALID_INDEX when there is none. */
  datatype ComponentRef = ComponentRef(index: nat)
  {
    /** operator bool: true for every index but INVALID_INDEX, even once the component is removed. */
    predicate IsSet() { index != INVALID_INDEX }
  }

  class Manager {
    const registry: seq<TypeInfo>
    var hooks: seq<Hooks>
    var stores: seq<StoreView<Value>>
    var hasNewInit: bool
    var destroyQueue: seq<Entity>
    var drawCalls: seq<DrawCall>
    var persistent: set<Entity>
    var lastDrawCallIndex: nat
    const entityContainer: EC.EntityContainer
    /** Every init() call made so far. */
    var initLog: seq<InitCall>
    /** Every other hook call made so far, in order. */
    var calls: seq<HookCall>

    /** The invariant of the manager apart from the pending-init flag. */
    ghost predicate Core()
      reads this`hooks, this`stores, this`hasNewInit, this`initLog, this`drawCalls, entityContainer, entityContainer.entities
    {
      && |hooks| == |registry| && |stores| == |registry|
      && IdsAscending(registry)
      && AllConsistent(stores)
      && (forall k :: 0 <= k < |registry| ==> HooksWithin(hooks[k], registry[k]))
      && entityContainer.Valid()
      && InitLogged(stores, initLog)
      && drawCalls == []
    }

    /** has_new_init is clear only when no component of a type with an init hook waits for init(). */
    ghost predicate Valid()
      reads this`hooks, this`stores, this`hasNewInit, this`initLog, this`drawCalls, entityContainer, entityContainer.entities
    {
      Core() && (!hasNewInit ==> AllInitialised(stores, hooks))
    }

    function Live(): (s: set<Entity>)
      reads this`hooks, this`stores, this`hasNewInit, this`initLog, this`drawCalls, entityContainer, entityContainer.entities
      requires Valid()
    {
      entityContainer.Live()
    }

    /** Every static RegisterComponent<C> has run: each type has its hooks and an empty store. */
    constructor (registry: seq<TypeInfo>)
      requires IdsAscending(registry)
      ensures Valid() && this.registry == registry
      ensures hooks == seq(|registry|, k requires 0 <= k < |registry| => RegisteredHooks(registry[k]))
      ensures forall k :: 0 <= k < |registry| ==> stores[k].Count() == 0
      ensures hasNewInit == exists k :: 0 <= k < |registry| && registry[k].hasInit
      ensures destroyQueue == [] && persistent == {} && lastDrawCallIndex == INVALID_INDEX
      ensures Live() == {} && initLog == [] && calls == []
    {
      this.registry := registry;
      hooks := seq(|registry|, k requires 0 <= k < |registry| => RegisteredHooks(registry[k]));
      stores := seq(|registry|, k => Empty<Value>());
      hasNewInit := exists k :: 0 <= k < |registry| && registry[k].hasInit;
      destroyQueue := [];
      drawCalls := [];
      persistent := {};
      lastDrawCallIndex := INVALID_INDEX;
      entityContainer := new EC.EntityContainer();
      initLog := [];
      calls := [];
    }

    // -------------------------------------------------------------------
    // Entities
    // -------------------------------------------------------------------

    method CreateEntity() returns (res: Result<Entity, Failure>)
      requires Valid()
      modifies entityContainer, entityContainer.entities
      ensures Valid()
      ensures res.Ok? ==> res.value == old(entityContainer.previousEntityId) + 1
      ensures res.Ok? ==> res.value !in old(Live()) && Live() == old(Live()) + {res.value}
      ensures res.Err? ==> Live() == old(Live())
    {
      if entityContainer.entitiesCount >= EC.MAX_ENTITIES {
        return Err(EntityContainerFull);
      }
      if entityContainer.previousEntityId + 1 >= U64 {
        return Err(IdentifiersExhausted);
      }
      var e := entityContainer.Create();
      return Ok(e);
    }

    /** destroy_entity only queues: nothing is removed until call_destroy. */
    method DestroyEntity(e: Entity)
      requires Valid()
      modifies this
      ensures Valid()
      ensures destroyQueue == old(destroyQueue) + [e]
      ensures stores == old(stores) && Live() == old(Live()) && calls == old(calls)
    {
      destroyQueue := destroyQueue + [e];
    }

    method EntityExists(e: Entity) returns (b: bool)
      requires Valid()
      ensures b <==> e != INVALID_ENTITY && e in Live()
    {
      b := entityContainer.Contains(e);
    }

    method SetPersistent(e: Entity)
      requires Valid()
      modifies this
      ensures Valid() && persistent == old(persistent) + {e}
      ensures stores == old(stores) && destroyQueue == old(destroyQueue)
    {
      persistent := persistent + {e};
    }

    method UnsetPersistent(e: Entity)
      requires Valid()
      modifies this
      ensures Valid() && persistent == old(persistent) - {e}
      ensures stores == old(stores) && destroyQueue == old(destroyQueue)
    {
      persistent := persistent - {e};
    }

    method IsPersistent(e: Entity) returns (b: bool)
      requires Valid()
      ensures b <==> e in persistent
    {
      b := e in persistent;
    }

    // -------------------------------------------------------------------
    // Components
    // -------------------------------------------------------------------

    /**
     * add_component: the value is tagged with the entity and pushed; a type
     * with init() raises has_new_init. The result is the new reference.
     */
    method AddComponent(e: Entity, k: nat, c: Value) returns (res: Result<nat, Failure>)
      requires Core()
      modifies this
      ensures Core()
      ensures old(Valid()) ==> Valid()
      ensures hooks == old(hooks) && initLog == old(initLog) && calls == old(calls)
      ensures destroyQueue == old(destroyQueue) && persistent == old(persistent)
      ensures lastDrawCallIndex == old(lastDrawCallIndex)
      ensures res.Err? ==> stores == old(stores) && hasNewInit == old(hasNewInit)
      ensures res.Err? <==> e == INVALID_ENTITY || k >= |registry| ||
                            old(stores[k].Count()) >= MAX_COMPONENTS_PER_TYPE ||
                            old(stores[k].References()) + 1 >= INVALID_INDEX
      ensures res.Ok? ==> && res.value == old(stores[k].References())
                          && stores == old(stores)[k := PushSpec(old(stores[k]), e, c)]
                          && stores[k].Resolve(res.value) == Some(Record(e, c))
                          && hasNewInit == (old(hasNewInit) || registry[k].hasInit)
                          && FreeSlots(stores) == old(FreeSlots(stores)) - 1
    {
      var added := AddToWorld(registry, World(stores, initLog, hasNewInit), e, k, c);
      if added.Err? {
        return Err(added.error);
      }
      stores, hasNewInit := added.value.0.stores, added.value.0.hasNewInit;
      res := Ok(added.value.1);
    }

    /** add_entity: a fresh entity carrying one component. */
    method AddEntity(k: nat, c: Value) returns (res: Result<(Entity, nat), Failure>)
      requires Valid()
      modifies this, entityContainer, entityContainer.entities
      ensures Valid()
      ensures res.Ok? ==> res.value.0 !in old(Live()) && Live() == old(Live()) + {res.value.0}
      ensures res.Ok? ==> k < |stores| && stores[k].Resolve(res.value.1) == Some(Record(res.value.0, c))
    {
      var created := CreateEntity();
      if created.Err? {
        return Err(created.error);
      }
      var e := created.value;
      var added := AddComponent(e, k, c);
      if added.Err? {
        return Err(added.error);
      }
      res := Ok((e, added.value));
    }

    /** remove_component: runs the type's remove hook for the entity, if it is set. */
    method RemoveComponent(e: Entity, k: nat) returns (ok: bool)
      requires Valid()
      modifies this
      ensures Valid()
      ensures ok <==> e != INVALID_ENTITY && k < |registry|
      ensures ok && old(hooks[k].remove) ==>
                forall r :: stores[k].Resolve(r) == Surviving(old(stores[k].Resolve(r)), {e})
      ensures ok ==> forall k' :: 0 <= k' < |stores| && (k' != k || !hooks[k].remove) ==> stores[k'] == old(stores[k'])
      ensures !ok ==> stores == old(stores)
      ensures hooks == old(hooks) && calls == old(calls) && initLog == old(initLog)
    {
      if e == INVALID_ENTITY || k >= |registry| {
        return false;
      }
      if hooks[k].remove {
        var w := RemoveEntityRecords(stores[k], e);
        InitLoggedShrink(stores, initLog, k, w);
        stores := stores[k := w];
      }
      return true;
    }

    /** Whether every registered type still has its remove hook (unregister_all clears them). */
    ghost predicate RemoveHooksSet()
      reads this
    {
      forall k :: 0 <= k < |hooks| ==> hooks[k].remove
    }

    // -------------------------------------------------------------------
    // Hook loops
    // -------------------------------------------------------------------

    /**
     * A loop over the types of one hook's id set: each container's hook runs
     * over its store. The collision loop calls the hook without checking it,
     * so a null collision hook fails (std::bad_function_call); the others skip
     * a type whose hook is null.
     */
    method SweepHooks(hook: Hook, owner: Option<Entity>) returns (ok: bool)
      requires Valid()
      modifies this
      ensures Valid()
      ensures hooks == old(hooks) && stores == old(stores) && initLog == old(initLog) && hasNewInit == old(hasNewInit)
      ensures destroyQueue == old(destroyQueue) && persistent == old(persistent) && lastDrawCallIndex == old(lastDrawCallIndex)
      ensures ok <==> forall k :: 0 <= k < |registry| && Selected(registry, hooks, hook)[k] ==> HookSet(hooks[k], hook)
      ensures ok ==> calls == old(calls) + TypeCalls(stores, Selected(registry, hooks, hook), hook, owner, |registry|)
      ensures !ok ==> exists K :: 0 <= K < |registry| &&
                        calls == old(calls) + TypeCalls(stores, Selected(registry, hooks, hook), hook, owner, K)
    {
      var made, stop := SweepTypes(registry, hooks, stores, hook, owner);
      calls := calls + made;
      ok := stop == |registry|;
    }

    /** The loop of one frame phase (preupdate, update or postupdate) over its id set. */
    method CallPhase(hook: Hook)
      requires Valid() && (hook == PreUpdate || hook == Update || hook == PostUpdate)
      modifies this
      ensures Valid() && hooks == old(hooks) && stores == old(stores) && destroyQueue == old(destroyQueue)
      ensures calls == old(calls) + TypeCalls(stores, Selected(registry, hooks, hook), hook, None, |registry|)
    {
      forall k | 0 <= k < |registry| {
        SelectedHookSet(registry, hooks, hook, k);
      }
      var ok := SweepHooks(hook, None);
    }

    /**
     * The collision broadcast of Physics: every collision hook runs for the
     * components of `owner`, with `collider` as argument.
     */
    method BroadcastCollision(owner: Entity, collider: Entity) returns (ok: bool)
      requires Valid()
      modifies this
      ensures Valid() && hooks == old(hooks) && stores == old(stores) && destroyQueue == old(destroyQueue)
      ensures ok <==> forall k :: 0 <= k < |registry| && registry[k].hasCollision ==> hooks[k].collision
      ensures ok ==> calls == old(calls) + TypeCalls(stores, Selected(registry, hooks, Collision(collider)),
                                                      Collision(collider), Some(owner), |registry|)
    {
      ok := SweepHooks(Collision(collider), Some(owner));
    }

    /** unregister_all: every container's hooks reset to nullptr. */
    method UnregisterAll()
      requires Valid()
      modifies this
      ensures Valid() && stores == old(stores) && calls == old(calls) && destroyQueue == old(destroyQueue)
      ensures hooks == seq(|registry|, k => NoHooks)
    {
      hooks := seq(|registry|, k => NoHooks);
    }

    /**
     * register_component run again for type k: its hooks are installed anew;
     * a type with init() raises has_new_init and one with render() resets the
     * render cursor.
     */
    method Register(k: nat)
      requires Valid() && k < |registry|
      modifies this
      ensures Valid() && stores == old(stores) && calls == old(calls)
      ensures hooks == old(hooks)[k := RegisteredHooks(registry[k])]
      ensures hasNewInit == (old(hasNewInit) || registry[k].hasInit)
      ensures lastDrawCallIndex == if registry[k].hasRender then INVALID_INDEX else old(lastDrawCallIndex)
    {
      hooks := hooks[k := RegisteredHooks(registry[k])];
      if registry[k].hasInit {
        hasNewInit := true;
      }
      if registry[k].hasRender {
        lastDrawCallIndex := INVALID_INDEX;
      }
    }

    // -------------------------------------------------------------------
    // call_init, call_destroy, call_render
    // -------------------------------------------------------------------

    /**
     * call_init: init() runs exactly once on every component of a type with
     * an init hook, including those that other init() calls add.
     */
    method CallInit(effect: InitEffect) returns (ok: bool)
      requires Valid()
      modifies this
      ensures Core() && hooks == old(hooks) && calls == old(calls) && destroyQueue == old(destroyQueue)
      ensures old(initLog) <= initLog
      ensures ok ==> Valid() && !hasNewInit
      ensures ok ==> forall k, r: nat :: 0 <= k < |registry| && hooks[k].init && stores[k].Resolve(r).Some? ==>
                       InitCall(k, r) in initLog
    {
      var w;
      ok, w := RunInit(registry, hooks, World(stores, initLog, hasNewInit), effect);
      stores, initLog, hasNewInit := w.stores, w.initLog, w.hasNewInit;
    }

    /** The remove hooks of every type, for one entity; a null remove hook fails. */
    method RemoveFromStores(e: Entity) returns (ok: bool)
      requires Valid()
      modifies this
      ensures Valid() && hooks == old(hooks) && calls == old(calls) && initLog == old(initLog)
      ensures destroyQueue == old(destroyQueue) && persistent == old(persistent) && hasNewInit == old(hasNewInit)
      ensures lastDrawCallIndex == old(lastDrawCallIndex)
      ensures ok <==> RemoveHooksSet()
      ensures ok ==> forall k, r: nat :: 0 <= k < |registry| ==> stores[k].Resolve(r) == Surviving(old(stores[k]).Resolve(r), {e})
    {
      var ss := stores;
      var k := 0;
      while k < |registry|
        invariant k <= |registry|
        invariant |ss| == |registry| && AllConsistent(ss) && InitLogged(ss, initLog)
        invariant !hasNewInit ==> AllInitialised(ss, hooks)
        invariant forall j, r: nat :: 0 <= j < k ==> ss[j].Resolve(r) == Surviving(stores[j].Resolve(r), {e})
        invariant forall j :: k <= j < |registry| ==> ss[j] == stores[j]
        invariant forall j :: 0 <= j < k ==> hooks[j].remove
        modifies {}
      {
        if !hooks[k].remove {
          break;
        }
        var w := RemoveEntityRecords(ss[k], e);
        InitLoggedShrink(ss, initLog, k, w);
        ss := ss[k := w];
        k := k + 1;
      }
      stores := ss;
      ok := k == |registry|;
    }

    /**
     * One turn of call_destroy's loop: the front entity's components get
     * destroyed(), the remove hooks run for it, it leaves the container and
     * the queue. It fails when a remove hook is null.
     */
    method DestroyFront() returns (ok: bool)
      requires Valid() && destroyQueue != []
      modifies this, entityContainer, entityContainer.entities
      ensures Valid() && hooks == old(hooks) && persistent == old(persistent) && initLog == old(initLog)
      ensures ok <==> RemoveHooksSet()
      ensures !ok ==> destroyQueue == old(destroyQueue)
      ensures ok ==> destroyQueue == old(destroyQueue)[1..] && Live() == old(Live()) - {old(destroyQueue)[0]}
      ensures ok ==> forall k, r: nat :: 0 <= k < |registry| ==>
                       stores[k].Resolve(r) == Surviving(old(stores[k]).Resolve(r), {old(destroyQueue)[0]})
      ensures calls == old(calls) + TypeCalls(old(stores), Selected(registry, hooks, Destroyed), Destroyed,
                                               Some(old(destroyQueue)[0]), |registry|)
    {
      var e := destroyQueue[0];
      forall k | 0 <= k < |registry| {
        SelectedHookSet(registry, hooks, Destroyed, k);
      }
      var _ := SweepHooks(Destroyed, Some(e));
      ok := RemoveFromStores(e);
      if ok {
        entityContainer.Remove(e);
        destroyQueue := destroyQueue[1..];
      }
    }

    /**
     * call_destroy: for each queued entity in order, its components get
     * destroyed() and are removed from every store, and the entity leaves the
     * container. It fails when a remove hook is null.
     */
    method CallDestroy() returns (ok: bool)
      requires Valid()
      modifies this, entityContainer, entityContainer.entities
      ensures Valid() && hooks == old(hooks) && persistent == old(persistent) && initLog == old(initLog)
      ensures ok <==> old(destroyQueue) == [] || RemoveHooksSet()
      ensures ok ==> destroyQueue == [] &&
                     DestroyedSoFar(registry, hooks, old(stores), old(calls), old(Live()), Elements(old(destroyQueue)),
                                    stores, calls, Live())
    {
      ghost var q0, s0, c0, live0 := destroyQueue, stores, calls, Live();
      ghost var n := 0;
      ok := true;
      while destroyQueue != []
        invariant Valid() && hooks == old(hooks) && persistent == old(persistent) && initLog == old(initLog)
        invariant n <= |q0| && destroyQueue == q0[n..]
        invariant RemoveHooksSet() || n == 0
        invariant DestroyedSoFar(registry, hooks, s0, c0, live0, Elements(q0[..n]), stores, calls, Live())
        decreases |destroyQueue|
      {
        ghost var before, sBefore, lBefore := calls, stores, Live();
        ok := DestroyFront();
        if !ok {
          return;
        }
        DestroyedStep(registry, hooks, s0, c0, live0, Elements(q0[..n]), q0[n], sBefore, before, lBefore, stores, calls, Live());
        assert Elements(q0[..n + 1]) == Elements(q0[..n]) + {q0[n]} by {
          assert q0[..n + 1] == q0[..n] + [q0[n]];
        }
        n := n + 1;
      }
      assert q0[..n] == q0;
    }

    /**
     * destroy_non_persistent_entities: every live entity that is not
     * persistent is queued, then call_destroy runs.
     */
    method DestroyNonPersistent() returns (ok: bool)
      requires Valid()
      modifies this, entityContainer, entityContainer.entities
      ensures Valid() && persistent == old(persistent)
      ensures ok <==> old(destroyQueue) + NonPersistent(old(entityContainer.Entities()), persistent) == [] || RemoveHooksSet()
      ensures ok ==> destroyQueue == [] && Live() == (old(Live()) * persistent) - Elements(old(destroyQueue))
    {
      var q := QueueNonPersistent(destroyQueue, entityContainer.Entities(), persistent);
      ghost var live0 := Live();
      assert Elements(q) == Elements(old(destroyQueue)) + (live0 - persistent);
      destroyQueue := q;
      ok := CallDestroy();
    }

    /**
     * call_render: the render hooks queue their draw calls, which are sorted
     * by descending depth and drawn from the stored cursor until one is
     * shallower than `until`; the cursor is the last index visited, reset to
     * the largest size_t after a pass with the default argument.
     */
    method CallRender(until: Int32)
      requires Valid()
      modifies this`calls, this`lastDrawCallIndex
      ensures Valid() && hooks == old(hooks) && stores == old(stores) && initLog == old(initLog)
      ensures destroyQueue == old(destroyQueue) && persistent == old(persistent)
      ensures var p := RenderPassSpec(registry, hooks, stores, old(lastDrawCallIndex), until);
              && calls == old(calls) + AsRenderCalls(p.drawn)
              && lastDrawCallIndex == if until == NEG_INF_DEPTH then INVALID_INDEX
                                      else if p.lastIndex.Some? then p.lastIndex.value
                                      else old(lastDrawCallIndex)
    {
      var drawn, last := RenderPass(registry, hooks, stores, lastDrawCallIndex, until);
      RecordPass(drawn, last, until);
    }

    /** The end of call_render: the drawn calls are recorded and the cursor is stored, or reset after a default pass. */
    method RecordPass(drawn: seq<DrawCall>, last: nat, until: Int32)
      requires Valid()
      modifies this`calls, this`lastDrawCallIndex
      ensures Valid()
      ensures calls == old(calls) + AsRenderCalls(drawn)
      ensures lastDrawCallIndex == if until == NEG_INF_DEPTH then INVALID_INDEX else last
    {
      calls := calls + AsRenderCalls(drawn);
      lastDrawCallIndex := if until == NEG_INF_DEPTH then INVALID_INDEX else last;
    }

    // -------------------------------------------------------------------
    // Lookups
    // -------------------------------------------------------------------

    /** get_component: the reference of the first slot holding a component of e, or INVALID_INDEX. */
    method GetComponent(e: Entity, k: nat) returns (ref: ComponentRef)
      requires Valid() && k < |registry|
      ensures !ref.IsSet() <==> forall j :: 0 <= j < stores[k].Count() ==> stores[k].records[j].entity != e
      ensures ref.IsSet() ==> && stores[k].Resolve(ref.index).Some? && stores[k].Resolve(ref.index).value.entity == e
                              && forall j :: 0 <= j < stores[k].componentOf[ref.index] ==> stores[k].records[j].entity != e
    {
      var v := stores[k];
      for i := 0 to v.Count()
        invariant forall j :: 0 <= j < i ==> v.records[j].entity != e
      {
        if v.records[i].entity == e {
          return ComponentRef(v.referenceOf[i]);
        }
      }
      return ComponentRef(INVALID_INDEX);
    }

    /** get_components(entity): the slots holding a component of e. */
    method GetComponentsOf(e: Entity, k: nat) returns (slots: set<nat>)
      requires Valid() && k < |registry|
      ensures forall j :: j in slots <==> 0 <= j < stores[k].Count() && stores[k].records[j].entity == e
    {
      var v := stores[k];
      slots := {};
      for i := 0 to v.Count()
        invariant forall j :: j in slots <==> 0 <= j < i && v.records[j].entity == e
      {
        if v.records[i].entity == e {
          slots := slots + {i};
        }
      }
    }

    /** get_components(): a span over the live slots of type k. */
    function GetComponents(k: nat): (span: ComponentsSpan<Value>)
      reads this, entityContainer, entityContainer.entities
      requires Valid() && k < |registry|
      ensures span.Valid() && span.count == stores[k].Count()
      ensures forall j :: 0 <= j < span.count ==> span.At(j) == stores[k].records[j].component
    {
      var v := stores[k];
      ComponentsSpan(seq(v.Count(), j requires 0 <= j < v.Count() => v.records[j].component), v.Count())
    }

    /**
     * ComponentReference::get: requires the reference to be set and its
     * component to be live; gives the component it resolves to.
     */
    function Deref(k: nat, ref: ComponentRef): (c: Value)
      reads this, entityContainer, entityContainer.entities
      requires Valid() && k < |registry|
      requires ref.IsSet() && ref.index < |stores[k].componentOf| && stores[k].componentOf[ref.index] < stores[k].Count()
      ensures stores[k].Resolve(ref.index) == Some(Record(stores[k].records[stores[k].componentOf[ref.index]].entity, c))
    {
      stores[k].records[stores[k].componentOf[ref.index]].component
    }
  }
}
