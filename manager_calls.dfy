/**
 * The hook loops of Manager::register_component (src/manager.hpp): which
 * hooks a component type gets, and the sequences of calls that the per-type
 * loops make over a store.
 */
module ManagerCalls {
  import opened Component
  import opened Wrappers
  import opened ComponentStore

  const DEFAULT_DEPTH: int := -9
  const NEG_INF_DEPTH: int := -0x8000_0000

  type Int32 = x: int | -0x8000_0000 <= x < 0x8000_0000

  /**
   * What the manager sees of a component: its `depth` member (read only when
   * the type has one) and the rest of its fields, kept abstract.
   */
  datatype Value = Value(depth: Int32, data: int)

  /** A registered component type: its id and which member functions it has. */
  datatype TypeInfo = TypeInfo(
    id: ComponentType,
    hasInit: bool, hasPreupdate: bool, hasUpdate: bool, hasPostupdate: bool,
    hasRender: bool, hasDepth: bool, hasCollision: bool, hasDestroyed: bool)

  /** Which of a container's eight `std::function` hooks are set. */
  datatype Hooks = Hooks(
    init: bool, preupdate: bool, update: bool, postupdate: bool,
    render: bool, collision: bool, remove: bool, destroyed: bool)

  /** The hooks registration installs: one per member function the type has, and always `remove`. */
  function RegisteredHooks(t: TypeInfo): (h: Hooks)
    ensures h.remove
    ensures h.init == t.hasInit && h.render == t.hasRender && h.destroyed == t.hasDestroyed
  {
    Hooks(t.hasInit, t.hasPreupdate, t.hasUpdate, t.hasPostupdate, t.hasRender, t.hasCollision, true, t.hasDestroyed)
  }

  /** uninitialize(): every hook reset to nullptr. */
  const NoHooks: Hooks := Hooks(false, false, false, false, false, false, false, false)

  /** A set hook always belongs to a member function the type has. */
  predicate HooksWithin(h: Hooks, t: TypeInfo)
  {
    && (h.init ==> t.hasInit) && (h.preupdate ==> t.hasPreupdate) && (h.update ==> t.hasUpdate)
    && (h.postupdate ==> t.hasPostupdate) && (h.render ==> t.hasRender)
    && (h.collision ==> t.hasCollision) && (h.destroyed ==> t.hasDestroyed)
  }

  /** The member function of a component that a hook call invokes. */
  datatype Hook = PreUpdate | Update | PostUpdate | Render | Collision(collider: Entity) | Destroyed

  /** One invocation of a component's member function, on the record with reference `ref` of type `k`. */
  datatype HookCall = HookCall(hook: Hook, k: nat, ref: nat)

  /** A call of a component's init(). */
  datatype InitCall = InitCall(k: nat, ref: nat)

  /** The draw call a render hook queues: the depth and the component it renders. */
  datatype DrawCall = DrawCall(depth: Int32, k: nat, ref: nat)

  predicate Matches(rec: Record<Value>, owner: Option<Entity>)
  {
    owner.None? || rec.entity == owner.value
  }

  /**
   * The calls that a hook's loop over the first n slots of a store makes:
   * one per record, or one per record of `owner` when there is an owner.
   */
  function SlotCalls(v: StoreView<Value>, k: nat, hook: Hook, owner: Option<Entity>, n: nat): (calls: seq<HookCall>)
    requires |v.referenceOf| == |v.records| && n <= v.Count()
    ensures |calls| <= n
    ensures forall c :: c in calls ==> c.hook == hook && c.k == k
  {
    if n == 0 then []
    else SlotCalls(v, k, hook, owner, n - 1) +
         (if Matches(v.records[n - 1], owner) then [HookCall(hook, k, v.referenceOf[n - 1])] else [])
  }

  ghost predicate AllConsistent(stores: seq<StoreView<Value>>)
  {
    forall k :: 0 <= k < |stores| ==> stores[k].Consistent()
  }

  /**
   * The calls made when the hook of every selected type runs in ascending id
   * order (the order of the registry) over the first K types.
   */
  function TypeCalls(stores: seq<StoreView<Value>>, selected: seq<bool>, hook: Hook, owner: Option<Entity>, K: nat): (calls: seq<HookCall>)
    requires AllConsistent(stores) && |selected| == |stores| && K <= |stores|
    ensures forall c :: c in calls ==> c.hook == hook && c.k < K
  {
    if K == 0 then []
    else TypeCalls(stores, selected, hook, owner, K - 1) +
         (if selected[K - 1] then SlotCalls(stores[K - 1], K - 1, hook, owner, stores[K - 1].Count()) else [])
  }

  /** A slot loop calls the hook exactly on the live references whose record matches. */
  lemma {:induction false} SlotCallsMembership(v: StoreView<Value>, k: nat, hook: Hook, owner: Option<Entity>, n: nat, r: nat)
    requires v.Consistent() && n <= v.Count()
    ensures HookCall(hook, k, r) in SlotCalls(v, k, hook, owner, n) <==>
            r < v.References() && v.componentOf[r] < n && Matches(v.records[v.componentOf[r]], owner)
  {
    if n > 0 {
      SlotCallsMembership(v, k, hook, owner, n - 1, r);
      if v.referenceOf[n - 1] == r {
        assert v.componentOf[r] == n - 1;
      }
      if r < v.References() && v.componentOf[r] == n - 1 {
        assert v.referenceOf[n - 1] == r;
      }
    }
  }

  /** A whole slot loop calls the hook exactly on the references that resolve to a matching record. */
  lemma SlotCallsResolve(v: StoreView<Value>, k: nat, hook: Hook, owner: Option<Entity>, r: nat)
    requires v.Consistent()
    ensures HookCall(hook, k, r) in SlotCalls(v, k, hook, owner, v.Count()) <==>
            v.Resolve(r).Some? && Matches(v.Resolve(r).value, owner)
  {
    SlotCallsMembership(v, k, hook, owner, v.Count(), r);
  }

  /** The per-type sweep calls the hook exactly on the live, matching references of the selected types. */
  lemma {:induction false} TypeCallsMembership(stores: seq<StoreView<Value>>, selected: seq<bool>, hook: Hook, owner: Option<Entity>, K: nat, k: nat, r: nat)
    requires AllConsistent(stores) && |selected| == |stores| && K <= |stores|
    ensures HookCall(hook, k, r) in TypeCalls(stores, selected, hook, owner, K) <==>
            k < K && selected[k] && stores[k].Resolve(r).Some? && Matches(stores[k].Resolve(r).value, owner)
  {
    if K > 0 {
      TypeCallsMembership(stores, selected, hook, owner, K - 1, k, r);
      var c := HookCall(hook, k, r);
      var rest := TypeCalls(stores, selected, hook, owner, K - 1);
      var tail := if selected[K - 1] then SlotCalls(stores[K - 1], K - 1, hook, owner, stores[K - 1].Count()) else [];
      assert TypeCalls(stores, selected, hook, owner, K) == rest + tail;
      if k == K - 1 {
        assert c !in rest;
        if selected[K - 1] {
          assert stores[K - 1].Consistent();
          SlotCallsResolve(stores[K - 1], K - 1, hook, owner, r);
        } else {
          assert tail == [];
        }
      } else {
        assert c !in tail;
        assert (k < K) == (k < K - 1);
      }
    }
  }

  /** The depth a render hook records for a component. */
  function DrawDepth(t: TypeInfo, c: Value): (d: Int32)
    ensures !t.hasDepth ==> d == DEFAULT_DEPTH
  {
    if t.hasDepth then c.depth else DEFAULT_DEPTH
  }

  /** The draw calls one store's render hook queues, for its first n slots. */
  function SlotDraws(v: StoreView<Value>, t: TypeInfo, k: nat, n: nat): (ds: seq<DrawCall>)
    requires |v.referenceOf| == |v.records| && n <= v.Count()
    ensures |ds| == n
    ensures forall j :: 0 <= j < n ==> ds[j] == DrawCall(DrawDepth(t, v.records[j].component), k, v.referenceOf[j])
  {
    if n == 0 then [] else SlotDraws(v, t, k, n - 1) + [DrawCall(DrawDepth(t, v.records[n - 1].component), k, v.referenceOf[n - 1])]
  }

  /** The draw calls the render hooks of the first K selected types queue, in ascending id order. */
  function CollectDraws(stores: seq<StoreView<Value>>, registry: seq<TypeInfo>, selected: seq<bool>, K: nat): (ds: seq<DrawCall>)
    requires AllConsistent(stores) && |selected| == |stores| && |registry| == |stores| && K <= |stores|
    ensures forall d :: d in ds ==> d.k < K
  {
    if K == 0 then []
    else CollectDraws(stores, registry, selected, K - 1) +
         (if selected[K - 1] then SlotDraws(stores[K - 1], registry[K - 1], K - 1, stores[K - 1].Count()) else [])
  }

  /** One store's render hook queues exactly one draw call per live reference. */
  lemma SlotDrawsMembership(v: StoreView<Value>, t: TypeInfo, k: nat, d: DrawCall)
    requires v.Consistent()
    ensures d in SlotDraws(v, t, k, v.Count()) <==>
            d.k == k && v.Resolve(d.ref).Some? && d.depth == DrawDepth(t, v.Resolve(d.ref).value.component)
  {
    var ds := SlotDraws(v, t, k, v.Count());
    if d in ds {
      var j :| 0 <= j < |ds| && ds[j] == d;
      assert v.componentOf[v.referenceOf[j]] == j;
    }
    if d.k == k && v.Resolve(d.ref).Some? {
      assert ds[v.componentOf[d.ref]].ref == d.ref;
    }
  }

  /** Collection queues one draw call per live component of every selected type, carrying its depth. */
  lemma {:induction false} CollectDrawsMembership(stores: seq<StoreView<Value>>, registry: seq<TypeInfo>, selected: seq<bool>, K: nat, d: DrawCall)
    requires AllConsistent(stores) && |selected| == |stores| && |registry| == |stores| && K <= |stores|
    ensures d in CollectDraws(stores, registry, selected, K) <==>
            d.k < K && selected[d.k] && stores[d.k].Resolve(d.ref).Some? &&
            d.depth == DrawDepth(registry[d.k], stores[d.k].Resolve(d.ref).value.component)
  {
    if K > 0 {
      CollectDrawsMembership(stores, registry, selected, K - 1, d);
      SlotDrawsMembership(stores[K - 1], registry[K - 1], K - 1, d);
    }
  }
}
