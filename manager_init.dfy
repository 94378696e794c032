/**
 * The init fixpoint of Manager::call_init and the init hook installed by
 * Manager::register_component (src/manager.hpp), on the manager's stores as
 * values, together with add_component on those stores.
 */
module ManagerInit {
  import opened Component
  import opened Wrappers
  import opened ComponentStore
  import opened ManagerCalls

  /** The ways an operation of the manager stops short (a failed assertion or a call through an empty hook). */
  datatype Failure =
    | InvalidEntity        // add_component on INVALID_ENTITY
    | UnregisteredType     // the type's container was never registered
    | CapacityExceeded     // a store already holds MAX_COMPONENTS_PER_TYPE components
    | EntityContainerFull  // 4096 entities are live
    | IdentifiersExhausted // the next entity identifier would leave 64 bits
    | MissingHook          // a std::function hook that is nullptr was called

  /** A component type's additions made by one component's init(): (type position, value) pairs, all for its own entity. */
  type InitEffect = (nat, Value) -> seq<(nat, Value)>

  /** The component types in ascending id order: the order in which every std::set of ids is walked. */
  ghost predicate IdsAscending(registry: seq<TypeInfo>)
  {
    forall a, b :: 0 <= a < b < |registry| ==> registry[a].id < registry[b].id
  }

  /** Free slots over all stores: every successful add_component consumes one. */
  function FreeSlots(stores: seq<StoreView<Value>>): (n: nat)
  {
    if stores == [] then 0
    else (if stores[0].Count() <= MAX_COMPONENTS_PER_TYPE then MAX_COMPONENTS_PER_TYPE - stores[0].Count() else 0)
         + FreeSlots(stores[1..])
  }

  lemma {:induction false} FreeSlotsPush(stores: seq<StoreView<Value>>, k: nat, e: Entity, c: Value)
    requires k < |stores| && stores[k].Count() < MAX_COMPONENTS_PER_TYPE
    ensures FreeSlots(stores[k := PushSpec(stores[k], e, c)]) == FreeSlots(stores) - 1
  {
    var t := stores[k := PushSpec(stores[k], e, c)];
    if k == 0 {
      assert t[1..] == stores[1..];
    } else {
      FreeSlotsPush(stores[1..], k - 1, e, c);
      assert t[1..] == stores[1..][k - 1 := PushSpec(stores[k], e, c)];
    }
  }

  lemma {:induction false} FreeSlotsReplace(stores: seq<StoreView<Value>>, k: nat, w: StoreView<Value>)
    requires k < |stores| && w.Count() <= stores[k].Count() <= MAX_COMPONENTS_PER_TYPE
    ensures FreeSlots(stores[k := w]) >= FreeSlots(stores)
    ensures w.Count() == stores[k].Count() ==> FreeSlots(stores[k := w]) == FreeSlots(stores)
  {
    var t := stores[k := w];
    if k == 0 {
      assert t[1..] == stores[1..];
    } else {
      FreeSlotsReplace(stores[1..], k - 1, w);
      assert t[1..] == stores[1..][k - 1 := w];
    }
  }

  ghost predicate NoDuplicates<T>(s: seq<T>)
  {
    forall i, j :: 0 <= i < j < |s| ==> s[i] != s[j]
  }

  /**
   * The init log agrees with the init flags: each logged call names a
   * reference that was handed out, a live component's flag is set exactly
   * when its init() is in the log, and no init() is logged twice.
   */
  ghost predicate InitLogged(stores: seq<StoreView<Value>>, initLog: seq<InitCall>)
    requires AllConsistent(stores)
  {
    && (forall c :: c in initLog ==> c.k < |stores| && c.ref < stores[c.k].References())
    && (forall k, r :: 0 <= k < |stores| && stores[k].Resolve(r).Some? ==>
          (stores[k].InitOf(r) <==> InitCall(k, r) in initLog))
    && NoDuplicates(initLog)
  }

  /** Every live component of the store has had init() called. */
  ghost predicate Done(v: StoreView<Value>)
  {
    forall j :: 0 <= j < |v.initCalled| ==> v.initCalled[j]
  }

  /** Every type whose init hook is set has no component waiting for init(). */
  ghost predicate AllInitialised(stores: seq<StoreView<Value>>, hooks: seq<Hooks>)
    requires |hooks| == |stores|
  {
    forall k :: 0 <= k < |stores| && hooks[k].init ==> Done(stores[k])
  }

  /** Replacing a store by one whose references resolve to a subset, with the same flags, keeps the log invariant. */
  lemma InitLoggedShrink(stores: seq<StoreView<Value>>, initLog: seq<InitCall>, k: nat, w: StoreView<Value>)
    requires AllConsistent(stores) && InitLogged(stores, initLog) && k < |stores| && w.Consistent()
    requires w.References() == stores[k].References()
    requires forall r :: w.Resolve(r).Some? ==> stores[k].Resolve(r) == w.Resolve(r) && w.InitOf(r) == stores[k].InitOf(r)
    ensures AllConsistent(stores[k := w]) && InitLogged(stores[k := w], initLog)
  {
    var t := stores[k := w];
    forall k', r | 0 <= k' < |t| && t[k'].Resolve(r).Some?
      ensures t[k'].InitOf(r) <==> InitCall(k', r) in initLog
    {
      if k' == k {
        assert stores[k].Resolve(r).Some?;
      }
    }
  }

  lemma InitLoggedPush(stores: seq<StoreView<Value>>, initLog: seq<InitCall>, k: nat, e: Entity, c: Value)
    requires AllConsistent(stores) && InitLogged(stores, initLog) && k < |stores|
    requires stores[k].Count() < MAX_COMPONENTS_PER_TYPE && stores[k].References() + 1 < INVALID_INDEX
    ensures AllConsistent(stores[k := PushSpec(stores[k], e, c)])
    ensures InitLogged(stores[k := PushSpec(stores[k], e, c)], initLog)
  {
    var v := stores[k];
    PushKeepsReferences(v, e, c);
    var t := stores[k := PushSpec(v, e, c)];
    forall k', r | 0 <= k' < |t| && t[k'].Resolve(r).Some?
      ensures t[k'].InitOf(r) <==> InitCall(k', r) in initLog
    {
      if k' == k && r == v.References() {
        assert InitCall(k, r) !in initLog;
      }
    }
  }

  lemma InitLoggedMark(stores: seq<StoreView<Value>>, initLog: seq<InitCall>, k: nat, i: nat)
    requires AllConsistent(stores) && InitLogged(stores, initLog) && k < |stores|
    requires i < stores[k].Count() && !stores[k].initCalled[i]
    ensures AllConsistent(stores[k := SetInitSpec(stores[k], i)])
    ensures InitLogged(stores[k := SetInitSpec(stores[k], i)], initLog + [InitCall(k, stores[k].referenceOf[i])])
  {
    var v := stores[k];
    var r0 := v.referenceOf[i];
    SetInitCalledKeepsReferences(v, i);
    assert v.Resolve(r0).Some? && !v.InitOf(r0);
    assert InitCall(k, r0) !in initLog;
    var t := stores[k := SetInitSpec(v, i)];
    var log := initLog + [InitCall(k, r0)];
    forall a, b | 0 <= a < b < |log| ensures log[a] != log[b] {
      if b == |initLog| { assert log[a] in initLog; }
    }
    forall k', r | 0 <= k' < |t| && t[k'].Resolve(r).Some?
      ensures t[k'].InitOf(r) <==> InitCall(k', r) in log
    {
    }
  }



  /** Flags only go from false to true and slots are only appended. */
  ghost predicate Extends(v: StoreView<Value>, w: StoreView<Value>)
  {
    && |v.initCalled| <= |w.initCalled|
    && (forall j :: 0 <= j < |v.initCalled| && v.initCalled[j] ==> w.initCalled[j])
  }

  /** The parts of the manager that call_init and add_component change. */
  datatype World = World(stores: seq<StoreView<Value>>, initLog: seq<InitCall>, hasNewInit: bool)

  ghost predicate WorldOk(registry: seq<TypeInfo>, w: World)
  {
    |w.stores| == |registry| && AllConsistent(w.stores) && InitLogged(w.stores, w.initLog)
  }

  /**
   * What may happen between two states during call_init: stores only grow
   * and flags are only set, the init log only grows, a store of a type with
   * init() only grows when has_new_init is raised, and has_new_init is only
   * raised by consuming a free slot.
   */
  ghost predicate Progress(registry: seq<TypeInfo>, a: World, b: World)
  {
    && |a.stores| == |registry| && |b.stores| == |registry|
    && a.initLog <= b.initLog
    && (forall k :: 0 <= k < |registry| ==> Extends(a.stores[k], b.stores[k]))
    && (forall k :: (0 <= k < |registry| && registry[k].hasInit &&
                     |b.stores[k].initCalled| > |a.stores[k].initCalled|) ==> b.hasNewInit)
    && (a.hasNewInit ==> b.hasNewInit)
    && FreeSlots(b.stores) <= FreeSlots(a.stores)
    && (b.hasNewInit ==> a.hasNewInit || FreeSlots(b.stores) < FreeSlots(a.stores))
  }

  lemma ProgressTransitive(registry: seq<TypeInfo>, a: World, b: World, c: World)
    requires Progress(registry, a, b) && Progress(registry, b, c)
    ensures Progress(registry, a, c)
  {
    forall k | (0 <= k < |registry| && registry[k].hasInit &&
                |c.stores[k].initCalled| > |a.stores[k].initCalled|)
      ensures c.hasNewInit
    {
      if |b.stores[k].initCalled| > |a.stores[k].initCalled| {
        assert b.hasNewInit;
      }
    }
  }

  /** A type whose components were all initialised stays so, unless has_new_init was raised. */
  lemma ProgressKeepsDone(registry: seq<TypeInfo>, a: World, b: World, k: nat)
    requires Progress(registry, a, b) && k < |registry| && registry[k].hasInit && Done(a.stores[k])
    requires |a.stores[k].initCalled| == a.stores[k].Count() && |b.stores[k].initCalled| == b.stores[k].Count()
    ensures Done(b.stores[k]) || b.hasNewInit
  {
    if !b.hasNewInit {
      assert |b.stores[k].initCalled| == |a.stores[k].initCalled|;
    }
  }

  /**
   * add_component on the stores: the checks of its assertions, then the push
   * and, for a type with init(), raising has_new_init.
   */
  function AddToWorld(registry: seq<TypeInfo>, w: World, e: Entity, k: nat, c: Value): (res: Result<(World, nat), Failure>)
    requires WorldOk(registry, w)
    ensures res.Err? <==> e == INVALID_ENTITY || k >= |registry| ||
                          w.stores[k].Count() >= MAX_COMPONENTS_PER_TYPE ||
                          w.stores[k].References() + 1 >= INVALID_INDEX
    ensures res.Ok? ==> var (w', r) := res.value;
              && WorldOk(registry, w') && Progress(registry, w, w')
              && w'.stores == w.stores[k := PushSpec(w.stores[k], e, c)]
              && w'.initLog == w.initLog
              && w'.hasNewInit == (w.hasNewInit || registry[k].hasInit)
              && r == w.stores[k].References()
              && w'.stores[k].Resolve(r) == Some(Record(e, c))
              && FreeSlots(w'.stores) == FreeSlots(w.stores) - 1
  {
    if e == INVALID_ENTITY then Err(InvalidEntity)
    else if k >= |registry| then Err(UnregisteredType)
    else if w.stores[k].Count() >= MAX_COMPONENTS_PER_TYPE || w.stores[k].References() + 1 >= INVALID_INDEX then
      Err(CapacityExceeded)
    else
      InitLoggedPush(w.stores, w.initLog, k, e, c);
      FreeSlotsPush(w.stores, k, e, c);
      PushKeepsReferences(w.stores[k], e, c);
      var w' := World(w.stores[k := PushSpec(w.stores[k], e, c)], w.initLog, w.hasNewInit || registry[k].hasInit);
      assert forall j :: 0 <= j < |registry| ==> Extends(w.stores[j], w'.stores[j]);
      Ok((w', w.stores[k].References()))
  }

  /** init() on slot i of type k: it is logged and the slot is marked. */
  function Mark(w: World, k: nat, i: nat): (w': World)
    requires k < |w.stores| && i < |w.stores[k].referenceOf| && i < |w.stores[k].initCalled|
  {
    World(w.stores[k := SetInitSpec(w.stores[k], i)], w.initLog + [InitCall(k, w.stores[k].referenceOf[i])], w.hasNewInit)
  }

  lemma MarkProgress(registry: seq<TypeInfo>, w: World, k: nat, i: nat)
    requires WorldOk(registry, w) && k < |w.stores| && i < w.stores[k].Count() && !w.stores[k].initCalled[i]
    ensures WorldOk(registry, Mark(w, k, i)) && Progress(registry, w, Mark(w, k, i))
    ensures Mark(w, k, i).stores[k].initCalled[i]
  {
    InitLoggedMark(w.stores, w.initLog, k, i);
    FreeSlotsReplace(w.stores, k, SetInitSpec(w.stores[k], i));
  }

  /**
   * One slot of the init hook's loop: init() is called and the slot marked;
   * the components init() adds to its own entity are added in order. It fails
   * when an addition's assertion fails.
   */
  method InitRecord(registry: seq<TypeInfo>, w: World, k: nat, i: nat, effect: InitEffect) returns (ok: bool, w': World)
    requires WorldOk(registry, w) && k < |w.stores| && i < w.stores[k].Count() && !w.stores[k].initCalled[i]
    ensures WorldOk(registry, w') && Progress(registry, w, w')
    ensures i < |w'.stores[k].initCalled| && w'.stores[k].initCalled[i]
    ensures InitCall(k, w.stores[k].referenceOf[i]) in w'.initLog
  {
    MarkProgress(registry, w, k, i);
    var rec := w.stores[k].records[i];
    w' := Mark(w, k, i);
    assert w'.initLog[|w.initLog|] == InitCall(k, w.stores[k].referenceOf[i]);
    var adds := effect(k, rec.component);
    var j := 0;
    while j < |adds|
      invariant j <= |adds|
      invariant WorldOk(registry, w') && Progress(registry, w, w')
      invariant i < |w'.stores[k].initCalled| && w'.stores[k].initCalled[i]
      invariant InitCall(k, w.stores[k].referenceOf[i]) in w'.initLog
    {
      var res := AddToWorld(registry, w', rec.entity, adds[j].0, adds[j].1);
      if res.Err? {
        return false, w';
      }
      ProgressTransitive(registry, w, w', res.value.0);
      w' := res.value.0;
      j := j + 1;
    }
    return true, w';
  }

  /** The init hook of type k: its loop re-reads the count, so slots added meanwhile are visited too. */
  method SweepType(registry: seq<TypeInfo>, w: World, k: nat, effect: InitEffect) returns (ok: bool, w': World)
    requires WorldOk(registry, w) && k < |registry|
    ensures WorldOk(registry, w') && Progress(registry, w, w')
    ensures ok ==> Done(w'.stores[k])
  {
    w' := w;
    var i := 0;
    while i < w'.stores[k].Count()
      invariant WorldOk(registry, w') && Progress(registry, w, w') && i <= w'.stores[k].Count()
      invariant forall j :: 0 <= j < i ==> w'.stores[k].initCalled[j]
      decreases MAX_COMPONENTS_PER_TYPE - i
    {
      if !w'.stores[k].initCalled[i] {
        var w1;
        ok, w1 := InitRecord(registry, w', k, i, effect);
        ProgressTransitive(registry, w, w', w1);
        w' := w1;
        if !ok {
          return;
        }
      }
      i := i + 1;
    }
    return true, w';
  }

  /** One pass of call_init's outer loop: the init hooks that are set, in ascending id order. */
  method SweepAll(registry: seq<TypeInfo>, hooks: seq<Hooks>, w: World, effect: InitEffect) returns (ok: bool, w': World)
    requires WorldOk(registry, w) && |hooks| == |registry|
    requires forall k :: 0 <= k < |registry| ==> HooksWithin(hooks[k], registry[k])
    ensures WorldOk(registry, w') && Progress(registry, w, w')
    ensures ok ==> AllInitialised(w'.stores, hooks) || w'.hasNewInit
  {
    w' := w;
    var k := 0;
    while k < |registry|
      invariant k <= |registry|
      invariant WorldOk(registry, w') && Progress(registry, w, w')
      invariant forall k' :: 0 <= k' < k && hooks[k'].init ==> Done(w'.stores[k']) || w'.hasNewInit
    {
      if registry[k].hasInit && hooks[k].init {
        var w1;
        ok, w1 := SweepType(registry, w', k, effect);
        ProgressTransitive(registry, w, w', w1);
        forall k' | 0 <= k' < k && hooks[k'].init ensures Done(w1.stores[k']) || w1.hasNewInit {
          if Done(w'.stores[k']) {
            ProgressKeepsDone(registry, w', w1, k');
          }
        }
        w' := w1;
        if !ok {
          return;
        }
      }
      k := k + 1;
    }
    return true, w';
  }

  /**
   * call_init: while has_new_init is set, clear it and sweep. The loop ends
   * because a pass that raises has_new_init again consumed a free slot.
   */
  method RunInit(registry: seq<TypeInfo>, hooks: seq<Hooks>, w: World, effect: InitEffect) returns (ok: bool, w': World)
    requires WorldOk(registry, w) && |hooks| == |registry|
    requires forall k :: 0 <= k < |registry| ==> HooksWithin(hooks[k], registry[k])
    requires !w.hasNewInit ==> AllInitialised(w.stores, hooks)
    ensures WorldOk(registry, w') && w.initLog <= w'.initLog
    ensures ok ==> !w'.hasNewInit && AllInitialised(w'.stores, hooks)
    ensures ok ==> forall k, r :: 0 <= k < |registry| && hooks[k].init && w'.stores[k].Resolve(r).Some? ==>
                     InitCall(k, r) in w'.initLog
  {
    w' := w;
    ok := true;
    while w'.hasNewInit
      invariant WorldOk(registry, w') && w.initLog <= w'.initLog
      invariant !w'.hasNewInit ==> AllInitialised(w'.stores, hooks)
      decreases FreeSlots(w'.stores), w'.hasNewInit
    {
      var w1;
      ok, w1 := SweepAll(registry, hooks, w'.(hasNewInit := false), effect);
      w' := w1;
      if !ok {
        return;
      }
    }
    forall k, r: nat | 0 <= k < |registry| && hooks[k].init && w'.stores[k].Resolve(r).Some?
      ensures InitCall(k, r) in w'.initLog
    {
      assert w'.stores[k].initCalled[w'.stores[k].componentOf[r]];
    }
  }

  /** Each logged init() appears once: init() runs at most once per component. */
  lemma {:induction false} NoDuplicatesOnce<T>(s: seq<T>, x: T)
    requires NoDuplicates(s) && x in s
    ensures multiset(s)[x] == 1
  {
    if s[0] == x {
      assert x !in s[1..];
      assert s == [s[0]] + s[1..];
    } else {
      assert s == [s[0]] + s[1..];
      NoDuplicatesOnce(s[1..], x);
    }
  }

  /** After a successful call_init every live component of a type with an init hook had init() exactly once. */
  lemma InitRunsExactlyOnce(registry: seq<TypeInfo>, hooks: seq<Hooks>, w: World, k: nat, r: nat)
    requires WorldOk(registry, w) && |hooks| == |registry| && k < |registry| && hooks[k].init
    requires AllInitialised(w.stores, hooks) && w.stores[k].Resolve(r).Some?
    ensures multiset(w.initLog)[InitCall(k, r)] == 1
  {
    assert w.stores[k].initCalled[w.stores[k].componentOf[r]];
    NoDuplicatesOnce(w.initLog, InitCall(k, r));
  }
}
