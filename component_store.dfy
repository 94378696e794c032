/**
 * The per-type component store of src/manager.hpp: a dense array of records
 * with swap-with-last removal, plus a growing vector of stable reference
 * indices that map to dense slots and back.
 */
module ComponentStore {
  import opened Component
  import opened Wrappers

  const MAX_COMPONENTS_PER_TYPE: nat := 4096
  /** The largest `size_t`, used for a reference that no longer resolves. */
  const INVALID_INDEX: nat := U64 - 1

  /** A stored component together with the entity it belongs to. */
  datatype Record<C> = Record(entity: Entity, component: C)

  /**
   * The abstract state of a store: the live prefix of the three fixed-size
   * arrays (records, their init flags, their reference indices) and the whole
   * reference vector `componentOf`.
   */
  datatype StoreView<C> = StoreView(
    records: seq<Record<C>>,
    initCalled: seq<bool>,
    referenceOf: seq<nat>,
    componentOf: seq<nat>)
  {
    function Count(): nat { |records| }

    /** The number of references ever handed out. */
    function References(): nat { |componentOf| }

    /**
     * The invariant of a store: the slot-to-reference and reference-to-slot
     * maps are inverse bijections between the live slots and the live
     * references; every other reference holds INVALID_INDEX.
     */
    ghost predicate Consistent()
    {
      && |records| <= MAX_COMPONENTS_PER_TYPE
      && |initCalled| == |records| && |referenceOf| == |records|
      && |componentOf| < INVALID_INDEX
      && (forall i :: 0 <= i < |referenceOf| ==>
            referenceOf[i] < |componentOf| && componentOf[referenceOf[i]] == i)
      && (forall r :: 0 <= r < |componentOf| ==>
            componentOf[r] == INVALID_INDEX ||
            (componentOf[r] < |records| && referenceOf[componentOf[r]] == r))
    }

    /** What a reference resolves to: the record in the slot it points at, if any. */
    function Resolve(r: nat): (rec: Option<Record<C>>)
    {
      if r < |componentOf| && componentOf[r] < |records| then Some(records[componentOf[r]]) else None
    }

    /** The init flag of the record a live reference points at. */
    function InitOf(r: nat): (b: bool)
      requires Resolve(r).Some? && |initCalled| == |records|
    {
      initCalled[componentOf[r]]
    }
  }

  function Empty<C>(): (v: StoreView<C>)
    ensures v.Consistent() && v.Count() == 0 && v.References() == 0
  {
    StoreView([], [], [], [])
  }

  /**
   * push: the record goes into the next free slot with its init flag cleared,
   * and a new reference index (the size of the reference vector) is handed out.
   */
  function PushSpec<C>(v: StoreView<C>, e: Entity, c: C): (w: StoreView<C>)
    requires v.Count() < MAX_COMPONENTS_PER_TYPE
  {
    StoreView(v.records + [Record(e, c)], v.initCalled + [false],
              v.referenceOf + [|v.componentOf|], v.componentOf + [|v.records|])
  }

  /**
   * remove, corrected: the removed slot's reference becomes INVALID_INDEX and,
   * unless the removed slot is already the last one, the last record moves
   * into the hole and its reference follows it.
   */
  function RemoveSpec<C>(v: StoreView<C>, i: nat): (w: StoreView<C>)
    requires v.Consistent() && i < v.Count()
  {
    var last := v.Count() - 1;
    var cleared := v.componentOf[v.referenceOf[i] := INVALID_INDEX];
    if i != last then
      var moved := v.referenceOf[last];
      StoreView(v.records[i := v.records[last]][..last],
                v.initCalled[i := v.initCalled[last]][..last],
                v.referenceOf[i := moved][..last],
                cleared[moved := i])
    else
      StoreView(v.records[..last], v.initCalled[..last], v.referenceOf[..last], cleared)
  }

  /**
   * remove as the source writes it: the swap runs whenever more than one
   * record is live, even when slot i is already the last one.
   */
  function RemoveAsWritten<C>(v: StoreView<C>, i: nat): (w: StoreView<C>)
    requires v.Consistent() && i < v.Count()
    ensures i != v.Count() - 1 ==> w == RemoveSpec(v, i)
  {
    var last := v.Count() - 1;
    var cleared := v.componentOf[v.referenceOf[i] := INVALID_INDEX];
    if v.Count() > 1 then
      var moved := v.referenceOf[last];
      StoreView(v.records[i := v.records[last]][last := v.records[i]][..last],
                v.initCalled[i := v.initCalled[last]][last := v.initCalled[i]][..last],
                v.referenceOf[i := moved][..last],
                cleared[moved := i])
    else
      StoreView(v.records[..last], v.initCalled[..last], v.referenceOf[..last], cleared)
  }

  /** set_init_called: marks slot i as initialised. */
  function SetInitSpec<C>(v: StoreView<C>, i: nat): (w: StoreView<C>)
    requires i < |v.initCalled|
  {
    v.(initCalled := v.initCalled[i := true])
  }

  // ---------------------------------------------------------------------
  // Properties of the store operations
  // ---------------------------------------------------------------------

  /** A push keeps the bijection and hands out a reference that resolves to the new record. */
  lemma PushKeepsReferences<C>(v: StoreView<C>, e: Entity, c: C)
    requires v.Consistent() && v.Count() < MAX_COMPONENTS_PER_TYPE
    requires v.References() + 1 < INVALID_INDEX
    ensures PushSpec(v, e, c).Consistent()
    ensures PushSpec(v, e, c).Count() == v.Count() + 1
    ensures PushSpec(v, e, c).References() == v.References() + 1
    ensures PushSpec(v, e, c).Resolve(v.References()) == Some(Record(e, c))
    ensures !PushSpec(v, e, c).InitOf(v.References())
    ensures forall r :: r != v.References() ==> PushSpec(v, e, c).Resolve(r) == v.Resolve(r)
    ensures forall r :: v.Resolve(r).Some? ==> PushSpec(v, e, c).InitOf(r) == v.InitOf(r)
  {
    var w := PushSpec(v, e, c);
    forall r | 0 <= r < |w.componentOf|
      ensures w.componentOf[r] == INVALID_INDEX ||
              (w.componentOf[r] < |w.records| && w.referenceOf[w.componentOf[r]] == r)
    {
      if r < |v.componentOf| {
        assert w.componentOf[r] == v.componentOf[r];
      }
    }
  }

  /** Removing slot i keeps the bijection: the range of live references shrinks by one. */
  lemma RemoveKeepsConsistent<C>(v: StoreView<C>, i: nat)
    requires v.Consistent() && i < v.Count()
    ensures RemoveSpec(v, i).Consistent()
    ensures RemoveSpec(v, i).Count() == v.Count() - 1
    ensures RemoveSpec(v, i).References() == v.References()
  {
    var w := RemoveSpec(v, i);
    var last := v.Count() - 1;
    var ri := v.referenceOf[i];
    forall r | 0 <= r < |w.componentOf|
      ensures w.componentOf[r] == INVALID_INDEX ||
              (w.componentOf[r] < |w.records| && w.referenceOf[w.componentOf[r]] == r)
    {
      if r != ri && v.componentOf[r] != INVALID_INDEX {
        assert v.referenceOf[v.componentOf[r]] == r;
      }
    }
  }

  /**
   * Reference stability: after removing slot i, the reference that pointed at
   * it no longer resolves, and every other reference resolves to exactly the
   * record (and init flag) it resolved to before.
   */
  lemma RemoveKeepsReferences<C>(v: StoreView<C>, i: nat)
    requires v.Consistent() && i < v.Count()
    ensures RemoveSpec(v, i).Resolve(v.referenceOf[i]) == None
    ensures forall r :: r != v.referenceOf[i] ==> RemoveSpec(v, i).Resolve(r) == v.Resolve(r)
    ensures forall r :: r != v.referenceOf[i] && v.Resolve(r).Some? ==>
              RemoveSpec(v, i).InitOf(r) == v.InitOf(r)
  {
    var w := RemoveSpec(v, i);
    var last := v.Count() - 1;
    var ri := v.referenceOf[i];
    forall r: nat | r != ri
      ensures w.Resolve(r) == v.Resolve(r)
      ensures v.Resolve(r).Some? ==> w.InitOf(r) == v.InitOf(r)
    {
      if r < |v.componentOf| && v.componentOf[r] != INVALID_INDEX {
        assert v.referenceOf[v.componentOf[r]] == r;
      }
    }
  }

  /** A removal leaves the untouched slots in place: only slot i and the last slot change. */
  lemma RemoveFrame<C>(v: StoreView<C>, i: nat)
    requires v.Consistent() && i < v.Count()
    ensures forall j :: 0 <= j < v.Count() - 1 && j != i ==> RemoveSpec(v, i).records[j] == v.records[j]
    ensures i < v.Count() - 1 ==> RemoveSpec(v, i).records[i] == v.records[v.Count() - 1]
  {
  }

  /** Marking a slot initialised changes only that record's init flag. */
  lemma SetInitCalledKeepsReferences<C>(v: StoreView<C>, i: nat)
    requires v.Consistent() && i < v.Count()
    ensures SetInitSpec(v, i).Consistent()
    ensures forall r :: SetInitSpec(v, i).Resolve(r) == v.Resolve(r)
    ensures SetInitSpec(v, i).InitOf(v.referenceOf[i])
    ensures forall r :: r != v.referenceOf[i] && v.Resolve(r).Some? ==>
              SetInitSpec(v, i).InitOf(r) == v.InitOf(r)
  {
  }

  /**
   * The removal defect: when the removed slot is the last of two or more,
   * the code as written writes count-1 (the new count) back into the removed
   * reference instead of INVALID_INDEX. The reference then points one past
   * the live prefix, and the next push makes it resolve to the newcomer;
   * the corrected removal leaves it invalid.
   */
  lemma RemoveLastAsWrittenRevivesReference<C>(v: StoreView<C>, e: Entity, c: C)
    requires v.Consistent() && v.Count() > 1
    ensures var last := v.Count() - 1;
            var r := v.referenceOf[last];
            var w := RemoveAsWritten(v, last);
            && w.componentOf[r] == w.Count() != INVALID_INDEX
            && !w.Consistent()
            && PushSpec(w, e, c).Resolve(r) == Some(Record(e, c))
            && PushSpec(RemoveSpec(v, last), e, c).Resolve(r) == None
  {
    var last := v.Count() - 1;
    var r := v.referenceOf[last];
    var w := RemoveAsWritten(v, last);
    assert w.componentOf == v.componentOf[r := INVALID_INDEX][r := last];
    assert w.componentOf[r] == last;
    assert |w.records| == last;
  }

  /**
   * The fixed-size store itself: three arrays of MAX_COMPONENTS_PER_TYPE
   * slots, the live count, and the growing reference vector.
   */
  class ComponentManager<C(0)> {
    const components: array<Record<C>>
    const initCalled: array<bool>
    const indexComponents: array<nat>
    var componentIndices: seq<nat>
    var componentsCount: nat

    ghost predicate Valid()
      reads this, components, initCalled, indexComponents
    {
      && components.Length == MAX_COMPONENTS_PER_TYPE
      && initCalled.Length == MAX_COMPONENTS_PER_TYPE
      && indexComponents.Length == MAX_COMPONENTS_PER_TYPE
      && componentsCount <= MAX_COMPONENTS_PER_TYPE
      && View().Consistent()
    }

    /** The live part of the arrays as a store value. */
    function View(): (v: StoreView<C>)
      reads this, components, initCalled, indexComponents
      requires componentsCount <= components.Length
      requires componentsCount <= initCalled.Length
      requires componentsCount <= indexComponents.Length
    {
      StoreView(components[..componentsCount], initCalled[..componentsCount],
                indexComponents[..componentsCount], componentIndices)
    }

    constructor ()
      ensures Valid() && View() == Empty<C>()
      ensures fresh(components) && fresh(initCalled) && fresh(indexComponents)
    {
      components := new Record<C>[MAX_COMPONENTS_PER_TYPE];
      initCalled := new bool[MAX_COMPONENTS_PER_TYPE];
      indexComponents := new nat[MAX_COMPONENTS_PER_TYPE];
      componentIndices := [];
      componentsCount := 0;
    }

    function Count(): (n: nat)
      reads this, components, initCalled, indexComponents
      requires Valid()
      ensures n == View().Count()
    {
      componentsCount
    }

    method Push(e: Entity, c: C)
      requires Valid() && componentsCount < MAX_COMPONENTS_PER_TYPE
      requires |componentIndices| + 1 < INVALID_INDEX
      modifies this, components, initCalled, indexComponents
      ensures Valid()
      ensures View() == PushSpec(old(View()), e, c)
    {
      PushKeepsReferences(View(), e, c);
      components[componentsCount] := Record(e, c);
      initCalled[componentsCount] := false;
      componentIndices := componentIndices + [componentsCount];
      indexComponents[componentsCount] := |componentIndices| - 1;
      componentsCount := componentsCount + 1;
    }

    method Get(i: nat) returns (c: C)
      requires Valid() && i < componentsCount
      ensures c == View().records[i].component
    {
      c := components[i].component;
    }

    method Remove(i: nat)
      requires Valid() && i < componentsCount
      modifies this, components, initCalled, indexComponents
      ensures Valid()
      ensures View() == RemoveSpec(old(View()), i)
    {
      ghost var v := View();
      ghost var w := RemoveSpec(v, i);
      RemoveKeepsConsistent(v, i);
      var last := componentsCount - 1;
      var r := indexComponents[i];
      componentIndices := componentIndices[r := INVALID_INDEX];
      // The source swaps; only the copy into slot i is visible, slot `last` drops out of the live prefix.
      if i != last {
        var moved := indexComponents[last];
        components[i] := components[last];
        initCalled[i] := initCalled[last];
        indexComponents[i] := moved;
        componentIndices := componentIndices[moved := i];
        assert components[..last] == w.records;
        assert initCalled[..last] == w.initCalled;
        assert indexComponents[..last] == w.referenceOf;
      } else {
        assert components[..last] == w.records;
        assert initCalled[..last] == w.initCalled;
        assert indexComponents[..last] == w.referenceOf;
      }
      componentsCount := last;
      assert View() == w;
    }

    method SetInitCalled(i: nat)
      requires Valid() && i < componentsCount
      modifies initCalled
      ensures Valid()
      ensures View() == SetInitSpec(old(View()), i)
    {
      initCalled[i] := true;
    }

    method WasInitCalled(i: nat) returns (b: bool)
      requires Valid() && i < componentsCount
      ensures b == View().initCalled[i]
    {
      b := initCalled[i];
    }

    /** The dense slot a reference points at, or INVALID_INDEX once it was removed. */
    method GetComponentIndex(r: nat) returns (i: nat)
      requires Valid() && r < |componentIndices|
      ensures i == INVALID_INDEX || (i < View().Count() && View().referenceOf[i] == r)
      ensures View().Resolve(r) == (if i == INVALID_INDEX then None else Some(View().records[i]))
    {
      i := componentIndices[r];
    }

    /** The reference index of a live slot. */
    method GetReferenceIndex(i: nat) returns (r: nat)
      requires Valid() && i < componentsCount
      ensures r < View().References() && View().Resolve(r) == Some(View().records[i])
    {
      r := indexComponents[i];
    }
  }
}
