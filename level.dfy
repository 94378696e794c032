/**
 * The level builder of src/level.hpp and src/level.cpp: the registry of
 * level-entity constructors, the static store of persisted fields, and Level,
 * which loads a level through its LevelLoader and turns it into game
 * entities. What the builder asks of the entity manager (creating entities,
 * adding components, the destroy and init phases) is recorded as a sequence
 * of calls on a World, whose allocator hands out previous_entity_id + 1.
 * The iteration order of the loader's unordered entity map is unspecified; it
 * is modelled as an enumeration of its keys that the methods return.
 */
module Levels {
  import opened Wrappers
  import opened Component
  import opened LevelDefinitions
  import LevelLoading
  import PhysicsBody

  // LevelRegistry and LevelEntity<C>

  /** The constructor a component type offers, in the order construct tries them. */
  datatype ComponentForm = FromEntity | FromPosition | FromPositionAndFields | FromTile

  /** What LevelEntity<C> registers: construct for the component type C, named by C::name(). */
  datatype Constructor = Constructor(component: string, form: ComponentForm)

  /** The value a component is constructed from. */
  datatype Argument =
    | EntityArgument(entity: LevelEntity)
    | PositionArgument(position: TilePosition)
    | PositionAndFieldsArgument(position: TilePosition, fields: FieldMap)
    | TileArgument(tile: Tile)

  type Registry = map<string, Constructor>

  /**
   * LevelEntity<C>::construct: the argument of the component it adds; a tile
   * constructor on an entity without a tile adds nothing.
   */
  function ConstructArgument(form: ComponentForm, e: LevelEntity): (r: Option<Argument>)
    ensures r.None? <==> form == FromTile && e.tile.None?
    ensures form == FromEntity ==> r == Some(EntityArgument(e))
    ensures form == FromPosition ==> r == Some(PositionArgument(e.position))
    ensures form == FromPositionAndFields ==> r == Some(PositionAndFieldsArgument(e.position, e.fields))
    ensures form == FromTile && e.tile.Some? ==> r == Some(TileArgument(e.tile.value))
  {
    match form
    case FromEntity => Some(EntityArgument(e))
    case FromPosition => Some(PositionArgument(e.position))
    case FromPositionAndFields => Some(PositionAndFieldsArgument(e.position, e.fields))
    case FromTile => if e.tile.Some? then Some(TileArgument(e.tile.value)) else None
  }

  /** register_entity: the name now maps to the callback; every other name keeps its entry. */
  function RegisterSpec(r: Registry, name: string, c: Constructor): (r': Registry)
    ensures name in r' && r'[name] == c
    ensures forall n :: n != name ==> (n in r' <==> n in r)
    ensures forall n :: n != name && n in r ==> r'[n] == r[n]
  {
    r[name := c]
  }

  /** LevelRegistry: the callbacks by level-entity name. */
  class LevelRegistry {
    var registry: Registry

    constructor ()
      ensures registry == map[]
    {
      registry := map[];
    }

    method RegisterEntity(name: string, c: Constructor)
      modifies this
      ensures registry == RegisterSpec(old(registry), name, c)
    {
      registry := registry[name := c];
    }
  }

  /** The LevelEntity<C> constructor: registers construct under the component's own name. */
  method RegisterLevelEntity(reg: LevelRegistry, component: string, form: ComponentForm)
    modifies reg
    ensures reg.registry == RegisterSpec(old(reg.registry), component, Constructor(component, form))
  {
    reg.RegisterEntity(component, Constructor(component, form));
  }

  // The persisted fields: Level::store and Level::load

  type EntityFields = map<LevelEntityId, FieldMap>

  /** store: entity_fields[id][name] = field, creating the entity's map when it has none. */
  function StoreField(m: EntityFields, id: LevelEntityId, name: string, f: Field): (r: EntityFields)
    ensures id in r && name in r[id] && r[id][name] == f
    ensures r.Keys == m.Keys + {id}
  {
    m[id := (if id in m then m[id] else map[])[name := f]]
  }

  /** load: the stored field when there is one for the entity and the name; the out-value otherwise. */
  function LoadField(m: EntityFields, id: LevelEntityId, name: string, out: Field): (r: Field)
    ensures !(id in m && name in m[id]) ==> r == out
    ensures id in m && name in m[id] ==> r == m[id][name]
  {
    if id in m && name in m[id] then m[id][name] else out
  }

  /** A stored field loads back whatever the out-value held. */
  lemma StoreThenLoad(m: EntityFields, id: LevelEntityId, name: string, f: Field, out: Field)
    ensures LoadField(StoreField(m, id, name, f), id, name, out) == f
  {
  }

  /** store touches no other entity and no other name. */
  lemma StoreOnlyOwnKey(m: EntityFields, id: LevelEntityId, name: string, f: Field, id': LevelEntityId, name': string, out: Field)
    requires id' != id || name' != name
    ensures LoadField(StoreField(m, id, name, f), id', name', out) == LoadField(m, id', name', out)
  {
  }

  /** The static entity_fields map. */
  class FieldStore {
    var entityFields: EntityFields

    constructor ()
      ensures entityFields == map[]
    {
      entityFields := map[];
    }

    method Store(id: LevelEntityId, name: string, f: Field)
      modifies this
      ensures entityFields == StoreField(old(entityFields), id, name, f)
    {
      var own := if id in entityFields then entityFields[id] else map[];
      entityFields := entityFields[id := own[name := f]];
    }

    method Load(id: LevelEntityId, name: string, out: Field) returns (field: Field)
      ensures field == LoadField(entityFields, id, name, out)
    {
      field := out;
      if !(id in entityFields) || !(name in entityFields[id]) {
        return;
      }
      field := entityFields[id][name];
    }
  }

  // The entity manager as the level builder sees it

  /** A call the level builder makes on the entity manager. */
  datatype Call =
    | DestroyNonPersistent
    | CallDestroy
    | CallInit
    | AddBlock(entity: Entity, tile: Tile)
    | AddTileRenderer(entity: Entity, texture: string, position: TilePosition, size: TileSize,
                      source: TileSourcePosition, depth: int)
    | AddConstructed(entity: Entity, component: string, argument: Argument)

  /**
   * The manager's allocator, the calls made so far, and the Physics of the
   * front Player component (none when there is no player).
   */
  datatype WorldState = WorldState(previousEntityId: Entity, calls: seq<Call>, player: Option<PhysicsBody.Body>)

  /** The id k creations after previous: 64-bit unsigned arithmetic. */
  function Allocated(previous: Entity, k: nat): (e: Entity)
    ensures previous + k < U64 ==> e == previous + k
  {
    (previous + k) % U64
  }

  lemma AllocatedStep(previous: Entity, k: nat)
    ensures Allocated(Allocated(previous, k), 1) == Allocated(previous, k + 1)
  {
    var q := (previous + k) / U64;
    assert previous + k == q * U64 + Allocated(previous, k);
    assert previous + k + 1 == q * U64 + (Allocated(previous, k) + 1);
  }

  class World {
    var previousEntityId: Entity
    var calls: seq<Call>
    var player: Option<PhysicsBody.Body>

    function State(): WorldState
      reads this
    {
      WorldState(previousEntityId, calls, player)
    }

    constructor (previous: Entity, front: Option<PhysicsBody.Body>)
      ensures State() == WorldState(previous, [], front)
    {
      previousEntityId := previous;
      calls := [];
      player := front;
    }

    /** create_entity: the id after the previous one. */
    method CreateEntity() returns (e: Entity)
      modifies this`previousEntityId
      ensures e == Allocated(old(previousEntityId), 1) && previousEntityId == e
    {
      e := (previousEntityId + 1) % U64;
      previousEntityId := e;
    }

    method Record(c: Call)
      modifies this`calls
      ensures calls == old(calls) + [c]
    {
      calls := calls + [c];
    }
  }

  // The solid-tile rule of Level::load

  /** The tile's tileset has a "Solid" enum that lists the tile. */
  predicate IsSolid(ts: map<TilesetId, Tileset>, tile: Tile)
  {
    tile.tilesetId in ts && "Solid" in ts[tile.tilesetId].enumTiles && tile.id in ts[tile.tilesetId].enumTiles["Solid"]
  }

  /** The solid tiles, in order. */
  function SolidTiles(ts: map<TilesetId, Tileset>, tiles: seq<Tile>): (sol: seq<Tile>)
    ensures |sol| <= |tiles|
  {
    if |tiles| == 0 then []
    else
      var last := tiles[|tiles| - 1];
      SolidTiles(ts, tiles[..|tiles| - 1]) + (if IsSolid(ts, last) then [last] else [])
  }

  /** A tile is among the solid tiles exactly when it is a tile of the list and solid. */
  lemma {:induction false} SolidTilesContents(ts: map<TilesetId, Tileset>, tiles: seq<Tile>, t: Tile)
    ensures t in SolidTiles(ts, tiles) <==> t in tiles && IsSolid(ts, t)
  {
    if |tiles| > 0 {
      var last := tiles[|tiles| - 1];
      assert tiles == tiles[..|tiles| - 1] + [last];
      SolidTilesContents(ts, tiles[..|tiles| - 1], t);
    }
  }

  /** One Block per solid tile, each on the next entity the allocator gives. */
  function BlockCalls(previous: Entity, sol: seq<Tile>): (calls: seq<Call>)
  {
    seq(|sol|, k requires 0 <= k < |sol| => AddBlock(Allocated(previous, k + 1), sol[k]))
  }

  lemma BlockCallsAppend(previous: Entity, sol: seq<Tile>, t: Tile)
    ensures BlockCalls(previous, sol + [t]) == BlockCalls(previous, sol) + [AddBlock(Allocated(previous, |sol| + 1), t)]
  {
  }

  /** The tilesets after the loop's operator[]: a missing tileset is inserted value-initialised. */
  function WithDefaults(ts: map<TilesetId, Tileset>, tiles: seq<Tile>): (r: map<TilesetId, Tileset>)
  {
    if |tiles| == 0 then ts
    else
      var p := WithDefaults(ts, tiles[..|tiles| - 1]);
      var id := tiles[|tiles| - 1].tilesetId;
      if id in p then p else p[id := EMPTY_TILESET]
  }

  /**
   * The Block loop keeps every tileset, inserts an empty one for each id a
   * tile names that is missing, and so leaves every tile's tileset present.
   */
  lemma {:induction false} WithDefaultsContents(ts: map<TilesetId, Tileset>, tiles: seq<Tile>)
    ensures var r := WithDefaults(ts, tiles);
      (forall id :: id in ts ==> id in r && r[id] == ts[id]) &&
      (forall id :: id in r && id !in ts ==> r[id] == EMPTY_TILESET) &&
      (forall k :: 0 <= k < |tiles| ==> tiles[k].tilesetId in r)
  {
    if |tiles| > 0 {
      WithDefaultsContents(ts, tiles[..|tiles| - 1]);
    }
  }

  /** Inserting empty tilesets makes no tile solid. */
  lemma SolidUnderDefaults(ts: map<TilesetId, Tileset>, tiles: seq<Tile>, tile: Tile)
    ensures IsSolid(WithDefaults(ts, tiles), tile) == IsSolid(ts, tile)
  {
    WithDefaultsContents(ts, tiles);
  }

  /** The Block loop of load: blocks for the solid tiles; the allocator moves on by their number. */
  function BlocksSpec(w: WorldState, ts: map<TilesetId, Tileset>, tiles: seq<Tile>): (r: WorldState)
    ensures r.player == w.player && w.calls <= r.calls
  {
    var sol := SolidTiles(ts, tiles);
    w.(previousEntityId := Allocated(w.previousEntityId, |sol|), calls := w.calls + BlockCalls(w.previousEntityId, sol))
  }

  /** Every block call sits on a solid tile of the level. */
  lemma BlockCallsSolid(previous: Entity, ts: map<TilesetId, Tileset>, tiles: seq<Tile>)
    ensures var bc := BlockCalls(previous, SolidTiles(ts, tiles));
      forall a :: 0 <= a < |bc| ==> bc[a].AddBlock? && bc[a].tile in tiles && IsSolid(ts, bc[a].tile)
  {
    var sol := SolidTiles(ts, tiles);
    forall a | 0 <= a < |sol|
      ensures IsSolid(ts, sol[a]) && sol[a] in tiles
    {
      SolidTilesContents(ts, tiles, sol[a]);
    }
  }

  /** Without wrap-around the block calls sit on strictly increasing entities after previous. */
  lemma BlockCallsIncrease(previous: Entity, sol: seq<Tile>)
    requires previous + |sol| < U64
    ensures var bc := BlockCalls(previous, sol);
      forall a, b :: 0 <= a < b < |bc| ==> previous < bc[a].entity < bc[b].entity <= previous + |sol|
  {
  }

  /** The blocks are exactly the solid tiles, each on an entity of its own. */
  lemma BlocksExactlySolid(w: WorldState, ts: map<TilesetId, Tileset>, tiles: seq<Tile>)
    requires w.previousEntityId + |tiles| < U64
    ensures var r := BlocksSpec(w, ts, tiles);
      |r.calls| == |w.calls| + |SolidTiles(ts, tiles)| && r.calls[..|w.calls|] == w.calls
    ensures var r := BlocksSpec(w, ts, tiles);
      forall k :: |w.calls| <= k < |r.calls| ==> r.calls[k].AddBlock? && r.calls[k].tile in tiles && IsSolid(ts, r.calls[k].tile)
    ensures var r := BlocksSpec(w, ts, tiles);
      forall j, k :: |w.calls| <= j < k < |r.calls| ==> w.previousEntityId < r.calls[j].entity < r.calls[k].entity <= r.previousEntityId
  {
    var sol := SolidTiles(ts, tiles);
    var bc := BlockCalls(w.previousEntityId, sol);
    var r := BlocksSpec(w, ts, tiles);
    assert r.calls == w.calls + bc;
    assert r.previousEntityId == w.previousEntityId + |sol|;
    BlockCallsSolid(w.previousEntityId, ts, tiles);
    BlockCallsIncrease(w.previousEntityId, sol);
    forall k | |w.calls| <= k < |r.calls|
      ensures r.calls[k] == bc[k - |w.calls|]
    {
    }
  }

  /** The Block loop, with the loader's tilesets map updated in place. */
  method AddBlocks(world: World, loader: LevelLoading.LevelLoader)
    modifies world`previousEntityId, world`calls, loader`tilesets
    ensures world.State() == BlocksSpec(old(world.State()), old(loader.tilesets), loader.tiles)
    ensures loader.tilesets == WithDefaults(old(loader.tilesets), loader.tiles)
  {
    ghost var ts0 := loader.tilesets;
    ghost var p0 := world.previousEntityId;
    ghost var c0 := world.calls;
    var tiles := loader.tiles;
    for i := 0 to |tiles|
      invariant loader.tilesets == WithDefaults(ts0, tiles[..i])
      invariant world.previousEntityId == Allocated(p0, |SolidTiles(ts0, tiles[..i])|)
      invariant world.calls == c0 + BlockCalls(p0, SolidTiles(ts0, tiles[..i]))
    {
      var tile := tiles[i];
      assert tiles[..i + 1][..i] == tiles[..i];
      ghost var sol := SolidTiles(ts0, tiles[..i]);
      SolidUnderDefaults(ts0, tiles[..i], tile);
      if tile.tilesetId !in loader.tilesets {
        loader.tilesets := loader.tilesets[tile.tilesetId := EMPTY_TILESET];
      }
      var tileset := loader.tilesets[tile.tilesetId];
      if "Solid" in tileset.enumTiles && tile.id in tileset.enumTiles["Solid"] {
        var e := world.CreateEntity();
        world.Record(AddBlock(e, tile));
        AllocatedStep(p0, |sol|);
        BlockCallsAppend(p0, sol, tile);
      }
    }
    assert tiles[..|tiles|] == tiles;
  }

  // The TileRenderers of create_entities

  /** C's n / 2: the quotient truncated toward zero. */
  function Half(n: int): (h: int)
    ensures n >= 0 ==> 0 <= n - 2 * h <= 1
    ensures n < 0 ==> -1 <= n - 2 * h <= 0
  {
    if n >= 0 then n / 2 else -((-n) / 2)
  }

  /** The tile position moved by half the tile size, in 32-bit arithmetic. */
  function Centre(tile: Tile): (p: TilePosition)
    ensures p.x == ToInt32(tile.position.x + Half(tile.size.w))
    ensures p.y == ToInt32(tile.position.y + Half(tile.size.h))
  {
    TilePosition(ToInt32(tile.position.x + Half(tile.size.w)), ToInt32(tile.position.y + Half(tile.size.h)))
  }

  /** The index of the first tile whose tileset is missing, where tilesets.at throws; |tiles| when none is. */
  function FirstMissing(ts: map<TilesetId, Tileset>, tiles: seq<Tile>): (n: nat)
    ensures n <= |tiles|
    ensures forall k :: 0 <= k < n ==> tiles[k].tilesetId in ts
    ensures n < |tiles| ==> tiles[n].tilesetId !in ts
    decreases |tiles|
  {
    if |tiles| == 0 || tiles[0].tilesetId !in ts then 0 else 1 + FirstMissing(ts, tiles[1..])
  }

  function RendererCall(entity: Entity, ts: map<TilesetId, Tileset>, tile: Tile): (c: Call)
    requires tile.tilesetId in ts
  {
    AddTileRenderer(entity, ts[tile.tilesetId].path, Centre(tile), tile.size, tile.sourcePosition, tile.depth)
  }

  /**
   * One TileRenderer per tile on the shared entity, with its tileset's
   * texture, the centred position, and the tile's size, source and depth,
   * up to the first tile whose tileset is missing.
   */
  function RendererCalls(entity: Entity, ts: map<TilesetId, Tileset>, tiles: seq<Tile>): (calls: seq<Call>)
    ensures |calls| == FirstMissing(ts, tiles)
  {
    seq(FirstMissing(ts, tiles), k requires 0 <= k < FirstMissing(ts, tiles) => RendererCall(entity, ts, tiles[k]))
  }

  /** The k-th renderer is the k-th tile's, on the shared entity, at the tile's centre. */
  lemma RendererOfTile(entity: Entity, ts: map<TilesetId, Tileset>, tiles: seq<Tile>, k: nat)
    requires k < FirstMissing(ts, tiles)
    ensures RendererCalls(entity, ts, tiles)[k] ==
      AddTileRenderer(entity, ts[tiles[k].tilesetId].path, Centre(tiles[k]), tiles[k].size, tiles[k].sourcePosition, tiles[k].depth)
  {
  }

  /** After the Block loop every tile's tileset is present, so every tile gets a renderer. */
  lemma RenderersCoverAll(ts: map<TilesetId, Tileset>, tiles: seq<Tile>)
    ensures FirstMissing(WithDefaults(ts, tiles), tiles) == |tiles|
  {
    WithDefaultsContents(ts, tiles);
  }

  /** The TileRenderer loop; the result is the tileset id that tilesets.at did not find. */
  method AddTileRenderers(world: World, loader: LevelLoading.LevelLoader, entity: Entity) returns (missing: Option<TilesetId>)
    modifies world`calls
    ensures world.calls == old(world.calls) + RendererCalls(entity, loader.tilesets, loader.tiles)
    ensures missing.None? <==> FirstMissing(loader.tilesets, loader.tiles) == |loader.tiles|
    ensures missing.Some? ==> missing.value == loader.tiles[FirstMissing(loader.tilesets, loader.tiles)].tilesetId
  {
    var tiles := loader.tiles;
    ghost var ts := loader.tilesets;
    ghost var n := FirstMissing(ts, tiles);
    ghost var c0 := world.calls;
    ghost var all := RendererCalls(entity, ts, tiles);
    var i := 0;
    while i < |tiles|
      invariant i <= n
      invariant world.calls == c0 + all[..i]
    {
      var tile := tiles[i];
      if tile.tilesetId !in loader.tilesets {
        return Some(tile.tilesetId);
      }
      assert all[i] == RendererCall(entity, ts, tile);
      world.Record(AddTileRenderer(entity, loader.tilesets[tile.tilesetId].path, Centre(tile), tile.size,
                                   tile.sourcePosition, tile.depth));
      assert all[..i + 1] == all[..i] + [all[i]];
      i := i + 1;
    }
    assert all[..i] == all;
    missing := None;
  }

  // The entity ids of create_entities

  /** The iteration order of an unordered map: every key once. */
  predicate IsEnumeration(order: seq<LevelEntityId>, keys: set<LevelEntityId>)
  {
    (forall i, j :: 0 <= i < j < |order| ==> order[i] != order[j]) &&
    (forall k :: 0 <= k < |order| ==> order[k] in keys) &&
    (forall id :: id in keys ==> id in order)
  }

  /** Some iteration order of the keys. */
  method EnumerateKeys(keys: set<LevelEntityId>) returns (order: seq<LevelEntityId>)
    ensures IsEnumeration(order, keys)
  {
    order := [];
    var rest := keys;
    while rest != {}
      invariant forall i, j :: 0 <= i < j < |order| ==> order[i] != order[j]
      invariant forall k :: 0 <= k < |order| ==> order[k] in keys && order[k] !in rest
      invariant forall id :: id in keys ==> id in order || id in rest
      invariant rest <= keys
      decreases |rest|
    {
      var id :| id in rest;
      order := order + [id];
      rest := rest - {id};
    }
  }

  const PLAYER_POSITION: string := "PlayerPosition"

  /** The state the id loop carries: the ids so far, the allocator, the player and the reset flag. */
  datatype IdsState = IdsState(ids: map<LevelEntityId, Entity>, previousEntityId: Entity,
                               player: Option<PhysicsBody.Body>, reset: bool)

  /** The player's Physics placed at a PlayerPosition, updated and collidable again. */
  function PlacePlayer(b: PhysicsBody.Body, p: TilePosition): (r: PhysicsBody.Body)
    ensures r.x == p.x && r.y == p.y && r.doUpdate && r.collidable
    ensures r.entity == b.entity && r.v == b.v && r.vRem == b.vRem && r.solid == b.solid && r.mask == b.mask
  {
    b.(x := p.x, y := p.y, doUpdate := true, collidable := true)
  }

  /** One entity of the id loop. */
  function IdStep(s: IdsState, id: LevelEntityId, e: LevelEntity, registry: Registry): (r: IdsState)
  {
    var s1 := if e.name in registry
      then s.(ids := s.ids[id := Allocated(s.previousEntityId, 1)], previousEntityId := Allocated(s.previousEntityId, 1))
      else s;
    if e.name == PLAYER_POSITION && s1.reset && s1.player.Some?
    then s1.(player := Some(PlacePlayer(s1.player.value, e.position)), reset := false)
    else s1
  }

  /** The id loop over the entities in the given order. */
  function IdsFrom(s: IdsState, es: LevelLoading.EntityMap, registry: Registry, order: seq<LevelEntityId>): (r: IdsState)
    decreases |order|
  {
    if |order| == 0 then s
    else IdsFrom(if order[0] in es then IdStep(s, order[0], es[order[0]], registry) else s, es, registry, order[1..])
  }

  /** Ids go exactly to the entities whose name is registered. */
  lemma {:induction false} IdsKeys(s: IdsState, es: LevelLoading.EntityMap, registry: Registry, order: seq<LevelEntityId>)
    decreases |order|
    ensures IdsFrom(s, es, registry, order).ids.Keys ==
      s.ids.Keys + (set id | id in order && id in es && es[id].name in registry)
  {
    if |order| > 0 {
      var s' := if order[0] in es then IdStep(s, order[0], es[order[0]], registry) else s;
      IdsKeys(s', es, registry, order[1..]);
      assert order == [order[0]] + order[1..];
    }
  }

  /** No two keys share an id. */
  predicate Injective(ids: map<LevelEntityId, Entity>)
  {
    forall a, b :: a in ids && b in ids && a != b ==> ids[a] != ids[b]
  }

  /** No id is past the allocator. */
  predicate Bounded(ids: map<LevelEntityId, Entity>, previous: Entity)
  {
    forall a :: a in ids ==> ids[a] <= previous
  }

  /** One step of the id loop hands out at most one id, past the allocator. */
  lemma IdStepFresh(s: IdsState, id: LevelEntityId, e: LevelEntity, registry: Registry)
    requires Injective(s.ids) && Bounded(s.ids, s.previousEntityId)
    requires s.previousEntityId + 1 < U64
    ensures var r := IdStep(s, id, e, registry);
      Injective(r.ids) && Bounded(r.ids, r.previousEntityId) &&
      s.previousEntityId <= r.previousEntityId <= s.previousEntityId + 1
    ensures var r := IdStep(s, id, e, registry);
      forall a :: a in r.ids ==> (a in s.ids && r.ids[a] == s.ids[a]) || s.previousEntityId < r.ids[a]
  {
  }

  /**
   * While the allocator does not wrap, every id handed out is fresh: the ids
   * stay distinct, and each new one is past the allocator's start.
   */
  lemma {:induction false} IdsFresh(s: IdsState, es: LevelLoading.EntityMap, registry: Registry, order: seq<LevelEntityId>)
    requires Injective(s.ids) && Bounded(s.ids, s.previousEntityId)
    requires s.previousEntityId + |order| < U64
    decreases |order|
    ensures var r := IdsFrom(s, es, registry, order);
      Injective(r.ids) && Bounded(r.ids, r.previousEntityId) &&
      s.previousEntityId <= r.previousEntityId <= s.previousEntityId + |order|
    ensures var r := IdsFrom(s, es, registry, order);
      forall a :: a in r.ids ==> (a in s.ids && r.ids[a] == s.ids[a]) || s.previousEntityId < r.ids[a]
  {
    if |order| > 0 {
      var s' := if order[0] in es then IdStep(s, order[0], es[order[0]], registry) else s;
      if order[0] in es {
        IdStepFresh(s, order[0], es[order[0]], registry);
      }
      IdsFresh(s', es, registry, order[1..]);
    }
  }

  /** The place in the order of the first PlayerPosition entity; |order| when there is none. */
  function FirstPlayerPosition(es: LevelLoading.EntityMap, order: seq<LevelEntityId>): (k: nat)
    ensures k <= |order|
    ensures k < |order| ==> order[k] in es && es[order[k]].name == PLAYER_POSITION
    ensures forall j :: 0 <= j < k ==> !(order[j] in es && es[order[j]].name == PLAYER_POSITION)
    decreases |order|
  {
    if |order| == 0 || (order[0] in es && es[order[0]].name == PLAYER_POSITION) then 0
    else 1 + FirstPlayerPosition(es, order[1..])
  }

  /**
   * The player is placed at most once: at the first PlayerPosition, when the
   * reset flag is up and there is a player, which also lowers the flag;
   * otherwise the player and the flag stay as they were.
   */
  lemma {:induction false} PlayerPlacedOnce(s: IdsState, es: LevelLoading.EntityMap, registry: Registry, order: seq<LevelEntityId>)
    decreases |order|
    ensures var r := IdsFrom(s, es, registry, order); var k := FirstPlayerPosition(es, order);
      if s.reset && s.player.Some? && k < |order|
      then r.player == Some(PlacePlayer(s.player.value, es[order[k]].position)) && !r.reset
      else r.player == s.player && r.reset == s.reset
  {
    if |order| > 0 {
      var s' := if order[0] in es then IdStep(s, order[0], es[order[0]], registry) else s;
      PlayerPlacedOnce(s', es, registry, order[1..]);
    }
  }

  /** The id loop, with the reset flag of Level and the manager's allocator and player. */
  method AssignIds(world: World, loader: LevelLoading.LevelLoader, registry: LevelRegistry, order: seq<LevelEntityId>,
                   reset: bool) returns (ids: map<LevelEntityId, Entity>, reset': bool)
    modifies world`previousEntityId, world`player
    ensures IdsState(ids, world.previousEntityId, world.player, reset') ==
      IdsFrom(IdsState(map[], old(world.previousEntityId), old(world.player), reset), loader.entities, registry.registry, order)
  {
    ids, reset' := map[], reset;
    ghost var s0 := IdsState(map[], world.previousEntityId, world.player, reset);
    for i := 0 to |order|
      invariant IdsFrom(IdsState(ids, world.previousEntityId, world.player, reset'), loader.entities, registry.registry, order[i..]) ==
        IdsFrom(s0, loader.entities, registry.registry, order)
    {
      assert order[i..][1..] == order[i + 1..];
      var id := order[i];
      if id in loader.entities {
        var e := loader.entities[id];
        if e.name in registry.registry {
          var created := world.CreateEntity();
          ids := ids[id := created];
        }
        if e.name == PLAYER_POSITION && reset' && world.player.Some? {
          world.player := Some(PlacePlayer(world.player.value, e.position));
          reset' := false;
        }
      }
    }
  }

  // Reference resolution of create_entities

  /** A reference to a level entity that got a game entity takes that entity's id; anything else stays. */
  function ResolveField(f: Field, ids: map<LevelEntityId, Entity>): (r: Field)
    ensures f.RefField? && f.ref.levelEntityId in ids ==>
      r.RefField? && r.ref.gameEntityId == ids[f.ref.levelEntityId] && r.ref.levelEntityId == f.ref.levelEntityId
    ensures !(f.RefField? && f.ref.levelEntityId in ids) ==> r == f
  {
    if f.RefField? && f.ref.levelEntityId in ids then RefField(f.ref.(gameEntityId := ids[f.ref.levelEntityId])) else f
  }

  function ResolveFields(fields: FieldMap, ids: map<LevelEntityId, Entity>): (r: FieldMap)
    ensures r.Keys == fields.Keys
  {
    map n | n in fields :: ResolveField(fields[n], ids)
  }

  function ResolveEntities(es: LevelLoading.EntityMap, ids: map<LevelEntityId, Entity>): (r: LevelLoading.EntityMap)
    ensures r.Keys == es.Keys
  {
    map id | id in es :: es[id].(fields := ResolveFields(es[id].fields, ids))
  }

  /** A resolved reference reads back, through get_field, as the id of the entity it names. */
  lemma ResolvedReadsId(fields: FieldMap, ids: map<LevelEntityId, Entity>, name: string)
    requires name in fields && fields[name].RefField? && fields[name].ref.levelEntityId in ids
    ensures GetEntityField(ResolveFields(fields, ids), name) == Some(ids[fields[name].ref.levelEntityId])
  {
    assert ResolveFields(fields, ids)[name] == ResolveField(fields[name], ids);
  }

  /** Resolving twice is resolving once. */
  lemma ResolveIdempotent(fields: FieldMap, ids: map<LevelEntityId, Entity>)
    ensures ResolveFields(ResolveFields(fields, ids), ids) == ResolveFields(fields, ids)
  {
    var once := ResolveFields(fields, ids);
    forall n | n in once
      ensures ResolveField(once[n], ids) == once[n]
    {
      assert once[n] == ResolveField(fields[n], ids);
    }
  }

  /** The field loop of one entity; the order inside the unordered map does not matter. */
  method ResolveFieldsOf(fields: FieldMap, ids: map<LevelEntityId, Entity>) returns (r: FieldMap)
    ensures r == ResolveFields(fields, ids)
  {
    r := fields;
    var rest := fields.Keys;
    while rest != {}
      invariant rest <= fields.Keys && r.Keys == fields.Keys
      invariant forall n :: n in fields ==> r[n] == if n in rest then fields[n] else ResolveField(fields[n], ids)
      decreases |rest|
    {
      var n :| n in rest;
      r := r[n := ResolveField(r[n], ids)];
      rest := rest - {n};
    }
  }

  /** The reference loop: every entity's fields, rewritten in the loader's map. */
  method ResolveReferences(loader: LevelLoading.LevelLoader, ids: map<LevelEntityId, Entity>, order: seq<LevelEntityId>)
    requires IsEnumeration(order, loader.entities.Keys)
    modifies loader`entities
    ensures loader.entities == ResolveEntities(old(loader.entities), ids)
  {
    var es := loader.entities;
    var m := es;
    for i := 0 to |order|
      invariant m.Keys == es.Keys
      invariant forall k :: 0 <= k < i ==> m[order[k]] == es[order[k]].(fields := ResolveFields(es[order[k]].fields, ids))
      invariant forall k :: i <= k < |order| ==> m[order[k]] == es[order[k]]
    {
      var id := order[i];
      var resolved := ResolveFieldsOf(m[id].fields, ids);
      m := m[id := m[id].(fields := resolved)];
    }
    forall id | id in es
      ensures m[id] == ResolveEntities(es, ids)[id]
    {
      var k :| 0 <= k < |order| && order[k] == id;
    }
    loader.entities := m;
  }

  // The constructors of create_entities

  /** The call construct makes for one entity, when its name is registered. */
  function ConstructCall(es: LevelLoading.EntityMap, id: LevelEntityId, registry: Registry, ids: map<LevelEntityId, Entity>): (calls: seq<Call>)
    ensures |calls| <= 1
  {
    if id in es && es[id].name in registry && id in ids then
      var c := registry[es[id].name];
      match ConstructArgument(c.form, es[id])
      case None => []
      case Some(a) => [AddConstructed(ids[id], c.component, a)]
    else []
  }

  /** The constructor loop, in the given order. */
  function ConstructCalls(es: LevelLoading.EntityMap, order: seq<LevelEntityId>, registry: Registry, ids: map<LevelEntityId, Entity>): (calls: seq<Call>)
    ensures |calls| <= |order|
  {
    if |order| == 0 then []
    else ConstructCalls(es, order[..|order| - 1], registry, ids) + ConstructCall(es, order[|order| - 1], registry, ids)
  }

  /** Every constructed component belongs to a registered entity and goes on the id assigned to it. */
  lemma {:induction false} ConstructedOnlyRegistered(es: LevelLoading.EntityMap, order: seq<LevelEntityId>, registry: Registry,
                                                     ids: map<LevelEntityId, Entity>, c: Call)
    requires c in ConstructCalls(es, order, registry, ids)
    ensures exists id :: (id in order && id in es && es[id].name in registry && id in ids &&
      ConstructArgument(registry[es[id].name].form, es[id]).Some? &&
      c == AddConstructed(ids[id], registry[es[id].name].component, ConstructArgument(registry[es[id].name].form, es[id]).value))
  {
    if |order| > 0 {
      var last := order[|order| - 1];
      var front := order[..|order| - 1];
      if c in ConstructCalls(es, front, registry, ids) {
        ConstructedOnlyRegistered(es, front, registry, ids, c);
        var id :| id in front && id in es && es[id].name in registry && id in ids &&
          ConstructArgument(registry[es[id].name].form, es[id]).Some? &&
          c == AddConstructed(ids[id], registry[es[id].name].component, ConstructArgument(registry[es[id].name].form, es[id]).value);
        assert id in order;
      } else {
        assert c in ConstructCall(es, last, registry, ids);
        assert last in order;
      }
    }
  }

  /** Every registered entity with an argument gets its component, on its own id. */
  lemma {:induction false} ConstructedEachRegistered(es: LevelLoading.EntityMap, order: seq<LevelEntityId>, registry: Registry,
                                                     ids: map<LevelEntityId, Entity>, k: nat)
    requires k < |order| && order[k] in es && es[order[k]].name in registry && order[k] in ids
    requires ConstructArgument(registry[es[order[k]].name].form, es[order[k]]).Some?
    ensures AddConstructed(ids[order[k]], registry[es[order[k]].name].component,
                           ConstructArgument(registry[es[order[k]].name].form, es[order[k]]).value) in ConstructCalls(es, order, registry, ids)
  {
    var front := order[..|order| - 1];
    if k < |order| - 1 {
      assert front[k] == order[k];
      ConstructedEachRegistered(es, front, registry, ids, k);
    }
  }

  /** The constructor loop; entity_ids.at finds every registered entity, which the id loop gave an id. */
  method RunConstructors(world: World, loader: LevelLoading.LevelLoader, registry: LevelRegistry,
                         ids: map<LevelEntityId, Entity>, order: seq<LevelEntityId>)
    requires forall k :: 0 <= k < |order| && order[k] in loader.entities && loader.entities[order[k]].name in registry.registry ==> order[k] in ids
    modifies world`calls
    ensures world.calls == old(world.calls) + ConstructCalls(loader.entities, order, registry.registry, ids)
  {
    ghost var c0 := world.calls;
    for i := 0 to |order|
      invariant world.calls == c0 + ConstructCalls(loader.entities, order[..i], registry.registry, ids)
    {
      assert order[..i + 1][..i] == order[..i];
      var id := order[i];
      if id in loader.entities && loader.entities[id].name in registry.registry {
        var e := loader.entities[id];
        var c := registry.registry[e.name];
        var argument := ConstructArgument(c.form, e);
        if argument.Some? {
          world.Record(AddConstructed(ids[id], c.component, argument.value));
        }
      }
    }
    assert order[..|order|] == order;
  }

  // create_entities and Level

  /** An exception out of Level::load: the loader's, or tilesets.at finding no tileset. */
  datatype LevelError = LoaderFailed(error: LevelLoading.LoadError) | TilesetMissing(tilesetId: TilesetId)

  datatype CreateOutcome = CreateOutcome(entities: LevelLoading.EntityMap, world: WorldState, reset: bool, error: Option<LevelError>)

  /** The shared tile entity and its renderers. */
  function RenderSpec(w: WorldState, ts: map<TilesetId, Tileset>, tiles: seq<Tile>): (r: WorldState)
    ensures r.player == w.player && r.previousEntityId == Allocated(w.previousEntityId, 1)
    ensures w.calls <= r.calls
  {
    var tileEntity := Allocated(w.previousEntityId, 1);
    w.(previousEntityId := tileEntity, calls := w.calls + RendererCalls(tileEntity, ts, tiles))
  }

  /**
   * The three entity loops, in the given order: ids for the registered
   * entities and the player's placement, then the references resolved, then
   * the constructors run on the resolved entities.
   */
  function PopulateSpec(es: LevelLoading.EntityMap, w: WorldState, reset: bool, registry: Registry,
                        order: seq<LevelEntityId>): (r: CreateOutcome)
    ensures r.error.None? && r.entities.Keys == es.Keys
    ensures w.calls <= r.world.calls
  {
    var s := IdsFrom(IdsState(map[], w.previousEntityId, w.player, reset), es, registry, order);
    var resolved := ResolveEntities(es, s.ids);
    CreateOutcome(resolved,
      w.(previousEntityId := s.previousEntityId, player := s.player,
         calls := w.calls + ConstructCalls(resolved, order, registry, s.ids)),
      s.reset, None)
  }

  /** create_entities: the renderers, and the entity loops unless tilesets.at throws. */
  function CreateSpec(es: LevelLoading.EntityMap, ts: map<TilesetId, Tileset>, tiles: seq<Tile>, w: WorldState,
                      reset: bool, registry: Registry, order: seq<LevelEntityId>): (r: CreateOutcome)
    ensures r.error.None? <==> FirstMissing(ts, tiles) == |tiles|
    ensures w.calls <= r.world.calls
  {
    var w1 := RenderSpec(w, ts, tiles);
    var n := FirstMissing(ts, tiles);
    if n < |tiles| then CreateOutcome(es, w1, reset, Some(TilesetMissing(tiles[n].tilesetId)))
    else PopulateSpec(es, w1, reset, registry, order)
  }

  /** A level entity gets a game entity exactly when its name is registered, and each its own. */
  lemma CreateIdsExactlyRegistered(es: LevelLoading.EntityMap, w: WorldState, reset: bool,
                                   registry: Registry, order: seq<LevelEntityId>)
    requires w.previousEntityId + |order| < U64
    ensures var s := IdsFrom(IdsState(map[], w.previousEntityId, w.player, reset), es, registry, order);
      s.ids.Keys == (set id | id in order && id in es && es[id].name in registry) &&
      Injective(s.ids) && forall id :: id in s.ids ==> w.previousEntityId < s.ids[id] <= s.previousEntityId
  {
    var s0 := IdsState(map[], w.previousEntityId, w.player, reset);
    IdsKeys(s0, es, registry, order);
    IdsFresh(s0, es, registry, order);
  }

  datatype BuildOutcome = BuildOutcome(loader: LevelLoading.LoaderState, world: WorldState, reset: bool, error: Option<LevelError>)

  /** The part of Level::load after the loader: the Blocks, create_entities, and the init phase. */
  function BuildSpec(st: LevelLoading.LoaderState, w: WorldState, reset: bool, registry: Registry,
                     order: seq<LevelEntityId>): (r: BuildOutcome)
  {
    var ts := WithDefaults(st.tilesets, st.tiles);
    var c := CreateSpec(st.entities, ts, st.tiles, BlocksSpec(w, st.tilesets, st.tiles), reset, registry, order);
    BuildOutcome(st.(tilesets := ts, entities := c.entities),
      if c.error.Some? then c.world else c.world.(calls := c.world.calls + [CallInit]),
      c.reset, c.error)
  }

  /** Scene: the Level's loader and reset flag, the manager's side, and the project cache. */
  datatype Scene = Scene(loader: Option<LevelLoading.LoaderState>, reset: bool, world: WorldState, cache: Option<LevelLoading.Cache>)

  /**
   * Level::load: destroy the non-persistent entities, run the destroy phase,
   * load the level (making a loader when there is none; when that throws
   * there is still none), then build the level.
   */
  function LevelLoadSpec(s: Scene, file: LevelLoading.ProjectFile, name: string, registry: Registry,
                         order: seq<LevelEntityId>): (r: (Scene, Option<LevelError>))
  {
    var w1 := s.world.(calls := s.world.calls + [DestroyNonPersistent, CallDestroy]);
    var loaded := LevelLoading.LoadSpec(if s.loader.Some? then s.loader.value else LevelLoading.INITIAL_STATE, s.cache, file, name);
    var out := loaded.0;
    if out.error.Some? then
      (Scene(if s.loader.Some? then Some(out.state) else None, s.reset, w1, loaded.1), Some(LoaderFailed(out.error.value)))
    else
      var b := BuildSpec(out.state, w1, s.reset, registry, order);
      (Scene(Some(b.loader), b.reset, b.world, loaded.1), b.error)
  }

  /** The build never throws: the Block loop has inserted every tileset a tile names; it ends with the init phase. */
  lemma BuildNeverThrows(st: LevelLoading.LoaderState, w: WorldState, reset: bool, registry: Registry, order: seq<LevelEntityId>)
    ensures var b := BuildSpec(st, w, reset, registry, order);
      b.error.None? && |b.world.calls| > |w.calls| && b.world.calls[|b.world.calls| - 1] == CallInit
  {
    RenderersCoverAll(st.tilesets, st.tiles);
  }

  /** The build appends to the calls already made. */
  lemma BuildAppends(st: LevelLoading.LoaderState, w: WorldState, reset: bool, registry: Registry, order: seq<LevelEntityId>)
    ensures var b := BuildSpec(st, w, reset, registry, order);
      |b.world.calls| >= |w.calls| && b.world.calls[..|w.calls|] == w.calls
  {
    var w2 := BlocksSpec(w, st.tilesets, st.tiles);
    var c := CreateSpec(st.entities, WithDefaults(st.tilesets, st.tiles), st.tiles, w2, reset, registry, order);
    assert w.calls <= c.world.calls;
  }

  /**
   * The destroy phases always come first; load throws exactly when the
   * loader throws; otherwise the init phase comes last.
   */
  lemma LoadPhases(s: Scene, file: LevelLoading.ProjectFile, name: string, registry: Registry, order: seq<LevelEntityId>)
    ensures var r := LevelLoadSpec(s, file, name, registry, order);
      |r.0.world.calls| >= |s.world.calls| + 2 &&
      r.0.world.calls[..|s.world.calls| + 2] == s.world.calls + [DestroyNonPersistent, CallDestroy]
    ensures var r := LevelLoadSpec(s, file, name, registry, order);
      r.1.None? <==> LevelLoading.LoadSpec(if s.loader.Some? then s.loader.value else LevelLoading.INITIAL_STATE, s.cache, file, name).0.error.None?
    ensures var r := LevelLoadSpec(s, file, name, registry, order);
      r.1.None? ==> r.0.world.calls[|r.0.world.calls| - 1] == CallInit && r.0.loader.Some?
  {
    var loaded := LevelLoading.LoadSpec(if s.loader.Some? then s.loader.value else LevelLoading.INITIAL_STATE, s.cache, file, name);
    if loaded.0.error.None? {
      var w1 := s.world.(calls := s.world.calls + [DestroyNonPersistent, CallDestroy]);
      BuildNeverThrows(loaded.0.state, w1, s.reset, registry, order);
      BuildAppends(loaded.0.state, w1, s.reset, registry, order);
    }
  }

  /** Level: the level loaded last, and whether the player still waits for a PlayerPosition. */
  class Level {
    var loader: LevelLoading.LevelLoader?
    var resetPlayerPosition: bool

    constructor ()
      ensures loader == null && resetPlayerPosition
    {
      loader := null;
      resetPlayerPosition := true;
    }

    function SceneOf(world: World, projects: LevelLoading.ProjectCache): Scene
      reads this, loader, world, projects
    {
      Scene(if loader == null then None else Some(loader.State()), resetPlayerPosition, world.State(), projects.cache)
    }

    /** load, with the registry, the project file and the manager's side as parameters. */
    method Load(name: string, world: World, registry: LevelRegistry, projects: LevelLoading.ProjectCache,
                file: LevelLoading.ProjectFile) returns (error: Option<LevelError>, order: seq<LevelEntityId>)
      modifies this, loader, world, projects
      ensures (SceneOf(world, projects), error) ==
        LevelLoadSpec(old(SceneOf(world, projects)), file, name, registry.registry, order)
      ensures error.None? ==> loader != null && IsEnumeration(order, loader.entities.Keys)
    {
      order := [];
      ghost var s0 := SceneOf(world, projects);
      ghost var w1 := s0.world.(calls := s0.world.calls + [DestroyNonPersistent, CallDestroy]);
      world.Record(DestroyNonPersistent);
      world.Record(CallDestroy);
      assert world.State() == w1;
      var loadError := LoadLoader(name, projects, file);
      ghost var loaded := LevelLoading.LoadSpec(if s0.loader.Some? then s0.loader.value else LevelLoading.INITIAL_STATE, s0.cache, file, name);
      assert projects.cache == loaded.1 && loadError == loaded.0.error;
      assert world.State() == w1 && resetPlayerPosition == s0.reset;
      if loadError.Some? {
        assert SceneOf(world, projects) == Scene(if s0.loader.Some? then Some(loaded.0.state) else None, s0.reset, w1, loaded.1);
        return Some(LoaderFailed(loadError.value)), order;
      }
      error, order := Build(world, registry, loader);
      ghost var b := BuildSpec(loaded.0.state, w1, s0.reset, registry.registry, order);
      assert SceneOf(world, projects) == Scene(Some(b.loader), b.reset, b.world, loaded.1);
    }

    /** The loader's load, or a new loader when there is none; a throwing new-expression leaves none. */
    method LoadLoader(name: string, projects: LevelLoading.ProjectCache, file: LevelLoading.ProjectFile)
      returns (error: Option<LevelLoading.LoadError>)
      modifies this`loader, loader, projects
      ensures var loaded := LevelLoading.LoadSpec(if old(loader) == null then LevelLoading.INITIAL_STATE else old(loader.State()),
        old(projects.cache), file, name);
        projects.cache == loaded.1 && error == loaded.0.error &&
        (if old(loader) == null && error.Some? then loader == null else loader != null && loader.State() == loaded.0.state)
      ensures loader == old(loader) || fresh(loader)
    {
      if loader == null {
        var created;
        created, error := LevelLoading.NewLevelLoader(name, projects, file);
        if error.None? {
          loader := created;
        }
      } else {
        error := loader.Load(name, projects, file);
      }
    }

    /** The part of load after the loader. */
    method Build(world: World, registry: LevelRegistry, l: LevelLoading.LevelLoader) returns (error: Option<LevelError>, order: seq<LevelEntityId>)
      modifies this`resetPlayerPosition, world, l`tilesets, l`entities
      ensures BuildOutcome(l.State(), world.State(), resetPlayerPosition, error) ==
        BuildSpec(old(l.State()), old(world.State()), old(resetPlayerPosition), registry.registry, order)
      ensures IsEnumeration(order, l.entities.Keys)
    {
      ghost var st := l.State();
      AddBlocks(world, l);
      ghost var w2 := world.State();
      error, order := CreateEntities(world, registry, l);
      if error.None? {
        world.Record(CallInit);
      }
      assert l.State() == st.(tilesets := l.tilesets, entities := l.entities);
    }

    /** create_entities on the loader's data. */
    method CreateEntities(world: World, registry: LevelRegistry, l: LevelLoading.LevelLoader)
      returns (error: Option<LevelError>, order: seq<LevelEntityId>)
      modifies this`resetPlayerPosition, world`previousEntityId, world`calls, world`player, l`entities
      ensures IsEnumeration(order, old(l.entities).Keys) && l.entities.Keys == old(l.entities).Keys
      ensures CreateOutcome(l.entities, world.State(), resetPlayerPosition, error) ==
        CreateSpec(old(l.entities), l.tilesets, l.tiles, old(world.State()), old(resetPlayerPosition), registry.registry, order)
    {
      order := EnumerateKeys(l.entities.Keys);
      var tileEntity := world.CreateEntity();
      var missing := AddTileRenderers(world, l, tileEntity);
      if missing.Some? {
        return Some(TilesetMissing(missing.value)), order;
      }
      Populate(world, registry, l, order);
      error := None;
    }

    /** The three entity loops of create_entities. */
    method Populate(world: World, registry: LevelRegistry, l: LevelLoading.LevelLoader, order: seq<LevelEntityId>)
      requires IsEnumeration(order, l.entities.Keys)
      modifies this`resetPlayerPosition, world`previousEntityId, world`calls, world`player, l`entities
      ensures CreateOutcome(l.entities, world.State(), resetPlayerPosition, None) ==
        PopulateSpec(old(l.entities), old(world.State()), old(resetPlayerPosition), registry.registry, order)
    {
      ghost var s0 := IdsState(map[], world.previousEntityId, world.player, resetPlayerPosition);
      var ids, reset := AssignIds(world, l, registry, order, resetPlayerPosition);
      resetPlayerPosition := reset;
      IdsKeys(s0, l.entities, registry.registry, order);
      ResolveReferences(l, ids, order);
      RunConstructors(world, l, registry, ids, order);
    }

    /** reload: loads the current level again; nothing happens before the first load. */
    method Reload(world: World, registry: LevelRegistry, projects: LevelLoading.ProjectCache, file: LevelLoading.ProjectFile)
      returns (error: Option<LevelError>, order: seq<LevelEntityId>)
      modifies this, loader, world, projects
      ensures old(loader) == null ==> SceneOf(world, projects) == old(SceneOf(world, projects)) && error.None?
      ensures old(loader) != null ==> ((SceneOf(world, projects), error) ==
        LevelLoadSpec(old(SceneOf(world, projects)), file, old(loader.name), registry.registry, order))
    {
      order := [];
      error := None;
      if loader != null {
        error, order := Load(loader.name, world, registry, projects, file);
      }
    }

    /** load_neighbour: loads the level in that direction; no neighbour there, no change. */
    method LoadNeighbour(dir: Direction, world: World, registry: LevelRegistry, projects: LevelLoading.ProjectCache,
                         file: LevelLoading.ProjectFile) returns (error: Option<LevelError>, order: seq<LevelEntityId>)
      requires loader != null
      modifies this, loader, world, projects
      ensures dir !in old(loader.neighbours) ==> SceneOf(world, projects) == old(SceneOf(world, projects)) && error.None?
      ensures dir in old(loader.neighbours) ==> ((SceneOf(world, projects), error) ==
        LevelLoadSpec(old(SceneOf(world, projects)), file, old(loader.neighbours[dir]), registry.registry, order))
    {
      order := [];
      error := None;
      if dir !in loader.neighbours {
        return;
      }
      var neighbour := loader.neighbours[dir];
      error, order := Load(neighbour, world, registry, projects, file);
    }
  }
}
