/**
 * The level data of src/level_definitions.hpp: tiles, tilesets, level
 * entities and their typed fields, and the lookups get_field, read_field
 * and try_read_field. The lookups follow a release build: where the source
 * asserts, a predicate names the condition and the release result is given.
 */
module LevelDefinitions {
  import opened Wrappers
  import opened Component
  import opened Colors

  type Int32 = x: int | -0x8000_0000 <= x < 0x8000_0000

  /** The two's-complement narrowing of an integer into 32 bits, as an int64-to-int conversion does. */
  function ToInt32(v: int): (r: Int32)
    ensures (r - v) % 0x1_0000_0000 == 0
    ensures -0x8000_0000 <= v < 0x8000_0000 ==> r == v
  {
    (v + 0x8000_0000) % 0x1_0000_0000 - 0x8000_0000
  }

  datatype TilePosition = TilePosition(x: Int32, y: Int32)
  datatype TileSize = TileSize(w: Int32, h: Int32)
  datatype TileSourcePosition = TileSourcePosition(sourceX: Int32, sourceY: Int32)

  const ORIGIN: TilePosition := TilePosition(0, 0)

  type TilesetId = int
  type TileId = int
  type LevelEntityId = string

  datatype Tileset = Tileset(id: TilesetId, path: string, enumTiles: map<string, set<TileId>>)

  /** A value-initialised Tileset, as a map's operator[] inserts it. */
  const EMPTY_TILESET: Tileset := Tileset(0, "", map[])

  datatype Tile = Tile(
    tilesetId: TilesetId,
    id: TileId,
    position: TilePosition,
    sourcePosition: TileSourcePosition,
    size: TileSize,
    depth: int)

  /**
   * A reference from a field to another level entity; game_entity_id is
   * filled in once the level builder has created that entity.
   */
  datatype EntityRef = EntityRef(gameEntityId: Entity, levelEntityId: LevelEntityId)

  /** EntityRef(): refers to nothing. */
  function DefaultEntityRef(): (r: EntityRef)
    ensures r.gameEntityId == INVALID_ENTITY && r.levelEntityId == ""
  {
    EntityRef(INVALID_ENTITY, "")
  }

  /** EntityRef(level_entity_id): refers to a level entity that has no game entity yet. */
  function RefTo(levelEntityId: LevelEntityId): (r: EntityRef)
    ensures r.gameEntityId == INVALID_ENTITY && r.levelEntityId == levelEntityId
  {
    EntityRef(INVALID_ENTITY, levelEntityId)
  }

  /** The alternatives of the Field variant, in declaration order. */
  datatype Kind = TileKind | ColorKind | StringKind | IntKind | FloatKind | BoolKind | RefKind

  /** A field value: one alternative of the variant. Floats are reals here. */
  datatype Field =
    | TileField(tile: Tile)
    | ColorField(color: Color)
    | StringField(str: string)
    | IntField(intValue: Int32)
    | FloatField(floatValue: real)
    | BoolField(boolValue: bool)
    | RefField(ref: EntityRef)
  {
    /** The alternative the variant holds. */
    function Kind(): Kind
    {
      match this
      case TileField(_) => TileKind
      case ColorField(_) => ColorKind
      case StringField(_) => StringKind
      case IntField(_) => IntKind
      case FloatField(_) => FloatKind
      case BoolField(_) => BoolKind
      case RefField(_) => RefKind
    }
  }

  type FieldMap = map<string, Field>

  /** Level::Entity: one entity instance of a level. */
  datatype LevelEntity = LevelEntity(
    id: LevelEntityId,
    name: string,
    position: TilePosition,
    size: TileSize,
    tile: Option<Tile>,
    fields: FieldMap)

  datatype Direction = North | East | South | West | NorthWest | NorthEast | SouthWest | SouthEast

  /** get_field<T>: the named field when it holds the requested alternative, else none. */
  function GetField(fields: FieldMap, name: string, kind: Kind): (r: Option<Field>)
    ensures name !in fields ==> r == None
    ensures name in fields && fields[name].Kind() == kind ==> r == Some(fields[name])
    ensures r.Some? ==> r.value.Kind() == kind
  {
    if name in fields && fields[name].Kind() == kind then Some(fields[name]) else None
  }

  /** The type-mismatch assertion of get_field: the name is present with another alternative. */
  predicate GetFieldAsserts(fields: FieldMap, name: string, kind: Kind)
  {
    name in fields && fields[name].Kind() != kind
  }

  /** In a release build a mismatch reads as a missing field. */
  lemma MismatchIsNone(fields: FieldMap, name: string, kind: Kind)
    requires GetFieldAsserts(fields, name, kind)
    ensures GetField(fields, name, kind) == None
  {
  }

  /**
   * get_field for a game entity: reads an EntityRef and yields its game
   * entity id, which is INVALID_ENTITY for a reference never resolved.
   */
  function GetEntityField(fields: FieldMap, name: string): (r: Option<Entity>)
    ensures r.Some? <==> name in fields && fields[name].RefField?
    ensures r.Some? ==> r.value == fields[name].ref.gameEntityId
  {
    match GetField(fields, name, RefKind)
    case Some(f) => Some(f.ref.gameEntityId)
    case None => None
  }

  /** The assertions of get_field for a game entity: a mismatch, or an unresolved reference. */
  predicate GetEntityFieldAsserts(fields: FieldMap, name: string)
  {
    GetFieldAsserts(fields, name, RefKind) ||
    (name in fields && fields[name].RefField? && fields[name].ref.gameEntityId == INVALID_ENTITY)
  }

  /** try_read_field: the out-value takes the field when the lookup finds one, and is kept otherwise. */
  function TryReadField(fields: FieldMap, name: string, kind: Kind, value: Field): (r: Field)
    ensures GetField(fields, name, kind).None? ==> r == value
    ensures GetField(fields, name, kind).Some? ==> r == fields[name] && r.Kind() == kind
  {
    match GetField(fields, name, kind)
    case Some(f) => f
    case None => value
  }

  /** The out-value after read_field, and whether its "Field not found" assertion fired. */
  datatype ReadOutcome<T> = ReadOutcome(value: T, asserted: bool)

  /** read_field: assigns like try_read_field, and asserts when the lookup is empty. */
  function ReadField(fields: FieldMap, name: string, kind: Kind, value: Field): (r: ReadOutcome<Field>)
    ensures r.value == TryReadField(fields, name, kind, value)
    ensures r.asserted <==> !(name in fields && fields[name].Kind() == kind)
  {
    match GetField(fields, name, kind)
    case Some(f) => ReadOutcome(f, false)
    case None => ReadOutcome(value, true)
  }

  /** try_read_field for a game entity. */
  function TryReadEntityField(fields: FieldMap, name: string, value: Entity): (r: Entity)
    ensures !(name in fields && fields[name].RefField?) ==> r == value
    ensures name in fields && fields[name].RefField? ==> r == fields[name].ref.gameEntityId
  {
    match GetEntityField(fields, name)
    case Some(e) => e
    case None => value
  }

  /** read_field for a game entity. */
  function ReadEntityField(fields: FieldMap, name: string, value: Entity): (r: ReadOutcome<Entity>)
    ensures r.value == TryReadEntityField(fields, name, value)
    ensures r.asserted <==> !(name in fields && fields[name].RefField?)
  {
    match GetEntityField(fields, name)
    case Some(e) => ReadOutcome(e, false)
    case None => ReadOutcome(value, true)
  }

  /** A field just written reads back, and writing one name leaves every other lookup alone. */
  lemma GetFieldAfterWrite(fields: FieldMap, name: string, f: Field, other: string, kind: Kind)
    requires other != name
    ensures GetField(fields[name := f], name, f.Kind()) == Some(f)
    ensures GetField(fields[name := f], other, kind) == GetField(fields, other, kind)
  {
  }
}
