/**
 * The JSON side of src/external/ldtk.hpp: a small JSON value, the two
 * lookup helpers, and the (de)serialisers of the three small integer
 * structs. The enumeration tables live in module LdtkEnums.
 */
module Ldtk {
  import opened Wrappers

  type Int64 = x: int | -0x8000_0000_0000_0000 <= x < 0x8000_0000_0000_0000

  /** A JSON value; an object maps each key to one value, as the JSON library's objects do. */
  datatype Json =
    | JNull
    | JBool(b: bool)
    | JInt(i: Int64)
    | JFloat(f: real)
    | JString(str: string)
    | JArray(items: seq<Json>)
    | JObject(fields: map<string, Json>)

  /** The ways a conversion from JSON fails. */
  datatype JsonError =
    | Schema(message: string)
    | KeyMissing(key: string)
    | TypeMismatch(key: string)
    | CastOverflow(key: string)

  /** The message every enumeration's from_json throws for a name outside its table. */
  const SCHEMA_ERROR: JsonError := Schema("Input JSON does not conform to schema!")

  /** Whether the object j has a value under key. */
  predicate Has(j: Json, key: string)
  {
    j.JObject? && key in j.fields
  }

  /** get_untyped: the value under the key, or JSON null when there is none. */
  function GetUntyped(j: Json, key: string): (r: Json)
    ensures Has(j, key) ==> r == j.fields[key]
    ensures !Has(j, key) ==> r.JNull?
  {
    if Has(j, key) then j.fields[key] else JNull
  }

  /** get_stack_optional: empty when the key is absent or null, else the converted value. */
  function GetStackOptional<T>(j: Json, key: string, convert: Json -> Result<T, JsonError>): (r: Result<Option<T>, JsonError>)
    ensures !Has(j, key) || j.fields[key].JNull? ==> r == Ok(None)
    ensures Has(j, key) && !j.fields[key].JNull? ==>
      (r.Ok? <==> convert(j.fields[key]).Ok?) &&
      (r.Ok? ==> r.value == Some(convert(j.fields[key]).value))
  {
    if !Has(j, key) || j.fields[key].JNull? then Ok(None)
    else match convert(j.fields[key])
      case Ok(v) => Ok(Some(v))
      case Err(e) => Err(e)
  }

  /** The conversion of a double to an integer: toward zero. */
  function Truncate(r: real): (n: int)
    ensures r >= 0.0 ==> n as real <= r < n as real + 1.0
    ensures r < 0.0 ==> n as real - 1.0 < r <= n as real
  {
    if r >= 0.0 then r.Floor else -((-r).Floor)
  }

  /**
   * A JSON number that get<int64_t>() converts: an integer, or a float whose
   * truncation fits in 64 bits (the cast of any other float is undefined).
   */
  predicate IntValue(v: Json)
  {
    v.JInt? || (v.JFloat? && -0x8000_0000_0000_0000 <= Truncate(v.f) < 0x8000_0000_0000_0000)
  }

  /** The integer get<int64_t>() reads from a number: the integer itself, or the float cast toward zero. */
  function IntOf(v: Json): (n: Int64)
    requires IntValue(v)
    ensures v.JInt? ==> n == v.i
    ensures v.JFloat? && v.f >= 0.0 ==> n as real <= v.f < n as real + 1.0
    ensures v.JFloat? && v.f < 0.0 ==> n as real - 1.0 < v.f <= n as real
  {
    if v.JInt? then v.i else Truncate(v.f)
  }

  /**
   * j.at(key).get<int64_t>(): the key must be present and hold a number; a
   * float is cast toward zero, and one whose cast does not fit is an error.
   */
  function GetInt(j: Json, key: string): (r: Result<Int64, JsonError>)
    ensures r.Ok? <==> Has(j, key) && IntValue(j.fields[key])
    ensures r.Ok? ==> r.value == IntOf(j.fields[key])
    ensures !Has(j, key) ==> r == Err(KeyMissing(key))
    ensures Has(j, key) && !j.fields[key].JInt? && !j.fields[key].JFloat? ==> r == Err(TypeMismatch(key))
  {
    if !Has(j, key) then Err(KeyMissing(key))
    else if j.fields[key].JInt? then Ok(j.fields[key].i)
    else if IntValue(j.fields[key]) then Ok(IntOf(j.fields[key]))
    else if j.fields[key].JFloat? then Err(CastOverflow(key))
    else Err(TypeMismatch(key))
  }

  /** j.at(key).get<std::string>(): the key must be present and hold a string. */
  function GetString(j: Json, key: string): (r: Result<string, JsonError>)
    ensures r.Ok? <==> Has(j, key) && j.fields[key].JString?
    ensures r.Ok? ==> r.value == j.fields[key].str
    ensures !Has(j, key) ==> r == Err(KeyMissing(key))
  {
    if !Has(j, key) then Err(KeyMissing(key))
    else if j.fields[key].JString? then Ok(j.fields[key].str)
    else Err(TypeMismatch(key))
  }

  /** ReferenceToAnEntityInstance: the four iids that locate an entity instance. */
  datatype EntityReference = EntityReference(entityIid: string, layerIid: string, levelIid: string, worldIid: string)

  const ENTITY_REFERENCE_KEYS: set<string> := {"entityIid", "layerIid", "levelIid", "worldIid"}

  /** Every key of the set is present in the object j with a string value. */
  predicate StringFields(j: Json, keys: set<string>)
  {
    j.JObject? && forall k :: k in keys ==> k in j.fields && j.fields[k].JString?
  }

  /** from_json for ReferenceToAnEntityInstance: all four keys must hold strings. */
  function EntityReferenceFromJson(j: Json): (r: Result<EntityReference, JsonError>)
    ensures r.Ok? <==> StringFields(j, ENTITY_REFERENCE_KEYS)
    ensures r.Ok? ==> Has(j, "entityIid") && r.value.entityIid == j.fields["entityIid"].str
  {
    var entity :- GetString(j, "entityIid");
    var layer :- GetString(j, "layerIid");
    var level :- GetString(j, "levelIid");
    var world :- GetString(j, "worldIid");
    Ok(EntityReference(entity, layer, level, world))
  }

  /** TilesetRectangle: a rectangle in a tileset image, in pixels. */
  datatype TilesetRectangle = TilesetRectangle(h: Int64, tilesetUid: Int64, w: Int64, x: Int64, y: Int64)

  const TILESET_RECTANGLE_KEYS: set<string> := {"h", "tilesetUid", "w", "x", "y"}

  /** Every key of the set is present in the object j with a number get<int64_t>() converts. */
  predicate IntFields(j: Json, keys: set<string>)
  {
    j.JObject? && forall k :: k in keys ==> k in j.fields && IntValue(j.fields[k])
  }

  /** from_json for TilesetRectangle: each field from its key, which must hold a number that converts. */
  function TilesetRectangleFromJson(j: Json): (r: Result<TilesetRectangle, JsonError>)
    ensures r.Ok? <==> IntFields(j, TILESET_RECTANGLE_KEYS)
    ensures r.Ok? ==> r.value.h == IntOf(j.fields["h"]) && r.value.tilesetUid == IntOf(j.fields["tilesetUid"]) &&
                      r.value.w == IntOf(j.fields["w"]) && r.value.x == IntOf(j.fields["x"]) && r.value.y == IntOf(j.fields["y"])
  {
    var h :- GetInt(j, "h");
    var uid :- GetInt(j, "tilesetUid");
    var w :- GetInt(j, "w");
    var x :- GetInt(j, "x");
    var y :- GetInt(j, "y");
    Ok(TilesetRectangle(h, uid, w, x, y))
  }

  /** to_json for TilesetRectangle: an object with exactly the five keys, which from_json reads back. */
  function TilesetRectangleToJson(t: TilesetRectangle): (j: Json)
    ensures j.JObject? && j.fields.Keys == TILESET_RECTANGLE_KEYS
    ensures TilesetRectangleFromJson(j) == Ok(t)
  {
    JObject(map["h" := JInt(t.h), "tilesetUid" := JInt(t.tilesetUid), "w" := JInt(t.w), "x" := JInt(t.x), "y" := JInt(t.y)])
  }

  /** GridPoint: a grid-based coordinate. */
  datatype GridPoint = GridPoint(cx: Int64, cy: Int64)

  const GRID_POINT_KEYS: set<string> := {"cx", "cy"}

  function GridPointFromJson(j: Json): (r: Result<GridPoint, JsonError>)
    ensures r.Ok? <==> IntFields(j, GRID_POINT_KEYS)
    ensures r.Ok? ==> r.value.cx == IntOf(j.fields["cx"]) && r.value.cy == IntOf(j.fields["cy"])
  {
    var cx :- GetInt(j, "cx");
    var cy :- GetInt(j, "cy");
    Ok(GridPoint(cx, cy))
  }

  function GridPointToJson(p: GridPoint): (j: Json)
    ensures j.JObject? && j.fields.Keys == GRID_POINT_KEYS
    ensures GridPointFromJson(j) == Ok(p)
  {
    JObject(map["cx" := JInt(p.cx), "cy" := JInt(p.cy)])
  }

  /** IntGridValueInstance: an IntGrid value at a coordinate id of the layer grid. */
  datatype IntGridValueInstance = IntGridValueInstance(coordId: Int64, v: Int64)

  const INT_GRID_VALUE_KEYS: set<string> := {"coordId", "v"}

  function IntGridValueInstanceFromJson(j: Json): (r: Result<IntGridValueInstance, JsonError>)
    ensures r.Ok? <==> IntFields(j, INT_GRID_VALUE_KEYS)
    ensures r.Ok? ==> r.value.coordId == IntOf(j.fields["coordId"]) && r.value.v == IntOf(j.fields["v"])
  {
    var coordId :- GetInt(j, "coordId");
    var v :- GetInt(j, "v");
    Ok(IntGridValueInstance(coordId, v))
  }

  function IntGridValueInstanceToJson(g: IntGridValueInstance): (j: Json)
    ensures j.JObject? && j.fields.Keys == INT_GRID_VALUE_KEYS
    ensures IntGridValueInstanceFromJson(j) == Ok(g)
  {
    JObject(map["coordId" := JInt(g.coordId), "v" := JInt(g.v)])
  }

  /**
   * from_json reads only its own keys: two objects that agree on them decode
   * alike, so keys a later schema adds are ignored.
   */
  lemma FromJsonIgnoresOtherKeys(j: Json, k: Json)
    requires j.JObject? && k.JObject?
    requires forall key :: key in TILESET_RECTANGLE_KEYS ==> (key in j.fields <==> key in k.fields)
    requires forall key :: key in TILESET_RECTANGLE_KEYS && key in j.fields ==> j.fields[key] == k.fields[key]
    ensures TilesetRectangleFromJson(j) == TilesetRectangleFromJson(k)
  {
    assert "h" in TILESET_RECTANGLE_KEYS && "tilesetUid" in TILESET_RECTANGLE_KEYS;
    assert "w" in TILESET_RECTANGLE_KEYS && "x" in TILESET_RECTANGLE_KEYS && "y" in TILESET_RECTANGLE_KEYS;
  }

  /** Float coordinates are cast toward zero, and a boolean is a type error. */
  lemma GridPointFloatsTruncate()
    ensures GridPointFromJson(JObject(map["cx" := JFloat(1.5), "cy" := JFloat(-2.75)])) == Ok(GridPoint(1, -2))
    ensures GridPointFromJson(JObject(map["cx" := JBool(true), "cy" := JInt(0)])) == Err(TypeMismatch("cx"))
  {
    assert Truncate(1.5) == 1;
    assert Truncate(-2.75) == -2;
  }
}
