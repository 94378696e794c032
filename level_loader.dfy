/**
 * The level loader of src/level_loader.cpp: it turns the parsed LDtk
 * project into the level data of module LevelDefinitions. The records below
 * hold the few members of the LDtk schema structs the loader reads; reading
 * and parsing the project file is not modelled, its outcome is a parameter
 * (ProjectFile). Wherever the code uses ASSERT_RET or ASSERT_RET_VAL the
 * model follows the release build, which returns the given value.
 */
module LevelLoading {
  import opened Wrappers
  import opened Component
  import opened Colors
  import opened Ldtk
  import opened LevelDefinitions

  // -------------------------------------------------------------------
  // The LDtk records the loader reads
  // -------------------------------------------------------------------

  datatype NeighbourLevel = NeighbourLevel(dir: string, levelIid: string)

  /** A field instance; value is get_untyped(j, "__value"), so null when the key is absent. */
  datatype FieldInstance = FieldInstance(identifier: string, fieldType: string, value: Json)

  datatype TileInstance = TileInstance(px: seq<Int64>, src: seq<Int64>, t: Int64)

  datatype EntityInstance = EntityInstance(
    iid: string,
    identifier: string,
    px: seq<Int64>,
    pivot: seq<real>,
    width: Int64,
    height: Int64,
    tile: Option<TilesetRectangle>,
    fieldInstances: seq<FieldInstance>)

  datatype LayerInstance = LayerInstance(
    identifier: string,
    gridSize: Int64,
    tilesetDefUid: Option<Int64>,
    gridTiles: seq<TileInstance>,
    entityInstances: seq<EntityInstance>)

  datatype LdtkLevel = LdtkLevel(
    iid: string,
    identifier: string,
    worldX: Int64,
    worldY: Int64,
    pxWid: Int64,
    pxHei: Int64,
    neighbours: seq<NeighbourLevel>,
    fieldInstances: seq<FieldInstance>,
    layerInstances: Option<seq<LayerInstance>>)

  /** The value-initialised level that get_level hands out when it finds none. */
  const NULL_LEVEL: LdtkLevel := LdtkLevel("", "", 0, 0, 0, 0, [], [], None)

  /** An enum tag of a tileset definition: the tiles carrying one enum value. */
  datatype EnumTag = EnumTag(enumValueId: string, tileIds: seq<Int64>)

  datatype TilesetDefinition = TilesetDefinition(uid: Int64, relPath: Option<string>, enumTags: seq<EnumTag>)

  /** The Cache struct: the parsed project's levels and the tilesets built from its definitions. */
  datatype Cache = Cache(levels: seq<LdtkLevel>, tilesets: map<TilesetId, Tileset>)

  /** What load_project finds on disk: no file, a file it cannot open, one that fails to parse, or a project. */
  datatype ProjectFile =
    | Missing
    | Unopenable
    | Unparsable
    | Mismatched(error: JsonError)
    | Parsed(levels: seq<LdtkLevel>, tilesetDefs: seq<TilesetDefinition>)

  /** The exceptions that leave the loader: JSON parsing and conversion, and std::substr and std::stoi. */
  datatype LoadError = ParseFailure | JsonFailure(json: JsonError) | ConversionFailure(conversion: ConversionError)

  /** is_project_loaded: a project is cached and has at least one level. */
  predicate ProjectLoaded(cache: Option<Cache>)
  {
    cache.Some? && |cache.value.levels| > 0
  }

  // -------------------------------------------------------------------
  // Pure helpers
  // -------------------------------------------------------------------

  predicate StartsWith(s: string, prefix: string)
  {
    |prefix| <= |s| && s[..|prefix|] == prefix
  }

  /** The index of the first level with this iid, or the number of levels when there is none. */
  function FirstWithIid(levels: seq<LdtkLevel>, iid: string): (k: nat)
    ensures k <= |levels|
    ensures k < |levels| ==> levels[k].iid == iid
    ensures forall i :: 0 <= i < k ==> levels[i].iid != iid
  {
    if levels == [] then 0
    else if levels[0].iid == iid then 0
    else 1 + FirstWithIid(levels[1..], iid)
  }

  /** get_level_identifier: the identifier of the first level with the iid; "" without a project or a match. */
  function LevelIdentifier(cache: Option<Cache>, iid: string): (r: string)
    ensures !ProjectLoaded(cache) ==> r == ""
    ensures ProjectLoaded(cache) && (forall i :: 0 <= i < |cache.value.levels| ==> cache.value.levels[i].iid != iid) ==> r == ""
  {
    if !ProjectLoaded(cache) then ""
    else
      var k := FirstWithIid(cache.value.levels, iid);
      if k < |cache.value.levels| then cache.value.levels[k].identifier else ""
  }

  /** The identifier found is that of the first level whose iid matches. */
  lemma LevelIdentifierFirstMatch(cache: Option<Cache>, iid: string, k: nat)
    requires ProjectLoaded(cache) && k < |cache.value.levels| && cache.value.levels[k].iid == iid
    requires forall i :: 0 <= i < k ==> cache.value.levels[i].iid != iid
    ensures LevelIdentifier(cache, iid) == cache.value.levels[k].identifier
  {
  }

  /** The index of the first level with this identifier, or the number of levels. */
  function FirstNamed(levels: seq<LdtkLevel>, name: string): (k: nat)
    ensures k <= |levels|
    ensures k < |levels| ==> levels[k].identifier == name
    ensures forall i :: 0 <= i < k ==> levels[i].identifier != name
  {
    if levels == [] then 0
    else if levels[0].identifier == name then 0
    else 1 + FirstNamed(levels[1..], name)
  }

  /** get_level: the first level with the name, or the null level without a project or a match. */
  function GetLevel(cache: Option<Cache>, name: string): (r: LdtkLevel)
    ensures cache.None? ==> r == NULL_LEVEL
    ensures r != NULL_LEVEL ==> r.identifier == name && r in cache.value.levels
    ensures cache.Some? && (exists i :: 0 <= i < |cache.value.levels| && cache.value.levels[i].identifier == name) ==> r.identifier == name
  {
    if cache.None? then NULL_LEVEL
    else
      var k := FirstNamed(cache.value.levels, name);
      if k < |cache.value.levels| then cache.value.levels[k] else NULL_LEVEL
  }

  /** The code of each direction in the LDtk neighbour list. */
  function DirectionCode(d: Direction): string
  {
    match d
    case North => "n"
    case East => "e"
    case South => "s"
    case West => "w"
    case NorthEast => "ne"
    case NorthWest => "nw"
    case SouthEast => "se"
    case SouthWest => "sw"
  }

  const DIRECTION_CODES: set<string> := {"n", "e", "s", "w", "ne", "nw", "se", "sw"}

  /** direction_from_string: the direction of a listed code; any other string is North. */
  function DirectionFromString(dir: string): (d: Direction)
    ensures dir in DIRECTION_CODES ==> DirectionCode(d) == dir
    ensures dir !in DIRECTION_CODES ==> d == North
  {
    if dir == "n" then North
    else if dir == "e" then East
    else if dir == "s" then South
    else if dir == "w" then West
    else if dir == "ne" then NorthEast
    else if dir == "nw" then NorthWest
    else if dir == "se" then SouthEast
    else if dir == "sw" then SouthWest
    else North
  }

  /** Each of the eight directions is read back from its code, so the eight codes are distinct. */
  lemma DirectionRoundTrip(d: Direction)
    ensures DirectionCode(d) in DIRECTION_CODES
    ensures DirectionFromString(DirectionCode(d)) == d
  {
  }

  /** The "Invalid direction" assertion. */
  predicate DirectionAsserts(dir: string)
  {
    dir !in DIRECTION_CODES
  }

  /** get_layer_depth: front layers are drawn at -10, back layers at 10, the rest at 0. */
  function LayerDepth(identifier: string): (depth: int)
    ensures StartsWith(identifier, "Front") ==> depth == -10
    ensures !StartsWith(identifier, "Front") && StartsWith(identifier, "Back") ==> depth == 10
    ensures !StartsWith(identifier, "Front") && !StartsWith(identifier, "Back") ==> depth == 0
    ensures identifier == "Default" ==> depth == 0
  {
    DefaultIsNeitherFrontNorBack();
    if StartsWith(identifier, "Front") then -10
    else if identifier == "Default" then 0
    else if StartsWith(identifier, "Back") then 10
    else 0
  }

  lemma DefaultIsNeitherFrontNorBack()
    ensures !StartsWith("Default", "Front") && !StartsWith("Default", "Back")
  {
    assert "Default"[..4][0] != "Back"[0];
    assert "Default"[..5][0] != "Front"[0];
  }

  /** The "Invalid layer depth" assertion. */
  predicate LayerDepthAsserts(identifier: string)
  {
    !StartsWith(identifier, "Front") && identifier != "Default" && !StartsWith(identifier, "Back")
  }

  // -------------------------------------------------------------------
  // color_from_hex, with std::stoi(s, nullptr, 16)
  // -------------------------------------------------------------------

  /** The errors std::substr and std::stoi throw. */
  datatype ConversionError = OutOfRange | InvalidArgument

  function HexValue(c: char): (v: Option<nat>)
    ensures v.Some? ==> v.value < 16
  {
    if '0' <= c <= '9' then Some(c as int - '0' as int)
    else if 'a' <= c <= 'f' then Some(c as int - 'a' as int + 10)
    else if 'A' <= c <= 'F' then Some(c as int - 'A' as int + 10)
    else None
  }

  predicate IsHexDigit(c: char)
  {
    HexValue(c).Some?
  }

  predicate IsSpace(c: char)
  {
    c == ' ' || (9 <= c as int <= 13)
  }

  /** The number of leading hexadecimal digits. */
  function HexRun(s: string): (n: nat)
    ensures n <= |s|
    ensures forall i :: 0 <= i < n ==> IsHexDigit(s[i])
    ensures n < |s| ==> !IsHexDigit(s[n])
  {
    if s == [] || !IsHexDigit(s[0]) then 0 else 1 + HexRun(s[1..])
  }

  /** The value of a string of hexadecimal digits, most significant first. */
  function HexDigitsValue(s: string): (v: nat)
    requires forall i :: 0 <= i < |s| ==> IsHexDigit(s[i])
  {
    if s == [] then 0
    else
      assert IsHexDigit(s[|s| - 1]);
      16 * HexDigitsValue(s[..|s| - 1]) + HexValue(s[|s| - 1]).value
  }

  /**
   * std::stoi in base 16: leading white space, an optional sign and an
   * optional 0x or 0X before the digits; the longest run of digits is read,
   * and no digit at all is an error.
   */
  function StoiHex(s: string): (r: Result<int, ConversionError>)
  {
    var t := s[|SpaceRun(s)|..];
    var negative := |t| > 0 && t[0] == '-';
    var u := if |t| > 0 && (t[0] == '-' || t[0] == '+') then t[1..] else t;
    var digits := if |u| >= 3 && u[0] == '0' && (u[1] == 'x' || u[1] == 'X') && IsHexDigit(u[2]) then u[2..] else u;
    var n := HexRun(digits);
    if n == 0 then Err(InvalidArgument)
    else
      var v: int := HexDigitsValue(digits[..n]);
      Ok(if negative then -v else v)
  }

  /** The leading white space. */
  function SpaceRun(s: string): (w: string)
    ensures |w| <= |s| && w == s[..|w|]
  {
    if s == [] || !IsSpace(s[0]) then [] else [s[0]] + SpaceRun(s[1..])
  }

  /** std::string::substr(pos, 2). */
  function Substr2(s: string, pos: nat): (r: Result<string, ConversionError>)
    ensures r.Ok? <==> pos <= |s|
    ensures r.Ok? ==> r.value == s[pos..if pos + 2 <= |s| then pos + 2 else |s|]
  {
    if pos > |s| then Err(OutOfRange)
    else Ok(s[pos..if pos + 2 <= |s| then pos + 2 else |s|])
  }

  /** One channel: stoi of the two characters at pos, cast to unsigned char. */
  function Channel(hex: string, pos: nat): (r: Result<Byte, ConversionError>)
  {
    var part :- Substr2(hex, pos);
    var v :- StoiHex(part);
    Ok(v % 256)
  }

  /** color_from_hex: the channels from the character pairs at 1, 3 and 5, opaque. */
  function ColorFromHex(hex: string): (r: Result<Color, ConversionError>)
    ensures r.Ok? ==> r.value.a == 255
    ensures |hex| == 0 ==> r == Err(OutOfRange)
  {
    var red :- Channel(hex, 1);
    var green :- Channel(hex, 3);
    var blue :- Channel(hex, 5);
    Ok(Color(red, green, blue, 255))
  }

  /** The lowercase hexadecimal digit of a value below 16. */
  function HexChar(v: nat): (c: char)
    requires v < 16
    ensures HexValue(c) == Some(v)
  {
    if v < 10 then ('0' as int + v) as char else ('a' as int + v - 10) as char
  }

  /** Two hexadecimal digits of a byte, high digit first. */
  function HexPair(b: Byte): (s: string)
  {
    [HexChar(b / 16), HexChar(b % 16)]
  }

  /** "#rrggbb", as LDtk writes an opaque colour. */
  function HexOf(c: Color): (s: string)
  {
    "#" + HexPair(c.r) + HexPair(c.g) + HexPair(c.b)
  }

  /** stoi reads back the byte of each pair of digits. */
  lemma StoiHexPair(b: Byte)
    ensures StoiHex(HexPair(b)) == Ok(b)
  {
    var s := HexPair(b);
    assert SpaceRun(s) == [] by {
      assert !IsSpace(s[0]);
    }
    assert !(s[0] == '-' || s[0] == '+');
    assert HexRun(s) == 2 by {
      assert HexRun(s[1..]) == 1 by {
        assert s[1..][1..] == [];
      }
    }
    assert s[..2] == s;
    assert s[..1] == [s[0]];
    assert HexDigitsValue(s[..1]) == b / 16 by {
      assert s[..1][..0] == [];
    }
  }

  /** A channel written as two digits at pos reads back. */
  lemma ChannelOfPair(hex: string, pos: nat, b: Byte)
    requires pos + 2 <= |hex| && hex[pos..pos + 2] == HexPair(b)
    ensures Channel(hex, pos) == Ok(b)
  {
    StoiHexPair(b);
  }

  /** color_from_hex reads back every opaque colour written as "#rrggbb". */
  lemma ColorFromHexRoundTrip(c: Color)
    requires c.a == 255
    ensures ColorFromHex(HexOf(c)) == Ok(c)
  {
    var hex := HexOf(c);
    assert |hex| == 7;
    assert hex[1..3] == HexPair(c.r);
    assert hex[3..5] == HexPair(c.g);
    assert hex[5..7] == HexPair(c.b);
    ChannelOfPair(hex, 1, c.r);
    ChannelOfPair(hex, 3, c.g);
    ChannelOfPair(hex, 5, c.b);
  }

  /** load_tile: the rectangle's tileset, source corner and size; id, position and depth stay zero. */
  function LoadTile(rect: TilesetRectangle): (t: Tile)
    ensures t.tilesetId == rect.tilesetUid && t.id == 0 && t.position == ORIGIN && t.depth == 0
    ensures t.sourcePosition == TileSourcePosition(ToInt32(rect.x), ToInt32(rect.y))
    ensures t.size == TileSize(ToInt32(rect.w), ToInt32(rect.h))
  {
    Tile(rect.tilesetUid, 0, ORIGIN, TileSourcePosition(ToInt32(rect.x), ToInt32(rect.y)), TileSize(ToInt32(rect.w), ToInt32(rect.h)), 0)
  }

  // -------------------------------------------------------------------
  // load_tilesets and load_project
  // -------------------------------------------------------------------

  /** The elements of a sequence, as a set. */
  function ElementSet(s: seq<Int64>): (r: set<TileId>)
    ensures forall x :: x in r <==> x in s
  {
    set x | x in s
  }

  /** One enum tag merged into the map, as operator[] and the set inserter do. */
  function AddEnumTag(m: map<string, set<TileId>>, tag: EnumTag): map<string, set<TileId>>
  {
    m[tag.enumValueId := (if tag.enumValueId in m then m[tag.enumValueId] else {}) + ElementSet(tag.tileIds)]
  }

  /** The enum_tiles of a tileset, tag by tag. */
  function EnumTilesOf(tags: seq<EnumTag>): map<string, set<TileId>>
  {
    if tags == [] then map[] else AddEnumTag(EnumTilesOf(tags[..|tags| - 1]), tags[|tags| - 1])
  }

  /** An enum value is present when some tag names it, and it holds every tile of every such tag. */
  lemma {:induction false} EnumTilesContents(tags: seq<EnumTag>, id: string, t: TileId)
    ensures id in EnumTilesOf(tags) <==> exists k :: 0 <= k < |tags| && tags[k].enumValueId == id
    ensures id in EnumTilesOf(tags) ==> (t in EnumTilesOf(tags)[id] <==>
      exists k :: 0 <= k < |tags| && tags[k].enumValueId == id && t in tags[k].tileIds)
  {
    if tags != [] {
      var init := tags[..|tags| - 1];
      EnumTilesContents(init, id, t);
      assert forall k :: 0 <= k < |init| ==> init[k] == tags[k];
    }
  }

  /** get_tileset_path: the file name under the assets directory. */
  function TilesetPath(relPath: string): string
  {
    "assets/" + relPath
  }

  function TilesetOf(def: TilesetDefinition): Tileset
    requires def.relPath.Some?
  {
    Tileset(def.uid, TilesetPath(def.relPath.value), EnumTilesOf(def.enumTags))
  }

  /** One definition: skipped without a relative path, else stored under its uid. */
  function AddTileset(m: map<TilesetId, Tileset>, def: TilesetDefinition): map<TilesetId, Tileset>
  {
    if def.relPath.None? then m else m[def.uid := TilesetOf(def)]
  }

  function TilesetsOf(defs: seq<TilesetDefinition>): map<TilesetId, Tileset>
  {
    if defs == [] then map[] else AddTileset(TilesetsOf(defs[..|defs| - 1]), defs[|defs| - 1])
  }

  /** A uid is stored when a definition with a path has it, and it holds the tileset of one of them. */
  lemma {:induction false} TilesetsContents(defs: seq<TilesetDefinition>, uid: TilesetId)
    ensures uid in TilesetsOf(defs) <==> exists k :: 0 <= k < |defs| && defs[k].relPath.Some? && defs[k].uid == uid
    ensures uid in TilesetsOf(defs) ==> TilesetsOf(defs)[uid].id == uid
    ensures uid in TilesetsOf(defs) ==> exists k :: (0 <= k < |defs| && defs[k].relPath.Some? && defs[k].uid == uid &&
      TilesetsOf(defs)[uid] == TilesetOf(defs[k]))
  {
    if defs != [] {
      var init := defs[..|defs| - 1];
      TilesetsContents(init, uid);
      assert forall k :: 0 <= k < |init| ==> init[k] == defs[k];
    }
  }

  /** load_tilesets: one tileset per definition that has a path. */
  method LoadTilesets(defs: seq<TilesetDefinition>) returns (tilesets: map<TilesetId, Tileset>)
    ensures tilesets == TilesetsOf(defs)
  {
    tilesets := map[];
    for i := 0 to |defs|
      invariant tilesets == TilesetsOf(defs[..i])
    {
      assert defs[..i + 1][..i] == defs[..i];
      var def := defs[i];
      if def.relPath.None? {
        continue;
      }
      var enumTiles: map<string, set<TileId>> := map[];
      for j := 0 to |def.enumTags|
        invariant enumTiles == EnumTilesOf(def.enumTags[..j])
      {
        assert def.enumTags[..j + 1][..j] == def.enumTags[..j];
        var tag := def.enumTags[j];
        var ids := if tag.enumValueId in enumTiles then enumTiles[tag.enumValueId] else {};
        enumTiles := enumTiles[tag.enumValueId := ids + ElementSet(tag.tileIds)];
      }
      assert def.enumTags[..|def.enumTags|] == def.enumTags;
      tilesets := tilesets[def.uid := Tileset(def.uid, TilesetPath(def.relPath.value), enumTiles)];
    }
    assert defs[..|defs|] == defs;
  }

  /**
   * load_project: a missing file leaves the cache alone; otherwise the cache
   * is dropped first. A file that cannot be opened or parsed leaves it empty,
   * one that does not fit the schema leaves an empty project, and a parsed
   * project gets its tilesets only when it has levels.
   */
  function LoadProjectSpec(cache: Option<Cache>, file: ProjectFile): (r: (Option<Cache>, Option<LoadError>))
    ensures file.Missing? ==> r == (cache, None)
    ensures r.1.Some? <==> file.Unparsable? || file.Mismatched?
    ensures file.Mismatched? ==> r.1 == Some(JsonFailure(file.error))
    ensures ProjectLoaded(r.0) <==> (file.Missing? && ProjectLoaded(cache)) || (file.Parsed? && |file.levels| > 0)
    ensures file.Parsed? ==> r.0.Some? && r.0.value.levels == file.levels
    ensures file.Parsed? && |file.levels| == 0 ==> r.0.value.tilesets == map[]
  {
    match file
    case Missing => (cache, None)
    case Unopenable => (None, None)
    case Unparsable => (None, Some(ParseFailure))
    case Mismatched(e) => (Some(Cache([], map[])), Some(JsonFailure(e)))
    case Parsed(levels, defs) =>
      if |levels| == 0 then (Some(Cache(levels, map[])), None)
      else (Some(Cache(levels, TilesetsOf(defs))), None)
  }

  /** After a load, every cached tileset is stored under its own id. */
  lemma LoadedTilesetsKeyed(cache: Option<Cache>, file: ProjectFile, uid: TilesetId)
    requires file.Parsed?
    requires uid in LoadProjectSpec(cache, file).0.value.tilesets
    ensures LoadProjectSpec(cache, file).0.value.tilesets[uid].id == uid
  {
    TilesetsContents(file.tilesetDefs, uid);
  }

  /** The static project cache the loader shares between all its instances. */
  class ProjectCache {
    var cache: Option<Cache>

    constructor ()
      ensures cache == None
    {
      cache := None;
    }

    /** load_project, with what it finds on disk as a parameter; the error is the exception it throws. */
    method LoadProject(file: ProjectFile) returns (error: Option<LoadError>)
      modifies this
      ensures (cache, error) == LoadProjectSpec(old(cache), file)
    {
      error := None;
      match file {
        case Missing =>
        case Unopenable =>
          cache := None;
        case Unparsable =>
          cache := None;
          error := Some(ParseFailure);
        case Mismatched(e) =>
          cache := Some(Cache([], map[]));
          error := Some(JsonFailure(e));
        case Parsed(levels, defs) =>
          cache := Some(Cache(levels, map[]));
          if |levels| > 0 {
            var tilesets := LoadTilesets(defs);
            cache := Some(Cache(levels, tilesets));
          }
      }
    }
  }

  // -------------------------------------------------------------------
  // load_neighbours
  // -------------------------------------------------------------------

  type NeighbourMap = map<Direction, string>

  /** A neighbour with its direction decoded and its level's identifier looked up. */
  datatype Neighbour = Neighbour(direction: Direction, identifier: string)

  function Resolve(cache: Option<Cache>, ns: seq<NeighbourLevel>): (r: seq<Neighbour>)
    ensures |r| == |ns|
    ensures forall k :: 0 <= k < |ns| ==>
      r[k] == Neighbour(DirectionFromString(ns[k].dir), LevelIdentifier(cache, ns[k].levelIid))
  {
    seq(|ns|, k requires 0 <= k < |ns| => Neighbour(DirectionFromString(ns[k].dir), LevelIdentifier(cache, ns[k].levelIid)))
  }

  /** The neighbours read so far, or None once a direction repeats. */
  function NeighboursOf(ns: seq<Neighbour>): Option<NeighbourMap>
  {
    if ns == [] then Some(map[])
    else match NeighboursOf(ns[..|ns| - 1])
      case None => None
      case Some(m) =>
        var last := ns[|ns| - 1];
        if last.direction in m then None else Some(m[last.direction := last.identifier])
  }

  /** load_neighbours: the identifier of the level beside each direction; a repeated direction gives none. */
  function LoadNeighboursSpec(cache: Option<Cache>, ns: seq<NeighbourLevel>): NeighbourMap
  {
    match NeighboursOf(Resolve(cache, ns))
    case None => map[]
    case Some(m) => m
  }

  predicate DistinctDirections(ns: seq<Neighbour>)
  {
    forall i, j :: 0 <= i < j < |ns| ==> ns[i].direction != ns[j].direction
  }

  /** An accepted run maps each of its directions, and nothing else, to its identifier. */
  lemma {:induction false} NeighboursContents(ns: seq<Neighbour>)
    requires NeighboursOf(ns).Some?
    ensures forall d :: d in NeighboursOf(ns).value <==> exists k :: 0 <= k < |ns| && ns[k].direction == d
    ensures forall k :: 0 <= k < |ns| ==> NeighboursOf(ns).value[ns[k].direction] == ns[k].identifier
  {
    if ns != [] {
      var init := ns[..|ns| - 1];
      NeighboursContents(init);
      assert forall k :: 0 <= k < |init| ==> init[k] == ns[k];
    }
  }

  /** A run of neighbours is accepted exactly when its directions are distinct. */
  lemma {:induction false} NeighboursAccepted(ns: seq<Neighbour>)
    ensures NeighboursOf(ns).Some? <==> DistinctDirections(ns)
  {
    if ns != [] {
      var init := ns[..|ns| - 1];
      var d := ns[|ns| - 1].direction;
      NeighboursAccepted(init);
      assert forall k :: 0 <= k < |init| ==> init[k] == ns[k];
      if NeighboursOf(init).Some? {
        var m := NeighboursOf(init).value;
        NeighboursContents(init);
        if d in m {
          var k :| 0 <= k < |init| && init[k].direction == d;
          assert ns[k].direction == ns[|ns| - 1].direction;
        } else {
          forall i, j | 0 <= i < j < |ns|
            ensures ns[i].direction != ns[j].direction
          {
            if j == |ns| - 1 {
              assert init[i].direction in m;
            } else {
              assert init[i] == ns[i] && init[j] == ns[j];
            }
          }
        }
      } else {
        var a, b :| 0 <= a < b < |init| && init[a].direction == init[b].direction;
        assert ns[a].direction == ns[b].direction;
      }
    }
  }

  /** With distinct directions, each neighbour's direction maps to its level's identifier. */
  lemma NeighboursDistinct(cache: Option<Cache>, ns: seq<NeighbourLevel>, k: nat)
    requires DistinctDirections(Resolve(cache, ns)) && k < |ns|
    ensures DirectionFromString(ns[k].dir) in LoadNeighboursSpec(cache, ns)
    ensures LoadNeighboursSpec(cache, ns)[DirectionFromString(ns[k].dir)] == LevelIdentifier(cache, ns[k].levelIid)
  {
    var r := Resolve(cache, ns);
    NeighboursAccepted(r);
    NeighboursContents(r);
    assert r[k].direction == DirectionFromString(ns[k].dir);
  }

  /** With distinct directions, nothing but the listed directions is present. */
  lemma NeighboursOnlyListed(cache: Option<Cache>, ns: seq<NeighbourLevel>, d: Direction)
    requires DistinctDirections(Resolve(cache, ns))
    requires forall k :: 0 <= k < |ns| ==> DirectionFromString(ns[k].dir) != d
    ensures d !in LoadNeighboursSpec(cache, ns)
  {
    var r := Resolve(cache, ns);
    NeighboursAccepted(r);
    NeighboursContents(r);
  }

  /** Two neighbours in one direction make the whole map empty. */
  lemma NeighboursDuplicate(cache: Option<Cache>, ns: seq<NeighbourLevel>, i: nat, j: nat)
    requires i < j < |ns| && DirectionFromString(ns[i].dir) == DirectionFromString(ns[j].dir)
    ensures LoadNeighboursSpec(cache, ns) == map[]
  {
    var r := Resolve(cache, ns);
    NeighboursAccepted(r);
    assert r[i].direction == r[j].direction;
  }

  /** A direction already read rejects the whole run. */
  lemma RepeatRejects(r: seq<Neighbour>, i: nat)
    requires i < |r| && NeighboursOf(r[..i]).Some? && r[i].direction in NeighboursOf(r[..i]).value
    ensures NeighboursOf(r).None?
  {
    assert r[..i + 1][..i] == r[..i];
    NeighboursAccepted(r[..i + 1]);
    NeighboursAccepted(r);
    var a, b :| 0 <= a < b < i + 1 && r[..i + 1][a].direction == r[..i + 1][b].direction;
    assert r[a].direction == r[b].direction;
  }

  method LoadNeighbours(cache: Option<Cache>, ns: seq<NeighbourLevel>) returns (neighbours: NeighbourMap)
    ensures neighbours == LoadNeighboursSpec(cache, ns)
  {
    ghost var r := Resolve(cache, ns);
    neighbours := map[];
    for i := 0 to |ns|
      invariant NeighboursOf(r[..i]) == Some(neighbours)
    {
      assert r[..i + 1][..i] == r[..i];
      var identifier := LevelIdentifier(cache, ns[i].levelIid);
      var direction := DirectionFromString(ns[i].dir);
      assert r[i] == Neighbour(direction, identifier);
      if direction in neighbours {
        RepeatRejects(r, i);
        return map[];
      }
      neighbours := neighbours[direction := identifier];
    }
    assert r[..|ns|] == r;
  }

  // -------------------------------------------------------------------
  // load_tiles
  // -------------------------------------------------------------------

  /** A grid tile with both coordinates of its position and of its source. */
  predicate WellFormedTile(t: TileInstance)
  {
    |t.px| >= 2 && |t.src| >= 2
  }

  /** The index of the first grid tile that is not well formed, or the number of tiles. */
  function FirstMalformed(ts: seq<TileInstance>): (n: nat)
    ensures n <= |ts|
    ensures forall i :: 0 <= i < n ==> WellFormedTile(ts[i])
    ensures n < |ts| ==> !WellFormedTile(ts[n])
  {
    if ts == [] || !WellFormedTile(ts[0]) then 0 else 1 + FirstMalformed(ts[1..])
  }

  /** The tile the loader builds from one grid tile of the layer. */
  function MakeTile(layer: LayerInstance, t: TileInstance): Tile
    requires WellFormedTile(t)
  {
    Tile(
      if layer.tilesetDefUid.Some? then layer.tilesetDefUid.value else 0,
      t.t,
      TilePosition(ToInt32(t.px[0]), ToInt32(t.px[1])),
      TileSourcePosition(ToInt32(t.src[0]), ToInt32(t.src[1])),
      TileSize(ToInt32(layer.gridSize), ToInt32(layer.gridSize)),
      LayerDepth(layer.identifier))
  }

  /**
   * load_tiles: one tile per grid tile, in order, up to the first grid tile
   * without two coordinates; each has the layer's tileset (0 when it has
   * none), its grid size and its depth.
   */
  function LoadTilesSpec(layer: LayerInstance): (tiles: seq<Tile>)
    ensures |tiles| <= |layer.gridTiles|
    ensures |tiles| < |layer.gridTiles| ==> !WellFormedTile(layer.gridTiles[|tiles|])
    ensures forall i :: 0 <= i < |tiles| ==> (WellFormedTile(layer.gridTiles[i]) &&
      tiles[i].id == layer.gridTiles[i].t &&
      tiles[i].position == TilePosition(ToInt32(layer.gridTiles[i].px[0]), ToInt32(layer.gridTiles[i].px[1])) &&
      tiles[i].sourcePosition == TileSourcePosition(ToInt32(layer.gridTiles[i].src[0]), ToInt32(layer.gridTiles[i].src[1])))
    ensures forall i :: 0 <= i < |tiles| ==>
      tiles[i].depth == LayerDepth(layer.identifier) &&
      tiles[i].size == TileSize(ToInt32(layer.gridSize), ToInt32(layer.gridSize)) &&
      tiles[i].tilesetId == (if layer.tilesetDefUid.Some? then layer.tilesetDefUid.value else 0)
  {
    var n := FirstMalformed(layer.gridTiles);
    seq(n, i requires 0 <= i < n => MakeTile(layer, layer.gridTiles[i]))
  }

  /** When every grid tile is well formed, each one becomes a tile. */
  lemma AllTilesLoaded(layer: LayerInstance)
    requires forall i :: 0 <= i < |layer.gridTiles| ==> WellFormedTile(layer.gridTiles[i])
    ensures |LoadTilesSpec(layer)| == |layer.gridTiles|
  {
  }

  method LoadTiles(layer: LayerInstance) returns (tiles: seq<Tile>)
    ensures tiles == LoadTilesSpec(layer)
  {
    tiles := [];
    if |layer.gridTiles| == 0 {
      return;
    }
    var tilesetUid := if layer.tilesetDefUid.Some? then layer.tilesetDefUid.value else 0;
    var i := 0;
    while i < |layer.gridTiles|
      invariant 0 <= i <= |layer.gridTiles| && |tiles| == i
      invariant forall j :: 0 <= j < i ==> WellFormedTile(layer.gridTiles[j]) && tiles[j] == MakeTile(layer, layer.gridTiles[j])
    {
      var tile := layer.gridTiles[i];
      if |tile.px| < 2 || |tile.src| < 2 {
        assert FirstMalformed(layer.gridTiles) == i;
        return;
      }
      var t := Tile(
        tilesetUid,
        tile.t,
        TilePosition(ToInt32(tile.px[0]), ToInt32(tile.px[1])),
        TileSourcePosition(ToInt32(tile.src[0]), ToInt32(tile.src[1])),
        TileSize(ToInt32(layer.gridSize), ToInt32(layer.gridSize)),
        LayerDepth(layer.identifier));
      tiles := tiles + [t];
      i := i + 1;
    }
    assert FirstMalformed(layer.gridTiles) == i;
  }

  // -------------------------------------------------------------------
  // load_fields
  // -------------------------------------------------------------------

  /** The alternative a field type names: "String" and the local enums are strings; others are unsupported. */
  function KindOfType(fieldType: string): (k: Option<Kind>)
    ensures StartsWith(fieldType, "LocalEnum.") ==> k == Some(StringKind)
  {
    if fieldType == "Tile" then Some(TileKind)
    else if fieldType == "String" || StartsWith(fieldType, "LocalEnum.") then Some(StringKind)
    else if fieldType == "Color" then Some(ColorKind)
    else if fieldType == "Int" then Some(IntKind)
    else if fieldType == "Bool" then Some(BoolKind)
    else if fieldType == "Float" then Some(FloatKind)
    else if fieldType == "EntityRef" then Some(RefKind)
    else None
  }

  /** Whether the JSON value has the shape the field type asks for: a float field also takes an integer. */
  predicate ShapeFits(kind: Kind, value: Json)
  {
    match kind
    case TileKind => value.JObject?
    case StringKind => value.JString?
    case ColorKind => value.JString?
    case IntKind => value.JInt?
    case BoolKind => value.JBool?
    case FloatKind => value.JInt? || value.JFloat?
    case RefKind => true
  }

  /** What one field instance does to the loop of load_fields. */
  datatype FieldStep =
    | Skip
    | Put(name: string, field: Field)
    | ReturnEmpty
    | ReturnSoFar
    | Throw(error: LoadError)

  /**
   * One field instance: a null value is skipped; an unsupported type ends
   * the loop with the fields read so far; a value of the wrong shape ends it
   * with no fields at all; a conversion that throws ends it with the
   * exception; anything else is stored under the instance's identifier.
   */
  function FieldStepOf(ins: FieldInstance): (step: FieldStep)
    ensures step.Skip? <==> ins.value.JNull?
    ensures step.ReturnSoFar? <==> !ins.value.JNull? && KindOfType(ins.fieldType).None?
    ensures step.ReturnEmpty? <==> !ins.value.JNull? && KindOfType(ins.fieldType).Some? && !ShapeFits(KindOfType(ins.fieldType).value, ins.value)
    ensures step.Put? ==> step.name == ins.identifier && KindOfType(ins.fieldType) == Some(step.field.Kind())
    ensures step.Throw? ==> KindOfType(ins.fieldType) in {Some(TileKind), Some(ColorKind), Some(RefKind)}
  {
    if ins.value.JNull? then Skip
    else match KindOfType(ins.fieldType)
      case None => ReturnSoFar
      case Some(kind) =>
        if !ShapeFits(kind, ins.value) then ReturnEmpty
        else match kind
          case TileKind =>
            (match TilesetRectangleFromJson(ins.value)
             case Ok(rect) => Put(ins.identifier, TileField(LoadTile(rect)))
             case Err(e) => Throw(JsonFailure(e)))
          case StringKind => Put(ins.identifier, StringField(ins.value.str))
          case ColorKind =>
            (match ColorFromHex(ins.value.str)
             case Ok(c) => Put(ins.identifier, ColorField(c))
             case Err(e) => Throw(ConversionFailure(e)))
          case IntKind => Put(ins.identifier, IntField(ToInt32(ins.value.i)))
          case BoolKind => Put(ins.identifier, BoolField(ins.value.b))
          case FloatKind =>
            if ins.value.JInt? then Put(ins.identifier, FloatField(ToInt32(ins.value.i) as real))
            else Put(ins.identifier, FloatField(ins.value.f))
          case RefKind =>
            (match EntityReferenceFromJson(ins.value)
             case Ok(ref) => Put(ins.identifier, RefField(RefTo(ref.entityIid)))
             case Err(e) => Throw(JsonFailure(e)))
  }

  /** What each instance does to the loop, in order. */
  function StepsOf(ins: seq<FieldInstance>): (steps: seq<FieldStep>)
    ensures |steps| == |ins| && forall j :: 0 <= j < |ins| ==> steps[j] == FieldStepOf(ins[j])
  {
    seq(|ins|, j requires 0 <= j < |ins| => FieldStepOf(ins[j]))
  }

  /** The loop of load_fields over the remaining steps, from the fields read so far. */
  function FieldsFrom(acc: FieldMap, steps: seq<FieldStep>): Result<FieldMap, LoadError>
    decreases |steps|
  {
    if steps == [] then Ok(acc)
    else match steps[0]
      case Skip => FieldsFrom(acc, steps[1..])
      case Put(name, f) => FieldsFrom(acc[name := f], steps[1..])
      case ReturnEmpty => Ok(map[])
      case ReturnSoFar => Ok(acc)
      case Throw(e) => Err(e)
  }

  /** load_fields */
  function LoadFieldsSpec(ins: seq<FieldInstance>): Result<FieldMap, LoadError>
  {
    FieldsFrom(map[], StepsOf(ins))
  }

  /** Every step is skipped or stored. */
  predicate AllStored(steps: seq<FieldStep>)
  {
    forall j :: 0 <= j < |steps| ==> steps[j].Skip? || steps[j].Put?
  }

  /** Whether some step stores a field under this name. */
  predicate Stores(steps: seq<FieldStep>, name: string)
  {
    exists j :: 0 <= j < |steps| && steps[j].Put? && steps[j].name == name
  }

  /** The loop never fails when every instance is stored, and a name no instance stores keeps its entry. */
  lemma {:induction false} FieldsUntouched(acc: FieldMap, steps: seq<FieldStep>, name: string)
    requires AllStored(steps)
    ensures FieldsFrom(acc, steps).Ok?
    ensures !Stores(steps, name) ==> (name in FieldsFrom(acc, steps).value <==> name in acc)
    ensures !Stores(steps, name) && name in acc ==> FieldsFrom(acc, steps).value[name] == acc[name]
    decreases |steps|
  {
    if steps != [] {
      assert forall j :: 0 <= j < |steps[1..]| ==> steps[1..][j] == steps[j + 1];
      match steps[0]
      case Skip =>
        FieldsUntouched(acc, steps[1..], name);
        assert Stores(steps[1..], name) ==> Stores(steps, name);
      case Put(n, f) =>
        FieldsUntouched(acc[n := f], steps[1..], name);
        assert Stores(steps[1..], name) ==> Stores(steps, name);
    }
  }

  /** The last instance that stores a name decides its field. */
  lemma {:induction false} FieldsLastWriteWins(acc: FieldMap, steps: seq<FieldStep>, k: nat)
    requires AllStored(steps) && k < |steps| && steps[k].Put?
    requires forall j :: k < j < |steps| && steps[j].Put? ==> steps[j].name != steps[k].name
    ensures FieldsFrom(acc, steps).Ok?
    ensures steps[k].name in FieldsFrom(acc, steps).value
    ensures FieldsFrom(acc, steps).value[steps[k].name] == steps[k].field
    decreases |steps|
  {
    var step := steps[k];
    assert forall j :: 0 <= j < |steps[1..]| ==> steps[1..][j] == steps[j + 1];
    if k == 0 {
      FieldsUntouched(acc[step.name := step.field], steps[1..], step.name);
    } else {
      match steps[0]
      case Skip => FieldsLastWriteWins(acc, steps[1..], k - 1);
      case Put(n, f) => FieldsLastWriteWins(acc[n := f], steps[1..], k - 1);
    }
  }

  /** A wrong-shaped value empties the fields, and a throwing conversion fails the loop, whatever came before. */
  lemma {:induction false} FieldsStop(acc: FieldMap, steps: seq<FieldStep>, k: nat)
    requires k < |steps| && AllStored(steps[..k])
    ensures steps[k].ReturnEmpty? ==> FieldsFrom(acc, steps) == Ok(map[])
    ensures steps[k].Throw? ==> FieldsFrom(acc, steps) == Err(steps[k].error)
    decreases |steps|
  {
    if k > 0 {
      assert steps[..k][0].Skip? || steps[..k][0].Put?;
      assert steps[1..][..k - 1] == steps[1..k];
      assert forall j :: 0 <= j < k - 1 ==> steps[1..k][j] == steps[..k][j + 1];
      match steps[0]
      case Skip => FieldsStop(acc, steps[1..], k - 1);
      case Put(n, f) => FieldsStop(acc[n := f], steps[1..], k - 1);
    }
  }

  method LoadFields(ins: seq<FieldInstance>) returns (r: Result<FieldMap, LoadError>)
    ensures r == LoadFieldsSpec(ins)
  {
    ghost var steps := StepsOf(ins);
    var fields: FieldMap := map[];
    for i := 0 to |ins|
      invariant FieldsFrom(fields, steps[i..]) == FieldsFrom(map[], steps)
    {
      assert steps[i..][0] == FieldStepOf(ins[i]) && steps[i..][1..] == steps[i + 1..];
      match FieldStepOf(ins[i]) {
        case Skip =>
        case Put(name, f) =>
          fields := fields[name := f];
        case ReturnEmpty =>
          return Ok(map[]);
        case ReturnSoFar =>
          return Ok(fields);
        case Throw(e) =>
          return Err(e);
      }
    }
    return Ok(fields);
  }

  // -------------------------------------------------------------------
  // load_entities
  // -------------------------------------------------------------------

  type EntityMap = map<LevelEntityId, LevelEntity>

  /** An entity instance with two coordinates of pivot and of position. */
  predicate WellFormedEntity(ins: EntityInstance)
  {
    |ins.pivot| >= 2 && |ins.px| >= 2
  }

  /** The position of an entity: its pixel position less the pivot share of its size. */
  function EntityPosition(ins: EntityInstance): TilePosition
    requires WellFormedEntity(ins)
  {
    TilePosition(
      ToInt32(Truncate(ins.px[0] as real - ins.pivot[0] * ins.width as real)),
      ToInt32(Truncate(ins.px[1] as real - ins.pivot[1] * ins.height as real)))
  }

  /** The level entity built from an instance and its loaded fields. */
  function EntityOf(ins: EntityInstance, fields: FieldMap): (e: LevelEntity)
    requires WellFormedEntity(ins)
    ensures e.id == ins.iid && e.name == ins.identifier && e.position == EntityPosition(ins)
    ensures e.size == TileSize(ToInt32(ins.width), ToInt32(ins.height))
    ensures e.tile.Some? <==> ins.tile.Some?
    ensures e.tile.Some? ==> e.tile.value == LoadTile(ins.tile.value).(position := e.position)
    ensures e.fields == fields["Identifier" := StringField(ins.iid)]
  {
    var position := EntityPosition(ins);
    LevelEntity(
      ins.iid,
      ins.identifier,
      position,
      TileSize(ToInt32(ins.width), ToInt32(ins.height)),
      if ins.tile.Some? then Some(LoadTile(ins.tile.value).(position := position)) else None,
      fields["Identifier" := StringField(ins.iid)])
  }

  /** The loop of load_entities from the entities read so far. */
  function EntitiesFrom(acc: EntityMap, ins: seq<EntityInstance>): Result<EntityMap, LoadError>
    decreases |ins|
  {
    if ins == [] then Ok(acc)
    else if !WellFormedEntity(ins[0]) then Ok(map[])
    else match LoadFieldsSpec(ins[0].fieldInstances)
      case Err(e) => Err(e)
      case Ok(fields) => EntitiesFrom(acc[ins[0].iid := EntityOf(ins[0], fields)], ins[1..])
  }

  /** load_entities */
  function LoadEntitiesSpec(layer: LayerInstance): Result<EntityMap, LoadError>
  {
    EntitiesFrom(map[], layer.entityInstances)
  }

  /** Each entity is stored under its id, and its fields name it under "Identifier". */
  predicate EntitiesKeyed(m: EntityMap)
  {
    forall id :: id in m ==> m[id].id == id && "Identifier" in m[id].fields && m[id].fields["Identifier"] == StringField(id)
  }

  /** The loop keeps every entity keyed by its id. */
  lemma {:induction false} EntitiesFromKeyed(acc: EntityMap, ins: seq<EntityInstance>)
    requires EntitiesKeyed(acc)
    ensures EntitiesFrom(acc, ins).Ok? ==> EntitiesKeyed(EntitiesFrom(acc, ins).value)
    decreases |ins|
  {
    if ins != [] && WellFormedEntity(ins[0]) {
      match LoadFieldsSpec(ins[0].fieldInstances)
      case Err(_) =>
      case Ok(fields) => EntitiesFromKeyed(acc[ins[0].iid := EntityOf(ins[0], fields)], ins[1..]);
    }
  }

  /** The entities loaded are those read so far and those of the instances, and nothing else. */
  lemma {:induction false} EntitiesFromKeys(acc: EntityMap, ins: seq<EntityInstance>, id: LevelEntityId)
    requires EntitiesFrom(acc, ins).Ok? && id in EntitiesFrom(acc, ins).value
    ensures id in acc || exists k :: 0 <= k < |ins| && ins[k].iid == id
    decreases |ins|
  {
    if ins != [] && WellFormedEntity(ins[0]) {
      match LoadFieldsSpec(ins[0].fieldInstances)
      case Err(_) =>
      case Ok(fields) =>
        EntitiesFromKeys(acc[ins[0].iid := EntityOf(ins[0], fields)], ins[1..], id);
        if exists k :: 0 <= k < |ins[1..]| && ins[1..][k].iid == id {
          var k :| 0 <= k < |ins[1..]| && ins[1..][k].iid == id;
          assert ins[k + 1].iid == id;
        }
    }
  }

  method LoadEntities(layer: LayerInstance) returns (r: Result<EntityMap, LoadError>)
    ensures r == LoadEntitiesSpec(layer)
  {
    var ins := layer.entityInstances;
    var entities: EntityMap := map[];
    for i := 0 to |ins|
      invariant EntitiesFrom(entities, ins[i..]) == EntitiesFrom(map[], ins)
    {
      assert ins[i..][1..] == ins[i + 1..];
      var instance := ins[i];
      if |instance.pivot| < 2 || |instance.px| < 2 {
        return Ok(map[]);
      }
      var fields := LoadFields(instance.fieldInstances);
      if fields.Err? {
        return Err(fields.error);
      }
      var position := EntityPosition(instance);
      var tile: Option<Tile> := None;
      if instance.tile.Some? {
        tile := Some(LoadTile(instance.tile.value).(position := position));
      }
      var e := LevelEntity(instance.iid, instance.identifier, position,
        TileSize(ToInt32(instance.width), ToInt32(instance.height)), tile,
        fields.value["Identifier" := StringField(instance.iid)]);
      assert e == EntityOf(instance, fields.value);
      assert EntitiesFrom(entities, ins[i..]) == EntitiesFrom(entities[e.id := e], ins[i + 1..]);
      entities := entities[e.id := e];
    }
    return Ok(entities);
  }

  // -------------------------------------------------------------------
  // LevelLoader
  // -------------------------------------------------------------------

  /** The members of a LevelLoader that load assigns. */
  datatype LoaderState = LoaderState(
    worldX: Int64,
    worldY: Int64,
    width: Int64,
    height: Int64,
    iid: string,
    name: string,
    tilesets: map<TilesetId, Tileset>,
    tiles: seq<Tile>,
    entities: EntityMap,
    neighbours: NeighbourMap,
    fields: FieldMap)

  /** A default-constructed LevelLoader, before its constructor calls load. */
  const INITIAL_STATE: LoaderState := LoaderState(0, 0, 0, 0, "", "", map[], [], map[], map[], map[])

  /** The state load leaves, and the exception it throws, if any. */
  datatype LoadOutcome = LoadOutcome(state: LoaderState, error: Option<LoadError>)

  /** What one layer does to the loop of load. */
  datatype LayerStep = Continue(next: LoaderState) | Stop(outcome: LoadOutcome)

  /**
   * One layer of load: a layer with grid tiles and no tilesets ends the
   * load; otherwise its tiles are appended and its entities inserted, an
   * entity already present keeping its place; entities that throw end it.
   */
  function LayerStepOf(st: LoaderState, layer: LayerInstance): (step: LayerStep)
    ensures step.Stop? && step.outcome.error.None? ==> step.outcome.state == st && |layer.gridTiles| > 0 && |st.tilesets| == 0
    ensures var out := if step.Continue? then step.next else step.outcome.state;
      out.tilesets == st.tilesets && out.fields == st.fields && out.name == st.name && out.iid == st.iid &&
      out.neighbours == st.neighbours && |st.tiles| <= |out.tiles| && out.tiles[..|st.tiles|] == st.tiles
    ensures var out := if step.Continue? then step.next else step.outcome.state;
      forall id :: id in st.entities ==> id in out.entities && out.entities[id] == st.entities[id]
    ensures var out := if step.Continue? then step.next else step.outcome.state;
      EntitiesKeyed(st.entities) ==> EntitiesKeyed(out.entities)
  {
    if |layer.gridTiles| > 0 && |st.tilesets| == 0 then Stop(LoadOutcome(st, None))
    else
      var withTiles := if |layer.gridTiles| > 0 then st.(tiles := st.tiles + LoadTilesSpec(layer)) else st;
      assert withTiles.tiles[..|st.tiles|] == st.tiles;
      if |layer.entityInstances| == 0 then Continue(withTiles)
      else
        EntitiesFromKeyed(map[], layer.entityInstances);
        match LoadEntitiesSpec(layer)
        case Err(e) => Stop(LoadOutcome(withTiles, Some(e)))
        case Ok(es) => Continue(withTiles.(entities := es + withTiles.entities))
  }

  /** The layer loop of load. */
  function LayersFrom(st: LoaderState, layers: seq<LayerInstance>): LoadOutcome
    decreases |layers|
  {
    if layers == [] then LoadOutcome(st, None)
    else match LayerStepOf(st, layers[0])
      case Stop(outcome) => outcome
      case Continue(next) => LayersFrom(next, layers[1..])
  }

  /**
   * The body of load once a project is loaded: copies the named level's
   * place, size, neighbours and fields, takes the cached tilesets, and reads
   * the layers afresh; fields that throw end it before the tilesets.
   */
  function LoadLevelSpec(st: LoaderState, c: Option<Cache>, name: string): (r: LoadOutcome)
    requires ProjectLoaded(c)
  {
    ReadLevelSpec(st, c, GetLevel(c, name))
  }

  /** LoadLevelSpec once the level is found. */
  function ReadLevelSpec(st: LoaderState, c: Option<Cache>, level: LdtkLevel): (r: LoadOutcome)
    requires ProjectLoaded(c)
  {
    FillSpec(PlaceSpec(st, c, level), c, level)
  }

  /** The level's iid, name, place, size and neighbours. */
  function PlaceSpec(st: LoaderState, c: Option<Cache>, level: LdtkLevel): (r: LoaderState)
  {
    st.(iid := level.iid, name := level.identifier,
      worldX := level.worldX, worldY := level.worldY, width := level.pxWid, height := level.pxHei,
      neighbours := LoadNeighboursSpec(c, level.neighbours))
  }

  /** The level's fields, then the cached tilesets and the layers, read afresh. */
  function FillSpec(placed: LoaderState, c: Option<Cache>, level: LdtkLevel): (r: LoadOutcome)
    requires ProjectLoaded(c)
  {
    match LoadFieldsSpec(level.fieldInstances)
    case Err(e) => LoadOutcome(placed, Some(e))
    case Ok(fields) =>
      LayersSpec(placed.(fields := fields, tilesets := c.value.tilesets, tiles := [], entities := map[]), level.layerInstances)
  }

  /** No layers end the load; otherwise the layer loop runs. */
  function LayersSpec(cleared: LoaderState, layers: Option<seq<LayerInstance>>): (r: LoadOutcome)
  {
    if layers.None? then LoadOutcome(cleared, None) else LayersFrom(cleared, layers.value)
  }

  /** load: loads the project when none is loaded, gives up when there is still none, and loads the level. */
  function LoadSpec(st: LoaderState, cache: Option<Cache>, file: ProjectFile, name: string): (r: (LoadOutcome, Option<Cache>))
    ensures ProjectLoaded(cache) ==> r.1 == cache
    ensures !ProjectLoaded(cache) ==> r.1 == LoadProjectSpec(cache, file).0
    ensures !ProjectLoaded(r.1) ==> r.0.state == st
  {
    var (c, thrown) := if ProjectLoaded(cache) then (cache, None) else LoadProjectSpec(cache, file);
    if thrown.Some? then (LoadOutcome(st, thrown), c)
    else if !ProjectLoaded(c) then (LoadOutcome(st, None), c)
    else (LoadLevelSpec(st, c, name), c)
  }

  /** The layer loop only appends tiles and only adds entities; the rest of the state stays. */
  lemma {:induction false} LayersOnlyAdd(st: LoaderState, layers: seq<LayerInstance>)
    decreases |layers|
    ensures var out := LayersFrom(st, layers).state;
      out.tilesets == st.tilesets && out.fields == st.fields && out.name == st.name && out.iid == st.iid &&
      out.neighbours == st.neighbours && |st.tiles| <= |out.tiles| && out.tiles[..|st.tiles|] == st.tiles
    ensures var out := LayersFrom(st, layers).state;
      forall id :: id in st.entities ==> id in out.entities && out.entities[id] == st.entities[id]
  {
    if layers != [] && LayerStepOf(st, layers[0]).Continue? {
      var next := LayerStepOf(st, layers[0]).next;
      LayersOnlyAdd(next, layers[1..]);
      var out := LayersFrom(next, layers[1..]).state;
      assert out.tiles[..|st.tiles|] == out.tiles[..|next.tiles|][..|st.tiles|];
    }
  }

  /** The layer loop keeps every entity keyed by its id. */
  lemma {:induction false} LayersKeyed(st: LoaderState, layers: seq<LayerInstance>)
    requires EntitiesKeyed(st.entities)
    decreases |layers|
    ensures EntitiesKeyed(LayersFrom(st, layers).state.entities)
  {
    if layers != [] && LayerStepOf(st, layers[0]).Continue? {
      LayersKeyed(LayerStepOf(st, layers[0]).next, layers[1..]);
    }
  }

  /** After any load, every entity is still keyed by its id. */
  lemma LoadKeepsEntitiesKeyed(st: LoaderState, cache: Option<Cache>, file: ProjectFile, name: string)
    requires EntitiesKeyed(st.entities)
    ensures EntitiesKeyed(LoadSpec(st, cache, file, name).0.state.entities)
  {
    var (c, thrown) := if ProjectLoaded(cache) then (cache, None) else LoadProjectSpec(cache, file);
    if thrown.None? && ProjectLoaded(c) {
      var level := GetLevel(c, name);
      if LoadFieldsSpec(level.fieldInstances).Ok? && level.layerInstances.Some? {
        var placed := st.(iid := level.iid, name := level.identifier,
          worldX := level.worldX, worldY := level.worldY, width := level.pxWid, height := level.pxHei,
          neighbours := LoadNeighboursSpec(c, level.neighbours));
        var cleared := placed.(fields := LoadFieldsSpec(level.fieldInstances).value, tilesets := c.value.tilesets, tiles := [], entities := map[]);
        LayersKeyed(cleared, level.layerInstances.value);
      }
    }
  }

  /**
   * A load of a level the loaded project has, whose fields load, names that
   * level and holds the project's tilesets and the level's fields.
   */
  lemma LoadFindsLevel(st: LoaderState, cache: Option<Cache>, file: ProjectFile, name: string, k: nat)
    requires ProjectLoaded(cache) && k < |cache.value.levels| && cache.value.levels[k].identifier == name
    requires LoadFieldsSpec(GetLevel(cache, name).fieldInstances).Ok?
    ensures var out := LoadSpec(st, cache, file, name).0.state;
      out.name == name && out.tilesets == cache.value.tilesets &&
      out.fields == LoadFieldsSpec(GetLevel(cache, name).fieldInstances).value
  {
    var level := GetLevel(cache, name);
    if level.layerInstances.Some? {
      var placed := st.(iid := level.iid, name := level.identifier,
        worldX := level.worldX, worldY := level.worldY, width := level.pxWid, height := level.pxHei,
        neighbours := LoadNeighboursSpec(cache, level.neighbours));
      var cleared := placed.(fields := LoadFieldsSpec(level.fieldInstances).value, tilesets := cache.value.tilesets, tiles := [], entities := map[]);
      LayersOnlyAdd(cleared, level.layerInstances.value);
    }
  }

  /** LevelLoader: the level data of the last level loaded. */
  class LevelLoader {
    var worldX: Int64
    var worldY: Int64
    var width: Int64
    var height: Int64
    var iid: string
    var name: string
    var tilesets: map<TilesetId, Tileset>
    var tiles: seq<Tile>
    var entities: EntityMap
    var neighbours: NeighbourMap
    var fields: FieldMap

    function State(): LoaderState
      reads this
    {
      LoaderState(worldX, worldY, width, height, iid, name, tilesets, tiles, entities, neighbours, fields)
    }

    /** The member initialisers: an empty level at the origin. */
    constructor ()
      ensures State() == INITIAL_STATE
    {
      worldX, worldY, width, height := 0, 0, 0, 0;
      iid, name := "", "";
      tilesets, tiles, entities, neighbours, fields := map[], [], map[], map[], map[];
    }

    /** load, with the project file as a parameter; the error is the exception it throws. */
    method Load(levelName: string, projects: ProjectCache, file: ProjectFile) returns (error: Option<LoadError>)
      modifies this, projects
      ensures (LoadOutcome(State(), error), projects.cache) == LoadSpec(old(State()), old(projects.cache), file, levelName)
    {
      error := None;
      if !ProjectLoaded(projects.cache) {
        error := projects.LoadProject(file);
        if error.Some? {
          return;
        }
      }
      if !ProjectLoaded(projects.cache) {
        return;
      }
      error := LoadLevel(projects.cache, levelName);
    }

    /** The part of load after the project check. */
    method LoadLevel(c: Option<Cache>, levelName: string) returns (error: Option<LoadError>)
      requires ProjectLoaded(c)
      modifies this
      ensures LoadOutcome(State(), error) == LoadLevelSpec(old(State()), c, levelName)
    {
      var level := GetLevel(c, levelName);
      error := ReadLevel(c, level);
    }

    /** The level's members, its fields and its layers. */
    method ReadLevel(c: Option<Cache>, level: LdtkLevel) returns (error: Option<LoadError>)
      requires ProjectLoaded(c)
      modifies this
      ensures LoadOutcome(State(), error) == ReadLevelSpec(old(State()), c, level)
    {
      Place(c, level);
      assert State() == PlaceSpec(old(State()), c, level);
      error := Fill(c, level);
    }

    method Place(c: Option<Cache>, level: LdtkLevel)
      modifies this`iid, this`name, this`worldX, this`worldY, this`width, this`height, this`neighbours
      ensures iid == level.iid && name == level.identifier && worldX == level.worldX && worldY == level.worldY
      ensures width == level.pxWid && height == level.pxHei && neighbours == LoadNeighboursSpec(c, level.neighbours)
    {
      iid := level.iid;
      name := level.identifier;
      worldX := level.worldX;
      worldY := level.worldY;
      width := level.pxWid;
      height := level.pxHei;
      neighbours := LoadNeighbours(c, level.neighbours);
    }

    method Fill(c: Option<Cache>, level: LdtkLevel) returns (error: Option<LoadError>)
      requires ProjectLoaded(c)
      modifies this
      ensures LoadOutcome(State(), error) == FillSpec(old(State()), c, level)
    {
      var loadedFields := LoadFields(level.fieldInstances);
      if loadedFields.Err? {
        return Some(loadedFields.error);
      }
      fields := loadedFields.value;
      tilesets := c.value.tilesets;
      tiles := [];
      entities := map[];
      error := None;
      if level.layerInstances.Some? {
        error := LoadLayers(level.layerInstances.value);
      }
    }

    /** The layer loop of load. */
    method LoadLayers(layers: seq<LayerInstance>) returns (error: Option<LoadError>)
      modifies this
      ensures LoadOutcome(State(), error) == LayersFrom(old(State()), layers)
    {
      error := None;
      for i := 0 to |layers|
        invariant LayersFrom(State(), layers[i..]) == LayersFrom(old(State()), layers)
      {
        var layer := layers[i];
        assert layers[i..][1..] == layers[i + 1..];
        if |layer.gridTiles| > 0 {
          if |tilesets| == 0 {
            return;
          }
          var layerTiles := LoadTiles(layer);
          tiles := tiles + layerTiles;
        }
        if |layer.entityInstances| > 0 {
          var layerEntities := LoadEntities(layer);
          if layerEntities.Err? {
            return Some(layerEntities.error);
          }
          entities := layerEntities.value + entities;
        }
      }
    }
  }

  /**
   * new LevelLoader(name): a default loader that loads the level; when load
   * throws, the exception leaves the new-expression and no loader results.
   */
  method NewLevelLoader(levelName: string, projects: ProjectCache, file: ProjectFile)
    returns (loader: LevelLoader?, error: Option<LoadError>)
    modifies projects
    ensures projects.cache == LoadSpec(INITIAL_STATE, old(projects.cache), file, levelName).1
    ensures error == LoadSpec(INITIAL_STATE, old(projects.cache), file, levelName).0.error
    ensures loader != null <==> error.None?
    ensures loader != null ==> fresh(loader) && loader.State() == LoadSpec(INITIAL_STATE, old(projects.cache), file, levelName).0.state
  {
    var created := new LevelLoader();
    error := created.Load(levelName, projects, file);
    loader := if error.None? then created else null;
  }
}
