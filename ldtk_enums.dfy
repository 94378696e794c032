/**
 * The enumeration tables of src/external/ldtk.hpp. Each enumeration is
 * written to JSON as the string of its enumerator and read back from one of
 * exactly those strings; any other JSON value is rejected with the schema
 * error. The layer-type enumeration, called Type in the source, is LayerType.
 */
module LdtkEnums {
  import opened Wrappers
  import opened Ldtk

  /** When (src/external/ldtk.hpp:90). */
  datatype When = AfterLoad | AfterSave | BeforeSave | Manual
  {
    /** The enumerator's name in the JSON files. */
    function Name(): string
    {
      match this
      case AfterLoad => "AfterLoad"
      case AfterSave => "AfterSave"
      case BeforeSave => "BeforeSave"
      case Manual => "Manual"
    }
  }

  const WHEN_NAMES: set<string> := {"AfterLoad", "AfterSave", "BeforeSave", "Manual"}

  /** to_json: the enumerator's name, which from_json reads back. */
  function WhenToJson(x: When): (j: Json)
    ensures j.JString? && j.str in WHEN_NAMES
    ensures WhenFromJson(j) == Ok(x)
  {
    JString(x.Name())
  }

  /** from_json: the enumerator a listed name stands for; any other value throws the schema error. */
  function WhenFromJson(j: Json): (r: Result<When, JsonError>)
    ensures r.Ok? <==> j.JString? && j.str in WHEN_NAMES
    ensures r.Ok? ==> j == JString(r.value.Name())
    ensures r.Err? ==> r.error == SCHEMA_ERROR
  {
    if j == JString("AfterLoad") then Ok(When.AfterLoad)
    else if j == JString("AfterSave") then Ok(When.AfterSave)
    else if j == JString("BeforeSave") then Ok(When.BeforeSave)
    else if j == JString("Manual") then Ok(When.Manual)
    else Err(SCHEMA_ERROR)
  }

  /** Every listed name reads back to itself: to_json(from_json(j)) == j. */
  lemma WhenNamesRoundTrip(j: Json)
    requires WhenFromJson(j).Ok?
    ensures WhenToJson(WhenFromJson(j).value) == j
  {
  }

  /** AllowedRefs (src/external/ldtk.hpp:103). */
  datatype AllowedRefs = Any | OnlySame | OnlySpecificEntity | OnlyTags
  {
    /** The enumerator's name in the JSON files. */
    function Name(): string
    {
      match this
      case Any => "Any"
      case OnlySame => "OnlySame"
      case OnlySpecificEntity => "OnlySpecificEntity"
      case OnlyTags => "OnlyTags"
    }
  }

  const ALLOWED_REFS_NAMES: set<string> := {"Any", "OnlySame", "OnlySpecificEntity", "OnlyTags"}

  /** to_json: the enumerator's name, which from_json reads back. */
  function AllowedRefsToJson(x: AllowedRefs): (j: Json)
    ensures j.JString? && j.str in ALLOWED_REFS_NAMES
    ensures AllowedRefsFromJson(j) == Ok(x)
  {
    JString(x.Name())
  }

  /** from_json: the enumerator a listed name stands for; any other value throws the schema error. */
  function AllowedRefsFromJson(j: Json): (r: Result<AllowedRefs, JsonError>)
    ensures r.Ok? <==> j.JString? && j.str in ALLOWED_REFS_NAMES
    ensures r.Ok? ==> j == JString(r.value.Name())
    ensures r.Err? ==> r.error == SCHEMA_ERROR
  {
    if j == JString("Any") then Ok(AllowedRefs.Any)
    else if j == JString("OnlySame") then Ok(AllowedRefs.OnlySame)
    else if j == JString("OnlySpecificEntity") then Ok(AllowedRefs.OnlySpecificEntity)
    else if j == JString("OnlyTags") then Ok(AllowedRefs.OnlyTags)
    else Err(SCHEMA_ERROR)
  }

  /** Every listed name reads back to itself: to_json(from_json(j)) == j. */
  lemma AllowedRefsNamesRoundTrip(j: Json)
    requires AllowedRefsFromJson(j).Ok?
    ensures AllowedRefsToJson(AllowedRefsFromJson(j).value) == j
  {
  }

  /** EditorDisplayMode (src/external/ldtk.hpp:111). */
  datatype EditorDisplayMode = ArrayCountNoLabel | ArrayCountWithLabel | EntityTile | Hidden | LevelTile | NameAndValue | Points | PointPath | PointPathLoop | PointStar | RadiusGrid | RadiusPx | RefLinkBetweenCenters | RefLinkBetweenPivots | ValueOnly
  {
    /** The enumerator's name in the JSON files. */
    function Name(): string
    {
      match this
      case ArrayCountNoLabel => "ArrayCountNoLabel"
      case ArrayCountWithLabel => "ArrayCountWithLabel"
      case EntityTile => "EntityTile"
      case Hidden => "Hidden"
      case LevelTile => "LevelTile"
      case NameAndValue => "NameAndValue"
      case Points => "Points"
      case PointPath => "PointPath"
      case PointPathLoop => "PointPathLoop"
      case PointStar => "PointStar"
      case RadiusGrid => "RadiusGrid"
      case RadiusPx => "RadiusPx"
      case RefLinkBetweenCenters => "RefLinkBetweenCenters"
      case RefLinkBetweenPivots => "RefLinkBetweenPivots"
      case ValueOnly => "ValueOnly"
    }
  }

  const EDITOR_DISPLAY_MODE_NAMES: set<string> := {"ArrayCountNoLabel", "ArrayCountWithLabel", "EntityTile", "Hidden", "LevelTile", "NameAndValue", "Points", "PointPath", "PointPathLoop", "PointStar", "RadiusGrid", "RadiusPx", "RefLinkBetweenCenters", "RefLinkBetweenPivots", "ValueOnly"}

  /** to_json: the enumerator's name, which from_json reads back. */
  function EditorDisplayModeToJson(x: EditorDisplayMode): (j: Json)
    ensures j.JString? && j.str in EDITOR_DISPLAY_MODE_NAMES
    ensures EditorDisplayModeFromJson(j) == Ok(x)
  {
    JString(x.Name())
  }

  /** from_json: the enumerator a listed name stands for; any other value throws the schema error. */
  function EditorDisplayModeFromJson(j: Json): (r: Result<EditorDisplayMode, JsonError>)
    ensures r.Ok? <==> j.JString? && j.str in EDITOR_DISPLAY_MODE_NAMES
    ensures r.Ok? ==> j == JString(r.value.Name())
    ensures r.Err? ==> r.error == SCHEMA_ERROR
  {
    if j == JString("ArrayCountNoLabel") then Ok(EditorDisplayMode.ArrayCountNoLabel)
    else if j == JString("ArrayCountWithLabel") then Ok(EditorDisplayMode.ArrayCountWithLabel)
    else if j == JString("EntityTile") then Ok(EditorDisplayMode.EntityTile)
    else if j == JString("Hidden") then Ok(EditorDisplayMode.Hidden)
    else if j == JString("LevelTile") then Ok(EditorDisplayMode.LevelTile)
    else if j == JString("NameAndValue") then Ok(EditorDisplayMode.NameAndValue)
    else if j == JString("Points") then Ok(EditorDisplayMode.Points)
    else if j == JString("PointPath") then Ok(EditorDisplayMode.PointPath)
    else if j == JString("PointPathLoop") then Ok(EditorDisplayMode.PointPathLoop)
    else if j == JString("PointStar") then Ok(EditorDisplayMode.PointStar)
    else if j == JString("RadiusGrid") then Ok(EditorDisplayMode.RadiusGrid)
    else if j == JString("RadiusPx") then Ok(EditorDisplayMode.RadiusPx)
    else if j == JString("RefLinkBetweenCenters") then Ok(EditorDisplayMode.RefLinkBetweenCenters)
    else if j == JString("RefLinkBetweenPivots") then Ok(EditorDisplayMode.RefLinkBetweenPivots)
    else if j == JString("ValueOnly") then Ok(EditorDisplayMode.ValueOnly)
    else Err(SCHEMA_ERROR)
  }

  /** Every listed name reads back to itself: to_json(from_json(j)) == j. */
  lemma EditorDisplayModeNamesRoundTrip(j: Json)
    requires EditorDisplayModeFromJson(j).Ok?
    ensures EditorDisplayModeToJson(EditorDisplayModeFromJson(j).value) == j
  {
  }

  /** EditorDisplayPos (src/external/ldtk.hpp:116). */
  datatype EditorDisplayPos = Above | Beneath | Center
  {
    /** The enumerator's name in the JSON files. */
    function Name(): string
    {
      match this
      case Above => "Above"
      case Beneath => "Beneath"
      case Center => "Center"
    }
  }

  const EDITOR_DISPLAY_POS_NAMES: set<string> := {"Above", "Beneath", "Center"}

  /** to_json: the enumerator's name, which from_json reads back. */
  function EditorDisplayPosToJson(x: EditorDisplayPos): (j: Json)
    ensures j.JString? && j.str in EDITOR_DISPLAY_POS_NAMES
    ensures EditorDisplayPosFromJson(j) == Ok(x)
  {
    JString(x.Name())
  }

  /** from_json: the enumerator a listed name stands for; any other value throws the schema error. */
  function EditorDisplayPosFromJson(j: Json): (r: Result<EditorDisplayPos, JsonError>)
    ensures r.Ok? <==> j.JString? && j.str in EDITOR_DISPLAY_POS_NAMES
    ensures r.Ok? ==> j == JString(r.value.Name())
    ensures r.Err? ==> r.error == SCHEMA_ERROR
  {
    if j == JString("Above") then Ok(EditorDisplayPos.Above)
    else if j == JString("Beneath") then Ok(EditorDisplayPos.Beneath)
    else if j == JString("Center") then Ok(EditorDisplayPos.Center)
    else Err(SCHEMA_ERROR)
  }

  /** Every listed name reads back to itself: to_json(from_json(j)) == j. */
  lemma EditorDisplayPosNamesRoundTrip(j: Json)
    requires EditorDisplayPosFromJson(j).Ok?
    ensures EditorDisplayPosToJson(EditorDisplayPosFromJson(j).value) == j
  {
  }

  /** EditorLinkStyle (src/external/ldtk.hpp:121). */
  datatype EditorLinkStyle = ArrowsLine | CurvedArrow | DashedLine | StraightArrow | ZigZag
  {
    /** The enumerator's name in the JSON files. */
    function Name(): string
    {
      match this
      case ArrowsLine => "ArrowsLine"
      case CurvedArrow => "CurvedArrow"
      case DashedLine => "DashedLine"
      case StraightArrow => "StraightArrow"
      case ZigZag => "ZigZag"
    }
  }

  const EDITOR_LINK_STYLE_NAMES: set<string> := {"ArrowsLine", "CurvedArrow", "DashedLine", "StraightArrow", "ZigZag"}

  /** to_json: the enumerator's name, which from_json reads back. */
  function EditorLinkStyleToJson(x: EditorLinkStyle): (j: Json)
    ensures j.JString? && j.str in EDITOR_LINK_STYLE_NAMES
    ensures EditorLinkStyleFromJson(j) == Ok(x)
  {
    JString(x.Name())
  }

  /** from_json: the enumerator a listed name stands for; any other value throws the schema error. */
  function EditorLinkStyleFromJson(j: Json): (r: Result<EditorLinkStyle, JsonError>)
    ensures r.Ok? <==> j.JString? && j.str in EDITOR_LINK_STYLE_NAMES
    ensures r.Ok? ==> j == JString(r.value.Name())
    ensures r.Err? ==> r.error == SCHEMA_ERROR
  {
    if j == JString("ArrowsLine") then Ok(EditorLinkStyle.ArrowsLine)
    else if j == JString("CurvedArrow") then Ok(EditorLinkStyle.CurvedArrow)
    else if j == JString("DashedLine") then Ok(EditorLinkStyle.DashedLine)
    else if j == JString("StraightArrow") then Ok(EditorLinkStyle.StraightArrow)
    else if j == JString("ZigZag") then Ok(EditorLinkStyle.ZigZag)
    else Err(SCHEMA_ERROR)
  }

  /** Every listed name reads back to itself: to_json(from_json(j)) == j. */
  lemma EditorLinkStyleNamesRoundTrip(j: Json)
    requires EditorLinkStyleFromJson(j).Ok?
    ensures EditorLinkStyleToJson(EditorLinkStyleFromJson(j).value) == j
  {
  }

  /** TextLanguageMode (src/external/ldtk.hpp:123). */
  datatype TextLanguageMode = LangC | LangHaxe | LangJS | LangJson | LangLog | LangLua | LangMarkdown | LangPython | LangRuby | LangXml
  {
    /** The enumerator's name in the JSON files. */
    function Name(): string
    {
      match this
      case LangC => "LangC"
      case LangHaxe => "LangHaxe"
      case LangJS => "LangJS"
      case LangJson => "LangJson"
      case LangLog => "LangLog"
      case LangLua => "LangLua"
      case LangMarkdown => "LangMarkdown"
      case LangPython => "LangPython"
      case LangRuby => "LangRuby"
      case LangXml => "LangXml"
    }
  }

  const TEXT_LANGUAGE_MODE_NAMES: set<string> := {"LangC", "LangHaxe", "LangJS", "LangJson", "LangLog", "LangLua", "LangMarkdown", "LangPython", "LangRuby", "LangXml"}

  /** to_json: the enumerator's name, which from_json reads back. */
  function TextLanguageModeToJson(x: TextLanguageMode): (j: Json)
    ensures j.JString? && j.str in TEXT_LANGUAGE_MODE_NAMES
    ensures TextLanguageModeFromJson(j) == Ok(x)
  {
    JString(x.Name())
  }

  /** from_json: the enumerator a listed name stands for; any other value throws the schema error. */
  function TextLanguageModeFromJson(j: Json): (r: Result<TextLanguageMode, JsonError>)
    ensures r.Ok? <==> j.JString? && j.str in TEXT_LANGUAGE_MODE_NAMES
    ensures r.Ok? ==> j == JString(r.value.Name())
    ensures r.Err? ==> r.error == SCHEMA_ERROR
  {
    if j == JString("LangC") then Ok(TextLanguageMode.LangC)
    else if j == JString("LangHaxe") then Ok(TextLanguageMode.LangHaxe)
    else if j == JString("LangJS") then Ok(TextLanguageMode.LangJS)
    else if j == JString("LangJson") then Ok(TextLanguageMode.LangJson)
    else if j == JString("LangLog") then Ok(TextLanguageMode.LangLog)
    else if j == JString("LangLua") then Ok(TextLanguageMode.LangLua)
    else if j == JString("LangMarkdown") then Ok(TextLanguageMode.LangMarkdown)
    else if j == JString("LangPython") then Ok(TextLanguageMode.LangPython)
    else if j == JString("LangRuby") then Ok(TextLanguageMode.LangRuby)
    else if j == JString("LangXml") then Ok(TextLanguageMode.LangXml)
    else Err(SCHEMA_ERROR)
  }

  /** Every listed name reads back to itself: to_json(from_json(j)) == j. */
  lemma TextLanguageModeNamesRoundTrip(j: Json)
    requires TextLanguageModeFromJson(j).Ok?
    ensures TextLanguageModeToJson(TextLanguageModeFromJson(j).value) == j
  {
  }

  /** LimitBehavior (src/external/ldtk.hpp:255). */
  datatype LimitBehavior = DiscardOldOnes | MoveLastOne | PreventAdding
  {
    /** The enumerator's name in the JSON files. */
    function Name(): string
    {
      match this
      case DiscardOldOnes => "DiscardOldOnes"
      case MoveLastOne => "MoveLastOne"
      case PreventAdding => "PreventAdding"
    }
  }

  const LIMIT_BEHAVIOR_NAMES: set<string> := {"DiscardOldOnes", "MoveLastOne", "PreventAdding"}

  /** to_json: the enumerator's name, which from_json reads back. */
  function LimitBehaviorToJson(x: LimitBehavior): (j: Json)
    ensures j.JString? && j.str in LIMIT_BEHAVIOR_NAMES
    ensures LimitBehaviorFromJson(j) == Ok(x)
  {
    JString(x.Name())
  }

  /** from_json: the enumerator a listed name stands for; any other value throws the schema error. */
  function LimitBehaviorFromJson(j: Json): (r: Result<LimitBehavior, JsonError>)
    ensures r.Ok? <==> j.JString? && j.str in LIMIT_BEHAVIOR_NAMES
    ensures r.Ok? ==> j == JString(r.value.Name())
    ensures r.Err? ==> r.error == SCHEMA_ERROR
  {
    if j == JString("DiscardOldOnes") then Ok(LimitBehavior.DiscardOldOnes)
    else if j == JString("MoveLastOne") then Ok(LimitBehavior.MoveLastOne)
    else if j == JString("PreventAdding") then Ok(LimitBehavior.PreventAdding)
    else Err(SCHEMA_ERROR)
  }

  /** Every listed name reads back to itself: to_json(from_json(j)) == j. */
  lemma LimitBehaviorNamesRoundTrip(j: Json)
    requires LimitBehaviorFromJson(j).Ok?
    ensures LimitBehaviorToJson(LimitBehaviorFromJson(j).value) == j
  {
  }

  /** LimitScope (src/external/ldtk.hpp:261). */
  datatype LimitScope = PerLayer | PerLevel | PerWorld
  {
    /** The enumerator's name in the JSON files. */
    function Name(): string
    {
      match this
      case PerLayer => "PerLayer"
      case PerLevel => "PerLevel"
      case PerWorld => "PerWorld"
    }
  }

  const LIMIT_SCOPE_NAMES: set<string> := {"PerLayer", "PerLevel", "PerWorld"}

  /** to_json: the enumerator's name, which from_json reads back. */
  function LimitScopeToJson(x: LimitScope): (j: Json)
    ensures j.JString? && j.str in LIMIT_SCOPE_NAMES
    ensures LimitScopeFromJson(j) == Ok(x)
  {
    JString(x.Name())
  }

  /** from_json: the enumerator a listed name stands for; any other value throws the schema error. */
  function LimitScopeFromJson(j: Json): (r: Result<LimitScope, JsonError>)
    ensures r.Ok? <==> j.JString? && j.str in LIMIT_SCOPE_NAMES
    ensures r.Ok? ==> j == JString(r.value.Name())
    ensures r.Err? ==> r.error == SCHEMA_ERROR
  {
    if j == JString("PerLayer") then Ok(LimitScope.PerLayer)
    else if j == JString("PerLevel") then Ok(LimitScope.PerLevel)
    else if j == JString("PerWorld") then Ok(LimitScope.PerWorld)
    else Err(SCHEMA_ERROR)
  }

  /** Every listed name reads back to itself: to_json(from_json(j)) == j. */
  lemma LimitScopeNamesRoundTrip(j: Json)
    requires LimitScopeFromJson(j).Ok?
    ensures LimitScopeToJson(LimitScopeFromJson(j).value) == j
  {
  }

  /** RenderMode (src/external/ldtk.hpp:266). */
  datatype RenderMode = Cross | Ellipse | Rectangle | Tile
  {
    /** The enumerator's name in the JSON files. */
    function Name(): string
    {
      match this
      case Cross => "Cross"
      case Ellipse => "Ellipse"
      case Rectangle => "Rectangle"
      case Tile => "Tile"
    }
  }

  const RENDER_MODE_NAMES: set<string> := {"Cross", "Ellipse", "Rectangle", "Tile"}

  /** to_json: the enumerator's name, which from_json reads back. */
  function RenderModeToJson(x: RenderMode): (j: Json)
    ensures j.JString? && j.str in RENDER_MODE_NAMES
    ensures RenderModeFromJson(j) == Ok(x)
  {
    JString(x.Name())
  }

  /** from_json: the enumerator a listed name stands for; any other value throws the schema error. */
  function RenderModeFromJson(j: Json): (r: Result<RenderMode, JsonError>)
    ensures r.Ok? <==> j.JString? && j.str in RENDER_MODE_NAMES
    ensures r.Ok? ==> j == JString(r.value.Name())
    ensures r.Err? ==> r.error == SCHEMA_ERROR
  {
    if j == JString("Cross") then Ok(RenderMode.Cross)
    else if j == JString("Ellipse") then Ok(RenderMode.Ellipse)
    else if j == JString("Rectangle") then Ok(RenderMode.Rectangle)
    else if j == JString("Tile") then Ok(RenderMode.Tile)
    else Err(SCHEMA_ERROR)
  }

  /** Every listed name reads back to itself: to_json(from_json(j)) == j. */
  lemma RenderModeNamesRoundTrip(j: Json)
    requires RenderModeFromJson(j).Ok?
    ensures RenderModeToJson(RenderModeFromJson(j).value) == j
  {
  }

  /** TileRenderMode (src/external/ldtk.hpp:299). */
  datatype TileRenderMode = Cover | FitInside | FullSizeCropped | FullSizeUncropped | NineSlice | Repeat | Stretch
  {
    /** The enumerator's name in the JSON files. */
    function Name(): string
    {
      match this
      case Cover => "Cover"
      case FitInside => "FitInside"
      case FullSizeCropped => "FullSizeCropped"
      case FullSizeUncropped => "FullSizeUncropped"
      case NineSlice => "NineSlice"
      case Repeat => "Repeat"
      case Stretch => "Stretch"
    }
  }

  const TILE_RENDER_MODE_NAMES: set<string> := {"Cover", "FitInside", "FullSizeCropped", "FullSizeUncropped", "NineSlice", "Repeat", "Stretch"}

  /** to_json: the enumerator's name, which from_json reads back. */
  function TileRenderModeToJson(x: TileRenderMode): (j: Json)
    ensures j.JString? && j.str in TILE_RENDER_MODE_NAMES
    ensures TileRenderModeFromJson(j) == Ok(x)
  {
    JString(x.Name())
  }

  /** from_json: the enumerator a listed name stands for; any other value throws the schema error. */
  function TileRenderModeFromJson(j: Json): (r: Result<TileRenderMode, JsonError>)
    ensures r.Ok? <==> j.JString? && j.str in TILE_RENDER_MODE_NAMES
    ensures r.Ok? ==> j == JString(r.value.Name())
    ensures r.Err? ==> r.error == SCHEMA_ERROR
  {
    if j == JString("Cover") then Ok(TileRenderMode.Cover)
    else if j == JString("FitInside") then Ok(TileRenderMode.FitInside)
    else if j == JString("FullSizeCropped") then Ok(TileRenderMode.FullSizeCropped)
    else if j == JString("FullSizeUncropped") then Ok(TileRenderMode.FullSizeUncropped)
    else if j == JString("NineSlice") then Ok(TileRenderMode.NineSlice)
    else if j == JString("Repeat") then Ok(TileRenderMode.Repeat)
    else if j == JString("Stretch") then Ok(TileRenderMode.Stretch)
    else Err(SCHEMA_ERROR)
  }

  /** Every listed name reads back to itself: to_json(from_json(j)) == j. */
  lemma TileRenderModeNamesRoundTrip(j: Json)
    requires TileRenderModeFromJson(j).Ok?
    ensures TileRenderModeToJson(TileRenderModeFromJson(j).value) == j
  {
  }

  /** Checker (src/external/ldtk.hpp:492). */
  datatype Checker = Horizontal | None | Vertical
  {
    /** The enumerator's name in the JSON files. */
    function Name(): string
    {
      match this
      case Horizontal => "Horizontal"
      case None => "None"
      case Vertical => "Vertical"
    }
  }

  const CHECKER_NAMES: set<string> := {"Horizontal", "None", "Vertical"}

  /** to_json: the enumerator's name, which from_json reads back. */
  function CheckerToJson(x: Checker): (j: Json)
    ensures j.JString? && j.str in CHECKER_NAMES
    ensures CheckerFromJson(j) == Ok(x)
  {
    JString(x.Name())
  }

  /** from_json: the enumerator a listed name stands for; any other value throws the schema error. */
  function CheckerFromJson(j: Json): (r: Result<Checker, JsonError>)
    ensures r.Ok? <==> j.JString? && j.str in CHECKER_NAMES
    ensures r.Ok? ==> j == JString(r.value.Name())
    ensures r.Err? ==> r.error == SCHEMA_ERROR
  {
    if j == JString("Horizontal") then Ok(Checker.Horizontal)
    else if j == JString("None") then Ok(Checker.None)
    else if j == JString("Vertical") then Ok(Checker.Vertical)
    else Err(SCHEMA_ERROR)
  }

  /** Every listed name reads back to itself: to_json(from_json(j)) == j. */
  lemma CheckerNamesRoundTrip(j: Json)
    requires CheckerFromJson(j).Ok?
    ensures CheckerToJson(CheckerFromJson(j).value) == j
  {
  }

  /** TileMode (src/external/ldtk.hpp:497). */
  datatype TileMode = Single | Stamp
  {
    /** The enumerator's name in the JSON files. */
    function Name(): string
    {
      match this
      case Single => "Single"
      case Stamp => "Stamp"
    }
  }

  const TILE_MODE_NAMES: set<string> := {"Single", "Stamp"}

  /** to_json: the enumerator's name, which from_json reads back. */
  function TileModeToJson(x: TileMode): (j: Json)
    ensures j.JString? && j.str in TILE_MODE_NAMES
    ensures TileModeFromJson(j) == Ok(x)
  {
    JString(x.Name())
  }

  /** from_json: the enumerator a listed name stands for; any other value throws the schema error. */
  function TileModeFromJson(j: Json): (r: Result<TileMode, JsonError>)
    ensures r.Ok? <==> j.JString? && j.str in TILE_MODE_NAMES
    ensures r.Ok? ==> j == JString(r.value.Name())
    ensures r.Err? ==> r.error == SCHEMA_ERROR
  {
    if j == JString("Single") then Ok(TileMode.Single)
    else if j == JString("Stamp") then Ok(TileMode.Stamp)
    else Err(SCHEMA_ERROR)
  }

  /** Every listed name reads back to itself: to_json(from_json(j)) == j. */
  lemma TileModeNamesRoundTrip(j: Json)
    requires TileModeFromJson(j).Ok?
    ensures TileModeToJson(TileModeFromJson(j).value) == j
  {
  }

  /** Type (src/external/ldtk.hpp:680). */
  datatype LayerType = AutoLayer | Entities | IntGrid | Tiles
  {
    /** The enumerator's name in the JSON files. */
    function Name(): string
    {
      match this
      case AutoLayer => "AutoLayer"
      case Entities => "Entities"
      case IntGrid => "IntGrid"
      case Tiles => "Tiles"
    }
  }

  const LAYER_TYPE_NAMES: set<string> := {"AutoLayer", "Entities", "IntGrid", "Tiles"}

  /** to_json: the enumerator's name, which from_json reads back. */
  function LayerTypeToJson(x: LayerType): (j: Json)
    ensures j.JString? && j.str in LAYER_TYPE_NAMES
    ensures LayerTypeFromJson(j) == Ok(x)
  {
    JString(x.Name())
  }

  /** from_json: the enumerator a listed name stands for; any other value throws the schema error. */
  function LayerTypeFromJson(j: Json): (r: Result<LayerType, JsonError>)
    ensures r.Ok? <==> j.JString? && j.str in LAYER_TYPE_NAMES
    ensures r.Ok? ==> j == JString(r.value.Name())
    ensures r.Err? ==> r.error == SCHEMA_ERROR
  {
    if j == JString("AutoLayer") then Ok(LayerType.AutoLayer)
    else if j == JString("Entities") then Ok(LayerType.Entities)
    else if j == JString("IntGrid") then Ok(LayerType.IntGrid)
    else if j == JString("Tiles") then Ok(LayerType.Tiles)
    else Err(SCHEMA_ERROR)
  }

  /** Every listed name reads back to itself: to_json(from_json(j)) == j. */
  lemma LayerTypeNamesRoundTrip(j: Json)
    requires LayerTypeFromJson(j).Ok?
    ensures LayerTypeToJson(LayerTypeFromJson(j).value) == j
  {
  }

  /** EmbedAtlas (src/external/ldtk.hpp:831). */
  datatype EmbedAtlas = LdtkIcons
  {
    /** The enumerator's name in the JSON files. */
    function Name(): string
    {
      match this
      case LdtkIcons => "LdtkIcons"
    }
  }

  const EMBED_ATLAS_NAMES: set<string> := {"LdtkIcons"}

  /** to_json: the enumerator's name, which from_json reads back. */
  function EmbedAtlasToJson(x: EmbedAtlas): (j: Json)
    ensures j.JString? && j.str in EMBED_ATLAS_NAMES
    ensures EmbedAtlasFromJson(j) == Ok(x)
  {
    match x
    case LdtkIcons => JString(x.Name())
  }

  /** from_json: the enumerator a listed name stands for; any other value throws the schema error. */
  function EmbedAtlasFromJson(j: Json): (r: Result<EmbedAtlas, JsonError>)
    ensures r.Ok? <==> j.JString? && j.str in EMBED_ATLAS_NAMES
    ensures r.Ok? ==> j == JString(r.value.Name())
    ensures r.Err? ==> r.error == SCHEMA_ERROR
  {
    if j == JString("LdtkIcons") then Ok(EmbedAtlas.LdtkIcons)
    else Err(SCHEMA_ERROR)
  }

  /** Every listed name reads back to itself: to_json(from_json(j)) == j. */
  lemma EmbedAtlasNamesRoundTrip(j: Json)
    requires EmbedAtlasFromJson(j).Ok?
    ensures EmbedAtlasToJson(EmbedAtlasFromJson(j).value) == j
  {
  }

  /** Flag (src/external/ldtk.hpp:956). */
  datatype Flag = DiscardPreCsvIntGrid | ExportOldTableOfContentData | ExportPreCsvIntGridFormat | IgnoreBackupSuggest | MultiWorlds | PrependIndexToLevelFileNames | UseMultilinesType
  {
    /** The enumerator's name in the JSON files. */
    function Name(): string
    {
      match this
      case DiscardPreCsvIntGrid => "DiscardPreCsvIntGrid"
      case ExportOldTableOfContentData => "ExportOldTableOfContentData"
      case ExportPreCsvIntGridFormat => "ExportPreCsvIntGridFormat"
      case IgnoreBackupSuggest => "IgnoreBackupSuggest"
      case MultiWorlds => "MultiWorlds"
      case PrependIndexToLevelFileNames => "PrependIndexToLevelFileNames"
      case UseMultilinesType => "UseMultilinesType"
    }
  }

  const FLAG_NAMES: set<string> := {"DiscardPreCsvIntGrid", "ExportOldTableOfContentData", "ExportPreCsvIntGridFormat", "IgnoreBackupSuggest", "MultiWorlds", "PrependIndexToLevelFileNames", "UseMultilinesType"}

  /** to_json: the enumerator's name, which from_json reads back. */
  function FlagToJson(x: Flag): (j: Json)
    ensures j.JString? && j.str in FLAG_NAMES
    ensures FlagFromJson(j) == Ok(x)
  {
    JString(x.Name())
  }

  /** from_json: the enumerator a listed name stands for; any other value throws the schema error. */
  function FlagFromJson(j: Json): (r: Result<Flag, JsonError>)
    ensures r.Ok? <==> j.JString? && j.str in FLAG_NAMES
    ensures r.Ok? ==> j == JString(r.value.Name())
    ensures r.Err? ==> r.error == SCHEMA_ERROR
  {
    if j == JString("DiscardPreCsvIntGrid") then Ok(Flag.DiscardPreCsvIntGrid)
    else if j == JString("ExportOldTableOfContentData") then Ok(Flag.ExportOldTableOfContentData)
    else if j == JString("ExportPreCsvIntGridFormat") then Ok(Flag.ExportPreCsvIntGridFormat)
    else if j == JString("IgnoreBackupSuggest") then Ok(Flag.IgnoreBackupSuggest)
    else if j == JString("MultiWorlds") then Ok(Flag.MultiWorlds)
    else if j == JString("PrependIndexToLevelFileNames") then Ok(Flag.PrependIndexToLevelFileNames)
    else if j == JString("UseMultilinesType") then Ok(Flag.UseMultilinesType)
    else Err(SCHEMA_ERROR)
  }

  /** Every listed name reads back to itself: to_json(from_json(j)) == j. */
  lemma FlagNamesRoundTrip(j: Json)
    requires FlagFromJson(j).Ok?
    ensures FlagToJson(FlagFromJson(j).value) == j
  {
  }

  /** BgPos (src/external/ldtk.hpp:1273). */
  datatype BgPos = Contain | Cover | CoverDirty | Repeat | Unscaled
  {
    /** The enumerator's name in the JSON files. */
    function Name(): string
    {
      match this
      case Contain => "Contain"
      case Cover => "Cover"
      case CoverDirty => "CoverDirty"
      case Repeat => "Repeat"
      case Unscaled => "Unscaled"
    }
  }

  const BG_POS_NAMES: set<string> := {"Contain", "Cover", "CoverDirty", "Repeat", "Unscaled"}

  /** to_json: the enumerator's name, which from_json reads back. */
  function BgPosToJson(x: BgPos): (j: Json)
    ensures j.JString? && j.str in BG_POS_NAMES
    ensures BgPosFromJson(j) == Ok(x)
  {
    JString(x.Name())
  }

  /** from_json: the enumerator a listed name stands for; any other value throws the schema error. */
  function BgPosFromJson(j: Json): (r: Result<BgPos, JsonError>)
    ensures r.Ok? <==> j.JString? && j.str in BG_POS_NAMES
    ensures r.Ok? ==> j == JString(r.value.Name())
    ensures r.Err? ==> r.error == SCHEMA_ERROR
  {
    if j == JString("Contain") then Ok(BgPos.Contain)
    else if j == JString("Cover") then Ok(BgPos.Cover)
    else if j == JString("CoverDirty") then Ok(BgPos.CoverDirty)
    else if j == JString("Repeat") then Ok(BgPos.Repeat)
    else if j == JString("Unscaled") then Ok(BgPos.Unscaled)
    else Err(SCHEMA_ERROR)
  }

  /** Every listed name reads back to itself: to_json(from_json(j)) == j. */
  lemma BgPosNamesRoundTrip(j: Json)
    requires BgPosFromJson(j).Ok?
    ensures BgPosToJson(BgPosFromJson(j).value) == j
  {
  }

  /** WorldLayout (src/external/ldtk.hpp:1440). */
  datatype WorldLayout = Free | GridVania | LinearHorizontal | LinearVertical
  {
    /** The enumerator's name in the JSON files. */
    function Name(): string
    {
      match this
      case Free => "Free"
      case GridVania => "GridVania"
      case LinearHorizontal => "LinearHorizontal"
      case LinearVertical => "LinearVertical"
    }
  }

  const WORLD_LAYOUT_NAMES: set<string> := {"Free", "GridVania", "LinearHorizontal", "LinearVertical"}

  /** to_json: the enumerator's name, which from_json reads back. */
  function WorldLayoutToJson(x: WorldLayout): (j: Json)
    ensures j.JString? && j.str in WORLD_LAYOUT_NAMES
    ensures WorldLayoutFromJson(j) == Ok(x)
  {
    JString(x.Name())
  }

  /** from_json: the enumerator a listed name stands for; any other value throws the schema error. */
  function WorldLayoutFromJson(j: Json): (r: Result<WorldLayout, JsonError>)
    ensures r.Ok? <==> j.JString? && j.str in WORLD_LAYOUT_NAMES
    ensures r.Ok? ==> j == JString(r.value.Name())
    ensures r.Err? ==> r.error == SCHEMA_ERROR
  {
    if j == JString("Free") then Ok(WorldLayout.Free)
    else if j == JString("GridVania") then Ok(WorldLayout.GridVania)
    else if j == JString("LinearHorizontal") then Ok(WorldLayout.LinearHorizontal)
    else if j == JString("LinearVertical") then Ok(WorldLayout.LinearVertical)
    else Err(SCHEMA_ERROR)
  }

  /** Every listed name reads back to itself: to_json(from_json(j)) == j. */
  lemma WorldLayoutNamesRoundTrip(j: Json)
    requires WorldLayoutFromJson(j).Ok?
    ensures WorldLayoutToJson(WorldLayoutFromJson(j).value) == j
  {
  }

  /** IdentifierStyle (src/external/ldtk.hpp:1525). */
  datatype IdentifierStyle = Capitalize | Free | Lowercase | Uppercase
  {
    /** The enumerator's name in the JSON files. */
    function Name(): string
    {
      match this
      case Capitalize => "Capitalize"
      case Free => "Free"
      case Lowercase => "Lowercase"
      case Uppercase => "Uppercase"
    }
  }

  const IDENTIFIER_STYLE_NAMES: set<string> := {"Capitalize", "Free", "Lowercase", "Uppercase"}

  /** to_json: the enumerator's name, which from_json reads back. */
  function IdentifierStyleToJson(x: IdentifierStyle): (j: Json)
    ensures j.JString? && j.str in IDENTIFIER_STYLE_NAMES
    ensures IdentifierStyleFromJson(j) == Ok(x)
  {
    JString(x.Name())
  }

  /** from_json: the enumerator a listed name stands for; any other value throws the schema error. */
  function IdentifierStyleFromJson(j: Json): (r: Result<IdentifierStyle, JsonError>)
    ensures r.Ok? <==> j.JString? && j.str in IDENTIFIER_STYLE_NAMES
    ensures r.Ok? ==> j == JString(r.value.Name())
    ensures r.Err? ==> r.error == SCHEMA_ERROR
  {
    if j == JString("Capitalize") then Ok(IdentifierStyle.Capitalize)
    else if j == JString("Free") then Ok(IdentifierStyle.Free)
    else if j == JString("Lowercase") then Ok(IdentifierStyle.Lowercase)
    else if j == JString("Uppercase") then Ok(IdentifierStyle.Uppercase)
    else Err(SCHEMA_ERROR)
  }

  /** Every listed name reads back to itself: to_json(from_json(j)) == j. */
  lemma IdentifierStyleNamesRoundTrip(j: Json)
    requires IdentifierStyleFromJson(j).Ok?
    ensures IdentifierStyleToJson(IdentifierStyleFromJson(j).value) == j
  {
  }

  /** ImageExportMode (src/external/ldtk.hpp:1531). */
  datatype ImageExportMode = LayersAndLevels | None | OneImagePerLayer | OneImagePerLevel
  {
    /** The enumerator's name in the JSON files. */
    function Name(): string
    {
      match this
      case LayersAndLevels => "LayersAndLevels"
      case None => "None"
      case OneImagePerLayer => "OneImagePerLayer"
      case OneImagePerLevel => "OneImagePerLevel"
    }
  }

  const IMAGE_EXPORT_MODE_NAMES: set<string> := {"LayersAndLevels", "None", "OneImagePerLayer", "OneImagePerLevel"}

  /** to_json: the enumerator's name, which from_json reads back. */
  function ImageExportModeToJson(x: ImageExportMode): (j: Json)
    ensures j.JString? && j.str in IMAGE_EXPORT_MODE_NAMES
    ensures ImageExportModeFromJson(j) == Ok(x)
  {
    JString(x.Name())
  }

  /** from_json: the enumerator a listed name stands for; any other value throws the schema error. */
  function ImageExportModeFromJson(j: Json): (r: Result<ImageExportMode, JsonError>)
    ensures r.Ok? <==> j.JString? && j.str in IMAGE_EXPORT_MODE_NAMES
    ensures r.Ok? ==> j == JString(r.value.Name())
    ensures r.Err? ==> r.error == SCHEMA_ERROR
  {
    if j == JString("LayersAndLevels") then Ok(ImageExportMode.LayersAndLevels)
    else if j == JString("None") then Ok(ImageExportMode.None)
    else if j == JString("OneImagePerLayer") then Ok(ImageExportMode.OneImagePerLayer)
    else if j == JString("OneImagePerLevel") then Ok(ImageExportMode.OneImagePerLevel)
    else Err(SCHEMA_ERROR)
  }

  /** Every listed name reads back to itself: to_json(from_json(j)) == j. */
  lemma ImageExportModeNamesRoundTrip(j: Json)
    requires ImageExportModeFromJson(j).Ok?
    ensures ImageExportModeToJson(ImageExportModeFromJson(j).value) == j
  {
  }
}
