/** The sensor's render configuration (CosmosRenderConfig) with its built-in
    defaults, and the override step that LoadConfigFromFile applies once the
    configuration file has been read and parsed. */
module RenderConfig {
  import opened Wrappers
  import opened Geometry

  datatype RenderConfig = RenderConfig(
    roadLineThickness: real,
    vehicleBoxThickness: real,
    poleThickness: real,
    stopLineThickness: real,
    laneLinesColor: Color,
    roadBoundariesColor: Color,
    waitLinesColor: Color,
    crosswalksColor: Color,
    roadMarkingsColor: Color,
    trafficSignsColor: Color,
    trafficLightsColor: Color,
    carsColor: Color,
    trucksColor: Color,
    pedestriansColor: Color,
    cyclistsColor: Color,
    polesColor: Color)

  /** The field initialisers of CosmosRenderConfig. */
  const Defaults: RenderConfig := RenderConfig(
    8.0, 5.0, 8.0, 8.0,
    Color(98, 183, 249, 255),
    Color(200, 36, 35, 255),
    Color(185, 63, 34, 255),
    Color(206, 131, 63, 255),
    Color(126, 204, 205, 255),
    Color(131, 175, 155, 255),
    Color(252, 157, 155, 255),
    Color(255, 0, 0, 255),
    Color(0, 0, 255, 255),
    Color(0, 255, 0, 255),
    Color(255, 255, 0, 255),
    Color(66, 40, 144, 255))

  /** A parsed JSON value, as far as the override step looks at it; `JOther` stands
      for null and for strings. */
  datatype Json = JNumber(n: real) | JBool(b: bool) | JArray(items: seq<Json>) | JObject(fields: map<string, Json>) | JOther

  /** The configuration file after the engine looked for, read and parsed it:
      `Unavailable` covers a missing file, a failed read and a failed parse. */
  datatype ConfigFile = Unavailable | Parsed(root: map<string, Json>)

  /** GetObjectField: the object stored under `key`. A missing key or a value of
      another type gives the engine's shared empty object, which is a valid pointer,
      so the source's validity tests on the result never fail. */
  function ObjectField(m: map<string, Json>, key: string): (r: map<string, Json>)
    ensures key in m && m[key].JObject? ==> r == m[key].fields
    ensures !(key in m && m[key].JObject?) ==> r == map[]
  {
    if key in m && m[key].JObject? then m[key].fields else map[]
  }

  /** AsNumber: a number reads as itself, a boolean as 1 or 0, anything else as 0. */
  function AsNumber(j: Json): real
  {
    match j
    case JNumber(n) => n
    case JBool(b) => if b then 1.0 else 0.0
    case _ => 0.0
  }

  /** GetNumberField: a missing key also reads as 0. */
  function NumberField(m: map<string, Json>, key: string): (r: real)
    ensures key !in m ==> r == 0.0
    ensures key in m && m[key].JNumber? ==> r == m[key].n
  {
    if key in m then AsNumber(m[key]) else 0.0
  }

  /** C++ conversion of a double to an integer: truncation toward zero. */
  function Trunc(v: real): (t: int)
    ensures v >= 0.0 ==> 0 <= t && t as real <= v < t as real + 1.0
    ensures v < 0.0 ==> t <= 0 && t as real - 1.0 < v <= t as real
  {
    if v >= 0.0 then v.Floor else -((-v).Floor)
  }

  /** The uint8 channel an FColor constructor receives for a JSON number. */
  function Channel(v: real): (c: byte)
    ensures 0.0 <= v < 256.0 ==> c as int == v.Floor
  {
    (Trunc(v) % 256) as byte
  }

  /** True when `colors[key]` is an array of exactly three values. */
  predicate IsTriple(colors: map<string, Json>, key: string)
  {
    key in colors && colors[key].JArray? && |colors[key].items| == 3
  }

  /** The LoadColor lambda: overwrite `current` only from a three-element array, alpha 255. */
  function LoadColor(colors: map<string, Json>, key: string, current: Color): (c: Color)
    ensures !IsTriple(colors, key) ==> c == current
    ensures IsTriple(colors, key) ==> c.a == 255
  {
    if IsTriple(colors, key) then
      var items := colors[key].items;
      Color(Channel(AsNumber(items[0])), Channel(AsNumber(items[1])), Channel(AsNumber(items[2])), 255)
    else current
  }

  /** The four thickness assignments, made whenever `LineThickness` is an object. */
  function LoadThickness(cfg: RenderConfig, t: map<string, Json>): RenderConfig
  {
    cfg.(roadLineThickness := NumberField(t, "road_lines"),
         vehicleBoxThickness := NumberField(t, "vehicle_boxes"),
         poleThickness := NumberField(t, "poles"),
         stopLineThickness := NumberField(t, "stop_lines"))
  }

  /** The eleven LoadColor calls; WaitLinesColor has no key. */
  function LoadColors(cfg: RenderConfig, colors: map<string, Json>): RenderConfig
  {
    cfg.(laneLinesColor := LoadColor(colors, "lane_lines", cfg.laneLinesColor),
         roadBoundariesColor := LoadColor(colors, "road_boundaries", cfg.roadBoundariesColor),
         crosswalksColor := LoadColor(colors, "crosswalks", cfg.crosswalksColor),
         roadMarkingsColor := LoadColor(colors, "road_markings", cfg.roadMarkingsColor),
         trafficSignsColor := LoadColor(colors, "traffic_signs", cfg.trafficSignsColor),
         trafficLightsColor := LoadColor(colors, "traffic_lights", cfg.trafficLightsColor),
         carsColor := LoadColor(colors, "cars", cfg.carsColor),
         trucksColor := LoadColor(colors, "trucks", cfg.trucksColor),
         pedestriansColor := LoadColor(colors, "pedestrians", cfg.pedestriansColor),
         cyclistsColor := LoadColor(colors, "cyclists", cfg.cyclistsColor),
         polesColor := LoadColor(colors, "poles", cfg.polesColor))
  }

  /** The `CosmosControlVisualization` section of a parsed file (empty when the key is
      missing); nothing when the file could not be read or parsed. */
  function Section(file: ConfigFile): Option<map<string, Json>>
  {
    if file.Parsed? then Some(ObjectField(file.root, "CosmosControlVisualization")) else None
  }

  /** The override step of LoadConfigFromFile applied to the current configuration. The
      `IsValid` test on the section and the tests on `LineThickness` and `Colors` always
      pass, so a parsed file always runs both the thickness and the colour assignments. */
  function LoadConfig(cfg: RenderConfig, file: ConfigFile): RenderConfig
  {
    match Section(file)
    case None => cfg
    case Some(section) =>
      LoadColors(LoadThickness(cfg, ObjectField(section, "LineThickness")), ObjectField(section, "Colors"))
  }

  /** Every colour of the configuration is opaque. */
  predicate AllOpaque(c: RenderConfig)
  {
    && c.laneLinesColor.a == 255 && c.roadBoundariesColor.a == 255 && c.waitLinesColor.a == 255
    && c.crosswalksColor.a == 255 && c.roadMarkingsColor.a == 255 && c.trafficSignsColor.a == 255
    && c.trafficLightsColor.a == 255 && c.carsColor.a == 255 && c.trucksColor.a == 255
    && c.pedestriansColor.a == 255 && c.cyclistsColor.a == 255 && c.polesColor.a == 255
  }

  /** The colour a configuration key of the `Colors` object overrides. */
  function ColorOfKey(c: RenderConfig, key: string): Option<Color>
  {
    match key
    case "lane_lines" => Some(c.laneLinesColor)
    case "road_boundaries" => Some(c.roadBoundariesColor)
    case "crosswalks" => Some(c.crosswalksColor)
    case "road_markings" => Some(c.roadMarkingsColor)
    case "traffic_signs" => Some(c.trafficSignsColor)
    case "traffic_lights" => Some(c.trafficLightsColor)
    case "cars" => Some(c.carsColor)
    case "trucks" => Some(c.trucksColor)
    case "pedestrians" => Some(c.pedestriansColor)
    case "cyclists" => Some(c.cyclistsColor)
    case "poles" => Some(c.polesColor)
    case _ => None
  }

  /** The `Colors` object of a parsed file (empty when the key is missing). */
  function ColorsObject(file: ConfigFile): Option<map<string, Json>>
  {
    match Section(file)
    case None => None
    case Some(section) => Some(ObjectField(section, "Colors"))
  }

  /** The `LineThickness` object of a parsed file (empty when the key is missing). */
  function ThicknessObject(file: ConfigFile): Option<map<string, Json>>
  {
    match Section(file)
    case None => None
    case Some(section) => Some(ObjectField(section, "LineThickness"))
  }

  /** The header's default thicknesses, and every default colour is opaque. */
  lemma DefaultsAsDeclared()
    ensures Defaults.roadLineThickness == 8.0 && Defaults.vehicleBoxThickness == 5.0
    ensures Defaults.poleThickness == 8.0 && Defaults.stopLineThickness == 8.0
    ensures AllOpaque(Defaults)
  {
  }

  /** Overrides keep every colour opaque: a loaded colour always gets alpha 255. */
  lemma LoadConfigKeepsOpaque(c: RenderConfig, file: ConfigFile)
    requires AllOpaque(c)
    ensures AllOpaque(LoadConfig(c, file))
  {
  }

  /** No key loads WaitLinesColor, so it always keeps its value. */
  lemma WaitLinesColorNeverLoaded(c: RenderConfig, file: ConfigFile)
    ensures LoadConfig(c, file).waitLinesColor == c.waitLinesColor
  {
  }

  /** Only a missing, unreadable or unparsable file leaves the configuration as it is:
      the early returns are those of the file checks, never the section check. */
  lemma NoSectionKeepsConfig(c: RenderConfig, file: ConfigFile)
    ensures Section(file).None? <==> file.Unavailable?
    ensures Section(file).None? ==> LoadConfig(c, file) == c
  {
  }

  /** A parsed file whose section has no `LineThickness` object, and in particular a
      parsed file without the section, zeroes all four thicknesses. */
  lemma MissingLineThicknessZeroesThickness(c: RenderConfig, root: map<string, Json>)
    requires var section := ObjectField(root, "CosmosControlVisualization");
      !("LineThickness" in section && section["LineThickness"].JObject?)
    ensures var r := LoadConfig(c, Parsed(root));
      r.roadLineThickness == 0.0 && r.vehicleBoxThickness == 0.0 &&
      r.poleThickness == 0.0 && r.stopLineThickness == 0.0
  {
  }

  /** An empty configuration object keeps every colour and zeroes every thickness. */
  lemma EmptyFileZeroesThickness(c: RenderConfig)
    ensures LoadConfig(c, Parsed(map[])) ==
      c.(roadLineThickness := 0.0, vehicleBoxThickness := 0.0, poleThickness := 0.0, stopLineThickness := 0.0)
  {
    var section := ObjectField(map[], "CosmosControlVisualization");
    assert section == map[];
    assert ObjectField(section, "Colors") == map[];
  }

  /** The thickness rule: all four fields are assigned whenever the file was parsed,
      each from its key of `LineThickness`, a missing key or object giving 0. */
  lemma ThicknessRule(c: RenderConfig, file: ConfigFile)
    ensures ThicknessObject(file).None? <==> file.Unavailable?
    ensures ThicknessObject(file).None? ==>
      var r := LoadConfig(c, file);
      r.roadLineThickness == c.roadLineThickness && r.vehicleBoxThickness == c.vehicleBoxThickness &&
      r.poleThickness == c.poleThickness && r.stopLineThickness == c.stopLineThickness
    ensures ThicknessObject(file).Some? ==>
      var t := ThicknessObject(file).value;
      var r := LoadConfig(c, file);
      r.roadLineThickness == NumberField(t, "road_lines") &&
      r.vehicleBoxThickness == NumberField(t, "vehicle_boxes") &&
      r.poleThickness == NumberField(t, "poles") &&
      r.stopLineThickness == NumberField(t, "stop_lines")
  {
  }

  /** The colour rule, for every key of the `Colors` object: the colour it names is
      replaced exactly when the key holds a three-element array, and then by that
      array's channels with alpha 255. */
  lemma ColorRule(c: RenderConfig, file: ConfigFile, key: string)
    requires ColorOfKey(c, key).Some?
    ensures ColorsObject(file).None? || !IsTriple(ColorsObject(file).value, key) ==>
      ColorOfKey(LoadConfig(c, file), key) == ColorOfKey(c, key)
    ensures ColorsObject(file).Some? && IsTriple(ColorsObject(file).value, key) ==>
      var items := ColorsObject(file).value[key].items;
      ColorOfKey(LoadConfig(c, file), key) ==
        Some(Color(Channel(AsNumber(items[0])), Channel(AsNumber(items[1])), Channel(AsNumber(items[2])), 255))
  {
  }

  /** Loading the same file twice gives what loading it once gives. */
  lemma LoadConfigIdempotent(c: RenderConfig, file: ConfigFile)
    ensures LoadConfig(LoadConfig(c, file), file) == LoadConfig(c, file)
  {
  }

  /** A `LineThickness` object holding only `road_lines` sets that thickness,
      zeroes the other three (the engine reads a missing number as 0) and changes
      nothing else. */
  lemma OnlyRoadLinesThickness(c: RenderConfig, v: real)
    ensures
      var file := Parsed(map["CosmosControlVisualization" := JObject(map["LineThickness" := JObject(map["road_lines" := JNumber(v)])])]);
      LoadConfig(c, file) ==
        c.(roadLineThickness := v, vehicleBoxThickness := 0.0, poleThickness := 0.0, stopLineThickness := 0.0)
  {
    var file := Parsed(map["CosmosControlVisualization" := JObject(map["LineThickness" := JObject(map["road_lines" := JNumber(v)])])]);
    var t := map["road_lines" := JNumber(v)];
    var section := map["LineThickness" := JObject(t)];
    assert Section(file) == Some(section);
    assert ObjectField(section, "LineThickness") == t;
    assert ObjectField(section, "Colors") == map[];
    assert "vehicle_boxes" !in t && "poles" !in t && "stop_lines" !in t;
  }
}
