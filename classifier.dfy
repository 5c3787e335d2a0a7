/** The semantic classifier: the city-object label of a mesh component, the colour
    GetColorByTag gives it, and which debug primitive the tick draws for it (the
    `Tag ==` chain of PostPhysTick). */
module Classifier {
  import opened Geometry
  import opened RenderConfig

  /** carla::rpc::CityObjectLabel, in the order of its numeric codes 0..28. */
  datatype CityObjectLabel =
    | Unlabelled | Roads | Sidewalks | Buildings | Walls | Fences | Poles | TrafficLight
    | TrafficSigns | Vegetation | Terrain | Sky | Pedestrians | Rider | Car | Truck | Bus
    | Train | Motorcycle | Bicycle | Static | Dynamic | Other | Water | RoadLines | Ground
    | Bridge | RailTrack | GuardRail

  /** The numeric code of a label. */
  function LabelCode(tag: CityObjectLabel): (code: int)
    ensures 0 <= code <= 28
  {
    match tag
    case Unlabelled => 0 case Roads => 1 case Sidewalks => 2 case Buildings => 3
    case Walls => 4 case Fences => 5 case Poles => 6 case TrafficLight => 7
    case TrafficSigns => 8 case Vegetation => 9 case Terrain => 10 case Sky => 11
    case Pedestrians => 12 case Rider => 13 case Car => 14 case Truck => 15
    case Bus => 16 case Train => 17 case Motorcycle => 18 case Bicycle => 19
    case Static => 20 case Dynamic => 21 case Other => 22 case Water => 23
    case RoadLines => 24 case Ground => 25 case Bridge => 26 case RailTrack => 27
    case GuardRail => 28
  }

  /** GetColorByTag. */
  function ColorByTag(cfg: RenderConfig, tag: CityObjectLabel): Color
  {
    match tag
    case TrafficLight => cfg.trafficLightsColor
    case TrafficSigns => cfg.trafficSignsColor
    case Poles => cfg.polesColor
    case Car | Bus | Motorcycle | Train => cfg.carsColor
    case Truck => cfg.trucksColor
    case Bicycle => cfg.cyclistsColor
    case Pedestrians => cfg.pedestriansColor
    case _ => White
  }

  /** The drawing strategy a tag selects. */
  datatype DrawKind = SolidBoxDraw | WireBoxDraw | CapsuleDraw | NoDraw

  /** The `Tag ==` chain: solid box, wire box, capsule or nothing. */
  function DrawKindOf(tag: CityObjectLabel): DrawKind
  {
    if tag == TrafficLight || tag == TrafficSigns then SolidBoxDraw
    else if tag == Car || tag == Bicycle || tag == Bus || tag == Motorcycle ||
            tag == Pedestrians || tag == Train || tag == Truck then WireBoxDraw
    else if tag == Poles then CapsuleDraw
    else NoDraw
  }

  /** The colour table of GetColorByTag, category by category. */
  lemma ColorByTagTable(cfg: RenderConfig, tag: CityObjectLabel)
    ensures tag in {Car, Bus, Motorcycle, Train} ==> ColorByTag(cfg, tag) == cfg.carsColor
    ensures tag == Truck ==> ColorByTag(cfg, tag) == cfg.trucksColor
    ensures tag == Bicycle ==> ColorByTag(cfg, tag) == cfg.cyclistsColor
    ensures tag == Pedestrians ==> ColorByTag(cfg, tag) == cfg.pedestriansColor
    ensures tag == TrafficLight ==> ColorByTag(cfg, tag) == cfg.trafficLightsColor
    ensures tag == TrafficSigns ==> ColorByTag(cfg, tag) == cfg.trafficSignsColor
    ensures tag == Poles ==> ColorByTag(cfg, tag) == cfg.polesColor
    ensures tag !in {Car, Bus, Motorcycle, Train, Truck, Bicycle, Pedestrians, TrafficLight, TrafficSigns, Poles} ==>
      ColorByTag(cfg, tag) == White
  {
  }

  /** The classifier and the dispatch agree: exactly the tags that are drawn have a
      configured colour, every other tag gets White. */
  lemma DrawnTagsHaveConfiguredColors(cfg: RenderConfig, tag: CityObjectLabel)
    ensures DrawKindOf(tag) == NoDraw ==> ColorByTag(cfg, tag) == White
    ensures DrawKindOf(tag) == SolidBoxDraw ==>
      ColorByTag(cfg, tag) in {cfg.trafficLightsColor, cfg.trafficSignsColor}
    ensures DrawKindOf(tag) == WireBoxDraw ==>
      ColorByTag(cfg, tag) in {cfg.carsColor, cfg.trucksColor, cfg.cyclistsColor, cfg.pedestriansColor}
    ensures DrawKindOf(tag) == CapsuleDraw ==> ColorByTag(cfg, tag) == cfg.polesColor
  {
  }

  /** Every configured object colour is reachable: some tag is drawn in it. */
  lemma EveryObjectColorIsUsed(cfg: RenderConfig)
    ensures exists t :: DrawKindOf(t) == WireBoxDraw && ColorByTag(cfg, t) == cfg.carsColor
    ensures exists t :: DrawKindOf(t) == WireBoxDraw && ColorByTag(cfg, t) == cfg.trucksColor
    ensures exists t :: DrawKindOf(t) == WireBoxDraw && ColorByTag(cfg, t) == cfg.cyclistsColor
    ensures exists t :: DrawKindOf(t) == WireBoxDraw && ColorByTag(cfg, t) == cfg.pedestriansColor
    ensures exists t :: DrawKindOf(t) == SolidBoxDraw && ColorByTag(cfg, t) == cfg.trafficLightsColor
    ensures exists t :: DrawKindOf(t) == SolidBoxDraw && ColorByTag(cfg, t) == cfg.trafficSignsColor
    ensures exists t :: DrawKindOf(t) == CapsuleDraw && ColorByTag(cfg, t) == cfg.polesColor
  {
    assert DrawKindOf(Car) == WireBoxDraw && ColorByTag(cfg, Car) == cfg.carsColor;
    assert DrawKindOf(Truck) == WireBoxDraw && ColorByTag(cfg, Truck) == cfg.trucksColor;
    assert DrawKindOf(Bicycle) == WireBoxDraw && ColorByTag(cfg, Bicycle) == cfg.cyclistsColor;
    assert DrawKindOf(Pedestrians) == WireBoxDraw && ColorByTag(cfg, Pedestrians) == cfg.pedestriansColor;
    assert DrawKindOf(TrafficLight) == SolidBoxDraw && ColorByTag(cfg, TrafficLight) == cfg.trafficLightsColor;
    assert DrawKindOf(TrafficSigns) == SolidBoxDraw && ColorByTag(cfg, TrafficSigns) == cfg.trafficSignsColor;
    assert DrawKindOf(Poles) == CapsuleDraw && ColorByTag(cfg, Poles) == cfg.polesColor;
  }

  /** LabelCode is a bijection onto 0..28: distinct labels have distinct codes. */
  lemma LabelCodeInjective(a: CityObjectLabel, b: CityObjectLabel)
    ensures LabelCode(a) == LabelCode(b) ==> a == b
  {
  }
}
