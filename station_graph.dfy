/**
 * The entity graph `initSensorData` builds for one measuring station:
 * Location (only with coordinates), Thing, six Sensor/Datastream pairs in
 * the order PM10, PM2.5, SO2, CO, O3, NO2, and the FeatureOfInterest last.
 */
module StationGraph {
  import opened Wrappers
  import opened JavaText
  import opened AirQuality
  import opened SensorThings

  /** A station record of the station list, each field as its JSON text. */
  datatype Station = Station(stationName: string, addr: string, dmX: string, dmY: string,
                             mangName: string, year: string, oper: string, photo: string,
                             vrml: string, mapUrl: string, item: string)

  const LocationDescription: string := "대기질 측정소 위치"
  const ThingDescription: string := "한국환경공단 측정소"
  const SensorDescription: string := "미세먼지 측정소"
  const FeatureOfInterestSuffix: string := " 측정소"
  const FeatureOfInterestDescription: string := "한국환경공단 대기질 측정소"

  const ParticulateUnit: Unit := Unit("microgram per cubic meter", "㎍/m³",
    "https://www.eea.europa.eu/themes/air/air-quality/resources/glossary/g-m3")
  const GasUnit: Unit := Unit("parts per million", "ppm", "https://en.wikipedia.org/wiki/Parts-per_notation")

  /** What follows "<station name>:" in a Sensor's name. */
  function SensorLabel(p: Pollutant): string {
    match p
    case PM10 => "미세먼지(PM10)" case PM25 => "미세먼지(PM2.5)"
    case SO2 => "아황산가스 농도" case CO => "일산화탄소 농도"
    case O3 => "오존 농도" case NO2 => "이산화질소 농도"
  }

  function UnitOf(p: Pollutant): Unit {
    if IsParticulate(p) then ParticulateUnit else GasUnit
  }

  /** The Thing's property bag; `available` is always true for a station in the current list. */
  function ThingProperties(st: Station): Properties {
    map["stationName" := Text(st.stationName), "year" := Text(st.year), "oper" := Text(st.oper),
        "photo" := Text(st.photo), "vrml" := Text(st.vrml), "map" := Text(st.mapUrl),
        "mangName" := Text(st.mangName), "item" := Text(st.item), "available" := Flag(true)]
  }

  /** The point, longitude from dmY and latitude from dmX, when both trimmed texts are non-empty. */
  function Geometry(st: Station): Option<Point> {
    var x := Trim(st.dmX);
    var y := Trim(st.dmY);
    if x != "" && y != "" then Some(Point(y, x)) else None
  }

  /**
   * A station gets a point exactly when both coordinate texts hold a
   * character above ' '; the point carries the trimmed texts, swapped.
   */
  lemma GeometryPresence(st: Station)
    ensures Geometry(st).Some? <==>
      (exists i :: 0 <= i < |st.dmX| && !IsTrimmed(st.dmX[i])) && (exists j :: 0 <= j < |st.dmY| && !IsTrimmed(st.dmY[j]))
    ensures Geometry(st).Some? ==> Geometry(st).value == Point(Trim(st.dmY), Trim(st.dmX))
  {
    TrimSpec(st.dmX);
    TrimSpec(st.dmY);
  }

  // ------------------------------------------- the graph, in closed form

  function LocationOf(st: Station, geometry: Option<Point>, locationId: int): Entity {
    Location(locationId, st.addr, LocationDescription, geometry)
  }

  function ThingOf(st: Station, geometry: Option<Point>, thingId: int, locationId: int): Entity {
    Thing(thingId, st.stationName, ThingDescription, ThingProperties(st),
          if geometry.Some? then [LocationOf(st, geometry, locationId)] else [])
  }

  /** Sensor and Datastream `k` (0 to 5) of Thing `thingId` share id 6(thingId-1)+k+1. */
  function PairId(thingId: int, k: int): int { 6 * (thingId - 1) + k + 1 }

  function SensorOf(st: Station, thingId: int, k: nat): Entity
    requires k < 6
  {
    Sensor(PairId(thingId, k), st.stationName + ":" + SensorLabel(Pollutants[k]), SensorDescription, st.mangName)
  }

  function DatastreamOf(st: Station, thingId: int, k: nat): Entity
    requires k < 6
  {
    var p := Pollutants[k];
    Datastream(PairId(thingId, k), DatastreamName(p), DatastreamName(p), UnitOf(p),
               PairId(thingId, k), k + 1, thingId)
  }

  function FeatureOfInterestOf(st: Station, geometry: Option<Point>, thingId: int): Entity {
    FeatureOfInterest(thingId, st.stationName + FeatureOfInterestSuffix, FeatureOfInterestDescription, geometry)
  }

  /** The Sensor/Datastream pairs of the first `k` pollutants, in the order they are appended. */
  function PairsUpTo(st: Station, thingId: int, k: nat): seq<Entity>
    requires k <= 6
  {
    if k == 0 then [] else PairsUpTo(st, thingId, k - 1) + [SensorOf(st, thingId, k - 1), DatastreamOf(st, thingId, k - 1)]
  }

  function Pairs(st: Station, thingId: int): seq<Entity> { PairsUpTo(st, thingId, 6) }

  /** The list for a station whose point is `geometry`, in the order it is sent to the store. */
  function EntityGraphFor(st: Station, geometry: Option<Point>, thingId: int, locationId: int): seq<Entity> {
    (if geometry.Some? then [LocationOf(st, geometry, locationId)] else [])
    + [ThingOf(st, geometry, thingId, locationId)] + Pairs(st, thingId) + [FeatureOfInterestOf(st, geometry, thingId)]
  }

  function EntityGraph(st: Station, thingId: int, locationId: int): seq<Entity> {
    EntityGraphFor(st, Geometry(st), thingId, locationId)
  }

  // ------------------------------------------------------------ properties

  lemma {:induction false} PairsUpToLength(st: Station, t: int, n: nat)
    requires n <= 6
    ensures |PairsUpTo(st, t, n)| == 2 * n
  {
    if n > 0 {
      PairsUpToLength(st, t, n - 1);
    }
  }

  /** Pair `k` sits at positions 2k and 2k+1 of the pairs of the first `n` pollutants. */
  lemma {:induction false} PairsUpToAt(st: Station, t: int, n: nat, k: nat)
    requires k < n <= 6
    ensures |PairsUpTo(st, t, n)| == 2 * n
    ensures PairsUpTo(st, t, n)[2 * k] == SensorOf(st, t, k)
    ensures PairsUpTo(st, t, n)[2 * k + 1] == DatastreamOf(st, t, k)
  {
    PairsUpToLength(st, t, n);
    PairsUpToLength(st, t, n - 1);
    var prev := PairsUpTo(st, t, n - 1);
    var last := [SensorOf(st, t, n - 1), DatastreamOf(st, t, n - 1)];
    assert PairsUpTo(st, t, n) == prev + last;
    if k < n - 1 {
      PairsUpToAt(st, t, n - 1, k);
      assert (prev + last)[2 * k] == prev[2 * k];
      assert (prev + last)[2 * k + 1] == prev[2 * k + 1];
    }
  }

  /** The pairs hold only Sensors and Datastreams. */
  lemma {:induction false} PairsUpToKinds(st: Station, t: int, n: nat, i: int)
    requires n <= 6 && 0 <= i < |PairsUpTo(st, t, n)|
    ensures PairsUpTo(st, t, n)[i].Sensor? || PairsUpTo(st, t, n)[i].Datastream?
  {
    var prev := PairsUpTo(st, t, n - 1);
    var last := [SensorOf(st, t, n - 1), DatastreamOf(st, t, n - 1)];
    assert PairsUpTo(st, t, n) == prev + last;
    if i < |prev| {
      assert (prev + last)[i] == prev[i];
      PairsUpToKinds(st, t, n - 1, i);
    } else {
      assert (prev + last)[i] == last[i - |prev|];
    }
  }

  function ThingOffset(geometry: Option<Point>): nat { if geometry.Some? then 1 else 0 }

  /** The list is 15 entities long with a point and 14 without; a Location comes first only with a point. */
  lemma EntityGraphLength(st: Station, geometry: Option<Point>, t: int, l: int)
    ensures |EntityGraphFor(st, geometry, t, l)| == (if geometry.Some? then 15 else 14)
    ensures EntityGraphFor(st, geometry, t, l)[0].Location? <==> geometry.Some?
    ensures geometry.Some? ==>
      EntityGraphFor(st, geometry, t, l)[0] == Location(l, st.addr, LocationDescription, geometry)
  {
    PairsUpToLength(st, t, 6);
  }

  /** The Thing follows the optional Location, keeps the station name, is marked available and lists that Location. */
  lemma EntityGraphThing(st: Station, geometry: Option<Point>, t: int, l: int)
    ensures var g := EntityGraphFor(st, geometry, t, l);
      && g[ThingOffset(geometry)].Thing? && g[ThingOffset(geometry)].id == t
      && g[ThingOffset(geometry)].name == st.stationName
      && "available" in g[ThingOffset(geometry)].properties
      && g[ThingOffset(geometry)].properties["available"] == Flag(true)
      && g[ThingOffset(geometry)].locations == (if geometry.Some? then [g[0]] else [])
  {
  }

  /** The FeatureOfInterest comes last and reuses the Thing's id and the station's point. */
  lemma EntityGraphFeatureOfInterest(st: Station, geometry: Option<Point>, t: int, l: int)
    ensures var g := EntityGraphFor(st, geometry, t, l);
      && g[|g| - 1].FeatureOfInterest? && g[|g| - 1].id == t
      && g[|g| - 1].name == st.stationName + FeatureOfInterestSuffix
      && g[|g| - 1].geometry == geometry
  {
  }

  /** Between them come Sensor `k` then Datastream `k`, for k from 0 (PM10) to 5 (NO2). */
  lemma EntityGraphPair(st: Station, geometry: Option<Point>, t: int, l: int, k: nat)
    requires k < 6
    ensures var g := EntityGraphFor(st, geometry, t, l);
      && |g| == ThingOffset(geometry) + 14
      && g[ThingOffset(geometry) + 1 + 2 * k] == SensorOf(st, t, k)
      && g[ThingOffset(geometry) + 2 + 2 * k] == DatastreamOf(st, t, k)
  {
    var head := (if geometry.Some? then [LocationOf(st, geometry, l)] else []) + [ThingOf(st, geometry, t, l)];
    var pairs := Pairs(st, t);
    var g := EntityGraphFor(st, geometry, t, l);
    assert g == head + pairs + [FeatureOfInterestOf(st, geometry, t)];
    assert |head| == ThingOffset(geometry) + 1;
    PairsUpToAt(st, t, 6, k);
    assert g[|head| + 2 * k] == pairs[2 * k];
    assert g[|head| + 2 * k + 1] == pairs[2 * k + 1];
  }

  /** The Thing is the only Thing in the list. */
  lemma EntityGraphOnlyThing(st: Station, geometry: Option<Point>, t: int, l: int, i: int)
    requires 0 <= i < |EntityGraphFor(st, geometry, t, l)|
    ensures EntityGraphFor(st, geometry, t, l)[i].Thing? ==> i == ThingOffset(geometry) && EntityGraphFor(st, geometry, t, l)[i].id == t
  {
    var location := if geometry.Some? then [LocationOf(st, geometry, l)] else [];
    var head := location + [ThingOf(st, geometry, t, l)];
    var pairs := Pairs(st, t);
    var g := EntityGraphFor(st, geometry, t, l);
    assert g == head + pairs + [FeatureOfInterestOf(st, geometry, t)];
    PairsUpToLength(st, t, 6);
    if i < |location| {
      assert g[i] == location[i];
    } else if i == |location| {
      assert g[i] == ThingOf(st, geometry, t, l);
    } else if i < |head| + |pairs| {
      assert g[i] == pairs[i - |head|];
      PairsUpToKinds(st, t, 6, i - |head|);
    } else {
      assert g[i] == FeatureOfInterestOf(st, geometry, t);
    }
  }

  /**
   * Sensor and Datastream `k` get id 6(t-1)+k+1, Datastream `k` observes
   * ObservedProperty k+1 (so NO2 uses 6) and points at its Sensor and Thing.
   */
  lemma PairIds(st: Station, t: int, k: nat)
    requires k < 6
    ensures SensorOf(st, t, k).id == 6 * (t - 1) + k + 1
    ensures DatastreamOf(st, t, k).id == 6 * (t - 1) + k + 1
    ensures DatastreamOf(st, t, k).sensorId == SensorOf(st, t, k).id
    ensures DatastreamOf(st, t, k).observedPropertyId == k + 1
    ensures DatastreamOf(st, t, k).thingId == t
    ensures DatastreamOf(st, t, k).name == DatastreamName(Pollutants[k])
  {
  }

  /** Distinct Things never share a Sensor or Datastream id. */
  lemma PairIdsDisjoint(t1: int, k1: nat, t2: int, k2: nat)
    requires k1 < 6 && k2 < 6
    requires t1 != t2 || k1 != k2
    ensures PairId(t1, k1) != PairId(t2, k2)
  {
  }

  // ------------------------------------------- the builder, step by step

  lemma EntitiesAppendAssoc(a: seq<Entity>, b: seq<Entity>, c: seq<Entity>)
    ensures a + (b + c) == (a + b) + c
  {
  }


  /**
   * The list of `initSensorData` for one station, built as the source does:
   * by appending each entity with the Sensor, Datastream and
   * ObservedProperty counters pre- or post-incremented along the way.
   */
  method BuildEntityList(st: Station, thingId: int, locationId: int) returns (entityList: seq<Entity>)
    ensures entityList == EntityGraph(st, thingId, locationId)
  {
    var dmX := Trim(st.dmX);
    var dmY := Trim(st.dmY);
    var point: Option<Point> := None;
    if dmX != "" && dmY != "" {
      point := Some(Point(dmY, dmX));
    }
    entityList := AppendStationEntities(st, point, thingId, locationId);
  }

  /** The appends of `BuildEntityList` once the station's point is known. */
  method AppendStationEntities(st: Station, point: Option<Point>, thingId: int, locationId: int)
    returns (entityList: seq<Entity>)
    ensures entityList == EntityGraphFor(st, point, thingId, locationId)
  {
    var dataStreamId := (thingId - 1) * 6;
    var sensorId := (thingId - 1) * 6;
    var observedPropertyId := 1;
    var locationList: seq<Entity> := [];
    entityList := [];

    var location := Location(locationId, st.addr, LocationDescription, point);
    if point != None {
      entityList := entityList + [location];
      locationList := locationList + [location];
    }

    var thing := Thing(thingId, st.stationName, ThingDescription, ThingProperties(st), locationList);
    entityList := entityList + [thing];
    assert locationList == (if point.Some? then [LocationOf(st, point, locationId)] else []);
    assert thing == ThingOf(st, point, thingId, locationId);
    ghost var head := entityList;
    assert head == (if point.Some? then [LocationOf(st, point, locationId)] else []) + [ThingOf(st, point, thingId, locationId)];
    assert entityList == head + PairsUpTo(st, thingId, 0);

    var pair: seq<Entity>;
    pair, sensorId, dataStreamId := SensorAndDatastream(st, thing.id, 0, sensorId, dataStreamId, observedPropertyId);
    observedPropertyId := observedPropertyId + 1;
    EntitiesAppendAssoc(head, PairsUpTo(st, thingId, 0), pair);
    entityList := entityList + pair;
    pair, sensorId, dataStreamId := SensorAndDatastream(st, thing.id, 1, sensorId, dataStreamId, observedPropertyId);
    observedPropertyId := observedPropertyId + 1;
    EntitiesAppendAssoc(head, PairsUpTo(st, thingId, 1), pair);
    entityList := entityList + pair;
    pair, sensorId, dataStreamId := SensorAndDatastream(st, thing.id, 2, sensorId, dataStreamId, observedPropertyId);
    observedPropertyId := observedPropertyId + 1;
    EntitiesAppendAssoc(head, PairsUpTo(st, thingId, 2), pair);
    entityList := entityList + pair;
    pair, sensorId, dataStreamId := SensorAndDatastream(st, thing.id, 3, sensorId, dataStreamId, observedPropertyId);
    observedPropertyId := observedPropertyId + 1;
    EntitiesAppendAssoc(head, PairsUpTo(st, thingId, 3), pair);
    entityList := entityList + pair;
    pair, sensorId, dataStreamId := SensorAndDatastream(st, thing.id, 4, sensorId, dataStreamId, observedPropertyId);
    observedPropertyId := observedPropertyId + 1;
    EntitiesAppendAssoc(head, PairsUpTo(st, thingId, 4), pair);
    entityList := entityList + pair;
    // NO2 takes the current ObservedProperty id without a further increment.
    pair, sensorId, dataStreamId := SensorAndDatastream(st, thing.id, 5, sensorId, dataStreamId, observedPropertyId);
    EntitiesAppendAssoc(head, PairsUpTo(st, thingId, 5), pair);
    entityList := entityList + pair;
    assert entityList == head + Pairs(st, thingId);

    var featureOfInterest := FeatureOfInterest(thing.id, st.stationName + FeatureOfInterestSuffix,
                                               FeatureOfInterestDescription, point);
    entityList := entityList + [featureOfInterest];
  }

  /**
   * One of the six blocks: pre-increment the Sensor and Datastream
   * counters, build Sensor `k` and the Datastream that observes
   * `observedPropertyId` through it.
   */
  method SensorAndDatastream(st: Station, thingId: int, k: nat, sensorId: int, dataStreamId: int,
                             observedPropertyId: int)
    returns (pair: seq<Entity>, sensorId': int, dataStreamId': int)
    requires k < 6
    requires sensorId == dataStreamId == PairId(thingId, k) - 1 && observedPropertyId == k + 1
    ensures pair == [SensorOf(st, thingId, k), DatastreamOf(st, thingId, k)]
    ensures sensorId' == dataStreamId' == PairId(thingId, k)
  {
    var p := Pollutants[k];
    sensorId' := sensorId + 1;
    var sensor := Sensor(sensorId', st.stationName + ":" + SensorLabel(p), SensorDescription, st.mangName);
    dataStreamId' := dataStreamId + 1;
    var unit := if IsParticulate(p) then ParticulateUnit else GasUnit;
    var dataStream := Datastream(dataStreamId', DatastreamName(p), DatastreamName(p), unit,
                                 sensor.id, observedPropertyId, thingId);
    pair := [sensor, dataStream];
  }
}
