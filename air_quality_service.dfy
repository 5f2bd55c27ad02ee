/**
 * The reconciliation service: the one-time ObservedProperty bootstrap, the
 * invalidation pass that marks unavailable every Thing its written OData
 * filter selects, the station pass that creates or updates each station's
 * entity graph, and the hourly pass that records one Observation per Datastream.
 */
module AirQualityService {
  import opened Wrappers
  import opened JavaText
  import opened AirQuality
  import opened SensorThings
  import opened StationGraph

  // ------------------------------------------ ObservedProperty bootstrap

  /** The ObservedProperty created for each pollutant. */
  function ObservedPropertyOf(p: Pollutant): (e: Entity)
    ensures e.ObservedProperty? && e.name == ObservedPropertyName(p)
  {
    match p
    case PM10 => ObservedProperty(ObservedPropertyName(p), "미세먼지(PM10) Particulates",
                                  "https://en.wikipedia.org/wiki/Particulates")
    case PM25 => ObservedProperty(ObservedPropertyName(p), "미세먼지(PM2.5) Particulates",
                                  "https://en.wikipedia.org/wiki/Particulates")
    case SO2 => ObservedProperty(ObservedPropertyName(p), "아황산가스 농도 Sulfur_dioxide",
                                 "https://en.wikipedia.org/wiki/Sulfur_dioxide")
    case CO => ObservedProperty(ObservedPropertyName(p), "일산화탄소 농도 Carbon_monoxide",
                                "https://en.wikipedia.org/wiki/Carbon_monoxide")
    case O3 => ObservedProperty(ObservedPropertyName(p), "오존 농도 Ozone",
                                "https://en.wikipedia.org/wiki/Ozone")
    case NO2 => ObservedProperty(ObservedPropertyName(p), "이산화질소 Nitrogen_dioxide",
                                 "https://en.wikipedia.org/wiki/Nitrogen_dioxide")
  }

  /** The create one block sends: none when the server already knows the name. */
  function MissingCreate(p: Pollutant, names: set<string>): seq<Request> {
    if ObservedPropertyName(p) in names then [] else [Create(ObservedPropertyOf(p))]
  }

  /** The creates of the blocks for `Pollutants[k..]`, in order, given the names known at the start. */
  function BootstrapFrom(k: nat, names: set<string>): seq<Request>
    requires k <= 6
    decreases 6 - k
  {
    if k == 6 then [] else MissingCreate(Pollutants[k], names) + BootstrapFrom(k + 1, names)
  }

  function BootstrapRequests(names: set<string>): seq<Request> { BootstrapFrom(0, names) }

  lemma {:induction false} BootstrapFromMembers(k: nat, names: set<string>)
    requires k <= 6
    ensures forall r :: r in BootstrapFrom(k, names) <==>
      exists j :: k <= j < 6 && ObservedPropertyName(Pollutants[j]) !in names && r == Create(ObservedPropertyOf(Pollutants[j]))
    decreases 6 - k
  {
    if k < 6 {
      BootstrapFromMembers(k + 1, names);
    }
  }

  /** Where a pollutant's block sits in the fixed order. */
  function Position(p: Pollutant): (k: nat)
    ensures k < 6 && Pollutants[k] == p
  {
    match p case PM10 => 0 case PM25 => 1 case SO2 => 2 case CO => 3 case O3 => 4 case NO2 => 5
  }

  /**
   * The bootstrap creates exactly the ObservedProperties whose names the
   * server does not hold yet, each once.
   */
  lemma BootstrapCreatesExactlyMissing(names: set<string>)
    ensures forall p :: Create(ObservedPropertyOf(p)) in BootstrapRequests(names) <==> ObservedPropertyName(p) !in names
    ensures forall r :: r in BootstrapRequests(names) ==> r.Create? && r.entity.ObservedProperty?
    ensures Distinct(BootstrapRequests(names))
  {
    BootstrapFromMembers(0, names);
    forall p ensures Create(ObservedPropertyOf(p)) in BootstrapRequests(names) <==> ObservedPropertyName(p) !in names {
      var k := Position(p);
      if Create(ObservedPropertyOf(p)) in BootstrapRequests(names) {
        var j :| 0 <= j < 6 && ObservedPropertyName(Pollutants[j]) !in names
                 && Create(ObservedPropertyOf(p)) == Create(ObservedPropertyOf(Pollutants[j]));
        assert ObservedPropertyName(p) == ObservedPropertyName(Pollutants[j]);
      }
    }
    BootstrapDistinct(0, names);
  }

  lemma {:induction false} BootstrapFromLater(k: nat, names: set<string>, p: Pollutant)
    requires Position(p) < k <= 6
    ensures Create(ObservedPropertyOf(p)) !in BootstrapFrom(k, names)
    decreases 6 - k
  {
    if k < 6 {
      LabelsAreDistinct(p, Pollutants[k]);
      BootstrapFromLater(k + 1, names, p);
    }
  }

  lemma {:induction false} BootstrapDistinct(k: nat, names: set<string>)
    requires k <= 6
    ensures Distinct(BootstrapFrom(k, names))
    decreases 6 - k
  {
    if k < 6 {
      BootstrapDistinct(k + 1, names);
      var p := Pollutants[k];
      var rest := BootstrapFrom(k + 1, names);
      if ObservedPropertyName(p) !in names {
        BootstrapFromLater(k + 1, names, p);
        DistinctCons(Create(ObservedPropertyOf(p)), rest);
      }
    }
  }

  /** No request occurs twice. */
  predicate Distinct(s: seq<Request>) {
    forall i, j :: 0 <= i < j < |s| ==> s[i] != s[j]
  }

  lemma DistinctCons(r: Request, rest: seq<Request>)
    requires r !in rest && Distinct(rest)
    ensures Distinct([r] + rest)
  {
    var b := [r] + rest;
    forall i, j | 0 <= i < j < |b| ensures b[i] != b[j] {
      assert b[j] == rest[j - 1];
      if i > 0 { assert b[i] == rest[i - 1]; }
    }
  }

  /** Names added by earlier blocks do not change what a later block sends. */
  lemma MissingUnaffected(p: Pollutant, names: set<string>, added: set<string>)
    requires ObservedPropertyName(p) !in added
    ensures MissingCreate(p, names + added) == MissingCreate(p, names)
  {
  }

  // ------------------------------------------------------ the filter finding

  /** A Thing one of whose Datastreams observes one of the six properties. */
  predicate IsAirQualityThing(t: StoredThing) {
    exists i, p :: 0 <= i < |t.datastreams| && t.datastreams[i].observedPropertyName == ObservedPropertyName(p)
  }

  predicate ObservesProperty(t: StoredThing, name: string) {
    exists i :: 0 <= i < |t.datastreams| && t.datastreams[i].observedPropertyName == name
  }

  /**
   * The filter string as the server parses it: `eq` binds tighter than `or`,
   * so only the first alternative follows the Datastreams path and the other
   * five compare the Thing's own name.
   */
  predicate MatchesAsWritten(t: StoredThing) {
    || ObservesProperty(t, ObservedPropertyName(PM10))
    || t.name == ObservedPropertyName(PM25) || t.name == ObservedPropertyName(SO2)
    || t.name == ObservedPropertyName(CO) || t.name == ObservedPropertyName(O3)
    || t.name == ObservedPropertyName(NO2)
  }

  /** A station Thing whose only Datastream observes PM2.5. */
  const Pm25OnlyStation: StoredThing :=
    StoredThing(7, "station", ThingDescription, map[],
                [StoredDatastream(38, DatastreamName(PM25), ObservedPropertyName(PM25), [])])

  /** A station whose only Datastream observes PM2.5 is missed by the written filter. */
  lemma AsWrittenFilterMissesPm25Station()
    ensures IsAirQualityThing(Pm25OnlyStation) && !MatchesAsWritten(Pm25OnlyStation)
  {
    var t := Pm25OnlyStation;
    assert t.datastreams[0].observedPropertyName == ObservedPropertyName(PM25);
    assert "station"[0] != ObservedPropertyName(PM25)[0];
    assert "station"[1] != ObservedPropertyName(CO)[1];
    assert ObservedPropertyName(PM10)[3] != ObservedPropertyName(PM25)[3];
  }

  /** ... and a Thing that merely bears a property's name, with no Datastream at all, is caught. */
  lemma AsWrittenFilterCatchesNamedThing()
    ensures var t := StoredThing(7, ObservedPropertyName(SO2), "", map[], []);
      MatchesAsWritten(t) && !IsAirQualityThing(t)
  {
  }

  /** The Things the query as written returns, in the server's order. */
  function SelectedAsWritten(things: seq<StoredThing>): (ms: seq<StoredThing>)
    ensures forall t :: t in ms <==> t in things && MatchesAsWritten(t)
    ensures |ms| <= |things|
  {
    if things == [] then []
    else (if MatchesAsWritten(things[0]) then [things[0]] else []) + SelectedAsWritten(things[1..])
  }

  /** The Things the evidently intended filter selects (every air-quality Thing), in the server's order. */
  function MatchingThings(things: seq<StoredThing>): (ms: seq<StoredThing>)
    ensures forall t :: t in ms <==> t in things && IsAirQualityThing(t)
    ensures |ms| <= |things|
  {
    if things == [] then []
    else (if IsAirQualityThing(things[0]) then [things[0]] else []) + MatchingThings(things[1..])
  }

  // ---------------------------------------------------- invalidation pass

  /** The server's page size for the Thing query, which the loop's `skip` step mirrors. */
  const PageSize: nat := 100

  /** The update that marks a Thing unavailable, keeping every other property. */
  function Invalidated(t: StoredThing): Entity {
    Thing(t.id, t.name, t.description, t.properties["available" := Flag(false)], [])
  }

  /** The invalidation names the same Thing, sets `available` to false and keeps every other property as it was. */
  lemma InvalidatedKeepsOtherProperties(t: StoredThing)
    ensures var e := Invalidated(t);
      && e.Thing? && e.id == t.id && e.name == t.name
      && "available" in e.properties && e.properties["available"] == Flag(false)
      && (forall k :: k in t.properties && k != "available" ==> k in e.properties && e.properties[k] == t.properties[k])
      && e.properties.Keys == t.properties.Keys + {"available"}
  {
  }

  function Invalidations(ts: seq<StoredThing>): (rs: seq<Request>)
    ensures |rs| == |ts|
    ensures forall i :: 0 <= i < |ts| ==> rs[i] == Update(Invalidated(ts[i]))
  {
    seq(|ts|, i requires 0 <= i < |ts| => Update(Invalidated(ts[i])))
  }

  lemma InvalidationsAppend(a: seq<StoredThing>, b: seq<StoredThing>)
    ensures Invalidations(a + b) == Invalidations(a) + Invalidations(b)
  {
    var l := Invalidations(a + b);
    var r := Invalidations(a) + Invalidations(b);
    forall i | 0 <= i < |l| ensures l[i] == r[i] {
      if i < |a| { assert (a + b)[i] == a[i]; } else { assert (a + b)[i] == b[i - |a|]; }
    }
  }

  /** The page a query with this `skip` returns. */
  function Page(ms: seq<StoredThing>, skip: nat): seq<StoredThing>
    requires skip <= |ms|
  {
    if skip + PageSize <= |ms| then ms[skip..skip + PageSize] else ms[skip..]
  }

  /** The page carries a next link exactly when more matching Things follow it. */
  predicate HasNextLink(ms: seq<StoredThing>, skip: nat) { skip + PageSize < |ms| }

  /** What the paging loop sends from this page on; a failed update ends only its own page. */
  function InvalidationFrom(ms: seq<StoredThing>, skip: nat, rejects: set<Request>): seq<Request>
    requires skip <= |ms|
    decreases |ms| - skip
  {
    UntilFailure(Invalidations(Page(ms, skip)), rejects)
    + if HasNextLink(ms, skip) then InvalidationFrom(ms, skip + PageSize, rejects) else []
  }

  /** What the pass sends with the filter as written. */
  function InvalidationRequests(things: seq<StoredThing>, rejects: set<Request>): seq<Request> {
    InvalidationFrom(SelectedAsWritten(things), 0, rejects)
  }

  /** What the pass would send with the intended filter. */
  function IntendedInvalidationRequests(things: seq<StoredThing>, rejects: set<Request>): seq<Request> {
    InvalidationFrom(MatchingThings(things), 0, rejects)
  }

  lemma {:induction false} InvalidationFromAll(ms: seq<StoredThing>, skip: nat, rejects: set<Request>)
    requires skip <= |ms|
    requires forall t :: t in ms ==> Update(Invalidated(t)) !in rejects
    ensures InvalidationFrom(ms, skip, rejects) == Invalidations(ms[skip..])
    decreases |ms| - skip
  {
    var page := Page(ms, skip);
    assert NoReject(Invalidations(page), rejects) by {
      forall i | 0 <= i < |page| ensures Invalidations(page)[i] !in rejects {
        assert page[i] in ms;
      }
    }
    UntilFailureAll(Invalidations(page), rejects);
    if HasNextLink(ms, skip) {
      InvalidationFromAll(ms, skip + PageSize, rejects);
      assert ms[skip..] == page + ms[skip + PageSize..];
      InvalidationsAppend(page, ms[skip + PageSize..]);
    } else {
      assert page == ms[skip..];
    }
  }

  /**
   * When the server accepts every update, the pass marks each Thing the
   * written filter selects unavailable exactly once, in the server's order,
   * whatever the number of pages.
   */
  lemma InvalidationCoversSelected(things: seq<StoredThing>, rejects: set<Request>)
    requires forall t :: t in things ==> Update(Invalidated(t)) !in rejects
    ensures InvalidationRequests(things, rejects) == Invalidations(SelectedAsWritten(things))
    ensures forall t :: t in things && MatchesAsWritten(t) ==> Update(Invalidated(t)) in InvalidationRequests(things, rejects)
  {
    var ms := SelectedAsWritten(things);
    InvalidationFromAll(ms, 0, rejects);
    assert ms[0..] == ms;
    forall t | t in things && MatchesAsWritten(t) ensures Update(Invalidated(t)) in Invalidations(ms) {
      var i :| 0 <= i < |ms| && ms[i] == t;
      assert Invalidations(ms)[i] == Update(Invalidated(t));
    }
  }

  /**
   * With the intended filter and no refusals, the pass would mark every
   * air-quality Thing unavailable exactly once, in the server's order.
   */
  lemma InvalidationCoversAll(things: seq<StoredThing>, rejects: set<Request>)
    requires forall t :: t in things ==> Update(Invalidated(t)) !in rejects
    ensures IntendedInvalidationRequests(things, rejects) == Invalidations(MatchingThings(things))
    ensures forall t :: t in things && IsAirQualityThing(t) ==> Update(Invalidated(t)) in IntendedInvalidationRequests(things, rejects)
  {
    var ms := MatchingThings(things);
    InvalidationFromAll(ms, 0, rejects);
    assert ms[0..] == ms;
    forall t | t in things && IsAirQualityThing(t) ensures Update(Invalidated(t)) in Invalidations(ms) {
      var i :| 0 <= i < |ms| && ms[i] == t;
      assert Invalidations(ms)[i] == Update(Invalidated(t));
    }
  }

  /**
   * The pass as written leaves a PM2.5-only station available, where the
   * intended filter would invalidate it.
   */
  lemma AsWrittenPassSkipsPm25Station()
    ensures InvalidationRequests([Pm25OnlyStation], {}) == []
    ensures IntendedInvalidationRequests([Pm25OnlyStation], {}) == [Update(Invalidated(Pm25OnlyStation))]
  {
    AsWrittenFilterMissesPm25Station();
    assert SelectedAsWritten([Pm25OnlyStation]) == [];
    assert MatchingThings([Pm25OnlyStation]) == [Pm25OnlyStation];
    InvalidationCoversAll([Pm25OnlyStation], {});
  }

  /** Everything the pass sends is an invalidation of an air-quality Thing. */
  lemma {:induction false} InvalidationFromOnlyInvalidates(ms: seq<StoredThing>, skip: nat, rejects: set<Request>)
    requires skip <= |ms|
    ensures forall r :: r in InvalidationFrom(ms, skip, rejects) ==> exists t :: t in ms && r == Update(Invalidated(t))
    decreases |ms| - skip
  {
    var page := Page(ms, skip);
    var sent := UntilFailure(Invalidations(page), rejects);
    UntilFailurePrefix(Invalidations(page), rejects);
    forall r | r in sent ensures exists t :: t in ms && r == Update(Invalidated(t)) {
      var i :| 0 <= i < |sent| && sent[i] == r;
      assert sent[i] == Invalidations(page)[i];
      assert page[i] in ms;
    }
    if HasNextLink(ms, skip) {
      InvalidationFromOnlyInvalidates(ms, skip + PageSize, rejects);
    }
  }

  /** The names the blocks before `k` make sure of. */
  function PriorNames(k: nat): set<string>
    requires k <= 6
  {
    if k == 0 then {} else PriorNames(k - 1) + {ObservedPropertyName(Pollutants[k - 1])}
  }

  lemma {:induction false} PriorNamesMembers(k: nat)
    requires k <= 6
    ensures forall x :: x in PriorNames(k) ==> exists j :: 0 <= j < k && x == ObservedPropertyName(Pollutants[j])
  {
    if k > 0 {
      PriorNamesMembers(k - 1);
    }
  }

  lemma BootstrapStep(k: nat, names: set<string>, rejects: set<Request>)
    requires k < 6
    ensures BootstrapFrom(k, names) == MissingCreate(Pollutants[k], names) + BootstrapFrom(k + 1, names)
    ensures UntilFailure(BootstrapFrom(k, names), rejects) ==
      MissingCreate(Pollutants[k], names)
      + if NoReject(MissingCreate(Pollutants[k], names), rejects) then UntilFailure(BootstrapFrom(k + 1, names), rejects) else []
    ensures NoReject(BootstrapFrom(k, names), rejects) <==>
      NoReject(MissingCreate(Pollutants[k], names), rejects) && NoReject(BootstrapFrom(k + 1, names), rejects)
  {
    var m := MissingCreate(Pollutants[k], names);
    UntilFailureAppend(m, BootstrapFrom(k + 1, names), rejects);
    NoRejectAppend(m, BootstrapFrom(k + 1, names), rejects);
    if m != [] && !NoReject(m, rejects) {
      assert m == [m[0]];
    }
  }

  /** After the six blocks every pollutant's name is known. */
  lemma PriorNamesAll()
    ensures forall p :: ObservedPropertyName(p) in PriorNames(6)
  {
    forall p ensures ObservedPropertyName(p) in PriorNames(6) {
      assert Pollutants[Position(p)] == p;
    }
  }

  /** Each block adds its own name, which no earlier block added. */
  lemma PriorNamesStep(k: nat)
    requires k < 6
    ensures PriorNames(k + 1) == PriorNames(k) + {ObservedPropertyName(Pollutants[k])}
    ensures ObservedPropertyName(Pollutants[k]) !in PriorNames(k)
  {
    PriorNamesMembers(k);
    forall j | 0 <= j < k ensures ObservedPropertyName(Pollutants[j]) != ObservedPropertyName(Pollutants[k]) {
      LabelsAreDistinct(Pollutants[j], Pollutants[k]);
    }
  }

  /** The creates of the blocks before `k`, in order. */
  function BootstrapTo(k: nat, names: set<string>): seq<Request>
    requires k <= 6
  {
    if k == 0 then [] else BootstrapTo(k - 1, names) + MissingCreate(Pollutants[k - 1], names)
  }

  lemma {:induction false} BootstrapSplit(k: nat, names: set<string>)
    requires k <= 6
    ensures BootstrapTo(k, names) + BootstrapFrom(k, names) == BootstrapRequests(names)
  {
    if k == 0 {
      assert [] + BootstrapFrom(0, names) == BootstrapFrom(0, names);
    } else {
      BootstrapSplit(k - 1, names);
      AppendAssoc(BootstrapTo(k - 1, names), MissingCreate(Pollutants[k - 1], names), BootstrapFrom(k, names));
    }
  }

  /** The blocks before `k` all got through: starting from `names0` and `sent0`, the server now holds `names` and `sent` has been sent. */
  ghost predicate BootstrapProgress(k: nat, names0: set<string>, sent0: seq<Request>,
                                    names: set<string>, sent: seq<Request>, rejects: set<Request>)
    requires k <= 6
  {
    && names == names0 + PriorNames(k)
    && sent == sent0 + BootstrapTo(k, names0)
    && NoReject(BootstrapTo(k, names0), rejects)
  }

  /** A create was refused: the bootstrap has sent what it sends and stopped. */
  ghost predicate BootstrapFailed(names0: set<string>, sent0: seq<Request>, sent: seq<Request>, rejects: set<Request>) {
    sent == sent0 + UntilFailure(BootstrapRequests(names0), rejects) && !NoReject(BootstrapRequests(names0), rejects)
  }

  /** What one block does to a bootstrap in progress, on values. */
  lemma BootstrapBlockStep(k: nat, names0: set<string>, sent0: seq<Request>,
                           names: set<string>, sent: seq<Request>, rejects: set<Request>)
    requires k < 6 && BootstrapProgress(k, names0, sent0, names, sent, rejects)
    ensures var name := ObservedPropertyName(Pollutants[k]);
      var m := MissingCreate(Pollutants[k], names0);
      && (name in names <==> name in names0)
      && (name in names ==> names + {name} == names)
      && (NoReject(m, rejects) ==> BootstrapProgress(k + 1, names0, sent0, names + {name}, sent + m, rejects))
      && (!NoReject(m, rejects) ==> BootstrapFailed(names0, sent0, sent + m, rejects))
  {
    PriorNamesStep(k);
    var m := MissingCreate(Pollutants[k], names0);
    var done := BootstrapTo(k, names0);
    assert BootstrapTo(k + 1, names0) == done + m;
    AppendAssoc(sent0, done, m);
    NoRejectAppend(done, m, rejects);
    if !NoReject(m, rejects) {
      BootstrapSplit(k, names0);
      BootstrapStep(k, names0, rejects);
      assert m + [] == m;
      UntilFailureAppend(done, BootstrapFrom(k, names0), rejects);
      NoRejectAppend(done, BootstrapFrom(k, names0), rejects);
    }
  }

  /** When all six blocks got through, the bootstrap sent every create it has. */
  lemma BootstrapComplete(names0: set<string>, rejects: set<Request>)
    requires NoReject(BootstrapTo(6, names0), rejects)
    ensures NoReject(BootstrapRequests(names0), rejects)
    ensures UntilFailure(BootstrapRequests(names0), rejects) == BootstrapTo(6, names0)
  {
    BootstrapSplit(6, names0);
    assert BootstrapTo(6, names0) + [] == BootstrapTo(6, names0);
    UntilFailureAll(BootstrapRequests(names0), rejects);
  }

  // ----------------------------------------------- station pass (init)

  function Requests(update: bool, es: seq<Entity>): (rs: seq<Request>)
    ensures |rs| == |es|
    ensures forall i :: 0 <= i < |es| ==> rs[i] == if update then Update(es[i]) else Create(es[i])
  {
    seq(|es|, i requires 0 <= i < |es| => if update then Update(es[i]) else Create(es[i]))
  }

  /**
   * A station's whole graph, as updates when a Thing of that name exists
   * (reusing its id, and the id of the Location named by the address) and
   * as creates with id 0 otherwise.
   */
  function StationRequests(store: Store, st: Station): seq<Request> {
    var thing := store.FindThing(st.stationName);
    var location := store.FindLocation(st.addr);
    var thingId := if thing.Some? then thing.value.id else 0;
    var locationId := if location.Some? then location.value.id else 0;
    Requests(thing.Some?, EntityGraph(st, thingId, locationId))
  }

  /** What the station loop sends for the first `n` stations; a failed request ends only its own station. */
  function StationPass(store: Store, stations: seq<Station>, n: nat): seq<Request>
    requires n <= |stations|
  {
    if n == 0 then []
    else StationPass(store, stations, n - 1) + UntilFailure(StationRequests(store, stations[n - 1]), store.rejects)
  }

  predicate UniqueThingIds(things: seq<StoredThing>) {
    forall i, j :: 0 <= i < j < |things| ==> things[i].id != things[j].id
  }

  predicate UpdatesThing(r: Request, id: int) { r.Update? && r.entity.Thing? && r.entity.id == id }

  lemma {:induction false} StationPassSparesUnlisted(store: Store, stations: seq<Station>, n: nat, t: StoredThing)
    requires n <= |stations|
    requires t in store.things && UniqueThingIds(store.things)
    requires forall i :: 0 <= i < |stations| ==> stations[i].stationName != t.name
    ensures forall r :: r in StationPass(store, stations, n) ==> !UpdatesThing(r, t.id)
  {
    if n > 0 {
      StationPassSparesUnlisted(store, stations, n - 1, t);
      StationSparesOtherThing(store, stations[n - 1], t);
    }
  }

  /** What one station sends updates no Thing of another name. */
  lemma StationSparesOtherThing(store: Store, st: Station, t: StoredThing)
    requires t in store.things && UniqueThingIds(store.things) && st.stationName != t.name
    ensures forall r :: r in UntilFailure(StationRequests(store, st), store.rejects) ==> !UpdatesThing(r, t.id)
  {
    var reqs := StationRequests(store, st);
    var sent := UntilFailure(reqs, store.rejects);
    UntilFailurePrefix(reqs, store.rejects);
    forall r | r in sent ensures !UpdatesThing(r, t.id) {
      var i :| 0 <= i < |sent| && sent[i] == r;
      assert r == reqs[i];
      StationRequestsUpdateOwnThing(store, st, i);
      if r.Update? && r.entity.Thing? {
        DistinctNamesDistinctIds(store.things, store.FindThing(st.stationName).value, t);
      }
    }
  }

  /** The only Thing a station's requests update is the one found under the station's name. */
  lemma StationRequestsUpdateOwnThing(store: Store, st: Station, i: int)
    requires 0 <= i < |StationRequests(store, st)|
    ensures var r := StationRequests(store, st)[i];
      r.Update? && r.entity.Thing? ==>
        store.FindThing(st.stationName).Some? && r.entity.id == store.FindThing(st.stationName).value.id
  {
    var thing := store.FindThing(st.stationName);
    var location := store.FindLocation(st.addr);
    var thingId := if thing.Some? then thing.value.id else 0;
    var locationId := if location.Some? then location.value.id else 0;
    EntityGraphOnlyThing(st, Geometry(st), thingId, locationId, i);
  }

  lemma DistinctNamesDistinctIds(things: seq<StoredThing>, a: StoredThing, b: StoredThing)
    requires a in things && b in things && a.name != b.name && UniqueThingIds(things)
    ensures a.id != b.id
  {
    var x :| 0 <= x < |things| && things[x] == a;
    var y :| 0 <= y < |things| && things[y] == b;
    if x < y { assert things[x].id != things[y].id; }
    if y < x { assert things[y].id != things[x].id; }
  }

  /**
   * Staleness detection: when the server accepts every invalidation, a
   * Thing the written filter selects whose name no station in the new list carries is
   * marked unavailable, and no later request of the station pass updates it
   * again, so it stays unavailable.
   */
  lemma StaleThingStaysUnavailable(store: Store, stations: seq<Station>, t: StoredThing)
    requires t in store.things && MatchesAsWritten(t) && UniqueThingIds(store.things)
    requires forall u :: u in store.things ==> Update(Invalidated(u)) !in store.rejects
    requires forall i :: 0 <= i < |stations| ==> stations[i].stationName != t.name
    ensures Update(Invalidated(t)) in InvalidationRequests(store.things, store.rejects)
    ensures forall r :: r in StationPass(store, stations, |stations|) ==> !UpdatesThing(r, t.id)
  {
    InvalidationCoversSelected(store.things, store.rejects);
    StationPassSparesUnlisted(store, stations, |stations|, t);
  }

  // ------------------------------------------- observation pass (hourly)

  /** One station's measurement record: its time text as parsed (None when it does not parse) and each pollutant's value and grade. */
  datatype Reading = Reading(dataTime: Option<DateTime>, value: Pollutant -> string, grade: Pollutant -> string)

  /** The record the air-quality API returns for a station name; None stands for the null of a missing record. */
  function RecordOf(readings: map<string, Reading>, name: string): Option<Reading> {
    if name in readings then Some(readings[name]) else None
  }

  /** The result time: the measurement's hour in Asia/Seoul, minutes and below cleared. */
  function HourOf(t: DateTime): (h: DateTime)
    ensures h.minute == 0 && h.second == 0 && h.nano == 0
    ensures h.year == t.year && h.month == t.month && h.day == t.day && h.hour == t.hour
  {
    DateTime(t.year, t.month, t.day, t.hour, 0, 0, 0)
  }

  /** The pollutant whose Datastream name this is, tried in the fixed order. */
  function DatastreamPollutant(name: string): (r: Option<Pollutant>)
    ensures r.Some? ==> DatastreamName(r.value) == name
    ensures r.None? ==> forall p :: DatastreamName(p) != name
  {
    if name == DatastreamName(PM10) then Some(PM10)
    else if name == DatastreamName(PM25) then Some(PM25)
    else if name == DatastreamName(SO2) then Some(SO2)
    else if name == DatastreamName(CO) then Some(CO)
    else if name == DatastreamName(O3) then Some(O3)
    else if name == DatastreamName(NO2) then Some(NO2)
    else None
  }

  /**
   * The `{value, grade}` map after the loop has visited `dss`: one map is
   * reused for the whole station, so it holds the last matched pollutant's
   * pair, or nothing before the first match.
   */
  function ResultAfter(dss: seq<StoredDatastream>, reading: Reading): ObservationResult {
    if dss == [] then NoResult
    else match DatastreamPollutant(dss[|dss| - 1].name)
      case Some(p) => Measured(reading.value(p), reading.grade(p))
      case None => ResultAfter(dss[..|dss| - 1], reading)
  }

  /** The Observation for one Datastream: an update of its newest Observation when that one has the same result time. */
  function ObservationRequest(thingId: int, ds: StoredDatastream, result: ObservationResult,
                              hour: DateTime, now: DateTime): Request {
    if |ds.observations| > 0 && ds.observations[0].resultTime == hour
    then Update(Observation(Some(ds.observations[0].id), now, hour, result, ds.id, thingId))
    else Create(Observation(None, now, hour, result, ds.id, thingId))
  }

  function ObservationRequests(t: StoredThing, reading: Reading, hour: DateTime, now: DateTime): (rs: seq<Request>)
    ensures |rs| == |t.datastreams|
  {
    seq(|t.datastreams|, k requires 0 <= k < |t.datastreams| =>
      ObservationRequest(t.id, t.datastreams[k], ResultAfter(t.datastreams[..k + 1], reading), hour, now))
  }

  /** What one station sends: nothing when its record is missing or its time does not parse, or no Thing has its name. */
  function StationObservations(store: Store, name: string, reading: Option<Reading>, now: DateTime): seq<Request> {
    if reading.None? || reading.value.dataTime.None? then []
    else match store.FindThing(name)
      case None => []
      case Some(t) => UntilFailure(ObservationRequests(t, reading.value, HourOf(reading.value.dataTime.value), now), store.rejects)
  }

  /** What the station loop sends for the first `n` names; a skipped station sends nothing. */
  function ObservationPass(store: Store, names: seq<string>, n: nat, readings: map<string, Reading>, now: DateTime): seq<Request>
    requires n <= |names|
  {
    if n == 0 then []
    else ObservationPass(store, names, n - 1, readings, now) + StationObservations(store, names[n - 1], RecordOf(readings, names[n - 1]), now)
  }

  /** The map after one more Datastream: that Datastream's pair when its name matches, the previous map otherwise. */
  lemma ResultAfterStep(dss: seq<StoredDatastream>, reading: Reading, k: int)
    requires 0 <= k < |dss|
    ensures ResultAfter(dss[..k + 1], reading) ==
      match DatastreamPollutant(dss[k].name)
      case Some(p) => Measured(reading.value(p), reading.grade(p))
      case None => ResultAfter(dss[..k], reading)
  {
    assert dss[..k + 1][k] == dss[k];
    assert dss[..k + 1][..k] == dss[..k];
  }

  lemma ObservationRequestAt(t: StoredThing, reading: Reading, hour: DateTime, now: DateTime, k: int)
    requires 0 <= k < |t.datastreams|
    ensures ObservationRequests(t, reading, hour, now)[k] ==
      ObservationRequest(t.id, t.datastreams[k], ResultAfter(t.datastreams[..k + 1], reading), hour, now)
  {
  }

  /**
   * Request `k` is about Datastream `k` of the Thing, observed at the
   * measurement hour and recorded now; it updates the newest Observation,
   * keeping its id, exactly when that one has the same result time, and
   * otherwise creates one with no id.
   */
  lemma ObservationRequestShape(t: StoredThing, reading: Reading, hour: DateTime, now: DateTime, k: nat)
    requires k < |t.datastreams|
    ensures var r := ObservationRequests(t, reading, hour, now)[k];
      var ds := t.datastreams[k];
      && r.entity.Observation?
      && r.entity.datastreamId == ds.id && r.entity.featureOfInterestId == t.id
      && r.entity.resultTime == hour && r.entity.phenomenonTime == now
      && (r.Update? <==> |ds.observations| > 0 && ds.observations[0].resultTime == hour)
      && (r.Update? ==> r.entity.observationId == Some(ds.observations[0].id))
      && (r.Create? ==> r.entity.observationId == None)
  {
  }

  /** A Datastream named after a pollutant gets that pollutant's value and grade. */
  lemma MatchedDatastreamGetsItsPollutant(dss: seq<StoredDatastream>, reading: Reading, k: nat, p: Pollutant)
    requires k < |dss| && dss[k].name == DatastreamName(p)
    ensures ResultAfter(dss[..k + 1], reading) == Measured(reading.value(p), reading.grade(p))
  {
    var q := DatastreamPollutant(dss[k].name);
    if q != Some(p) {
      LabelsAreDistinct(p, q.value);
    }
    assert dss[..k + 1][k] == dss[k];
  }

  /**
   * A Datastream with any other name repeats the result of the Datastream
   * before it, because the map is never cleared; the first Datastreams get an
   * empty result until one matches.
   */
  lemma UnmatchedDatastreamRepeatsPrevious(dss: seq<StoredDatastream>, reading: Reading, k: nat)
    requires k < |dss| && forall p :: DatastreamName(p) != dss[k].name
    ensures ResultAfter(dss[..k + 1], reading) == ResultAfter(dss[..k], reading)
    ensures k == 0 ==> ResultAfter(dss[..k + 1], reading) == NoResult
  {
    assert dss[..k + 1][k] == dss[k];
    assert dss[..k + 1][..k] == dss[..k];
  }

  /** The Datastream as the server holds it once request `r` for it has been applied. */
  function Recorded(ds: StoredDatastream, r: Request, newId: int): StoredDatastream {
    if r.Create? && r.entity.Observation?
    then ds.(observations := [StoredObservation(newId, r.entity.resultTime)] + ds.observations)
    else ds
  }

  /**
   * At most one Observation per Datastream and hour: once a pass's requests
   * are applied, a second pass for the same hour only updates.
   */
  lemma SameHourRerunOnlyUpdates(t: StoredThing, reading: Reading, reading': Reading, hour: DateTime,
                                 now: DateTime, now': DateTime, newIds: seq<int>)
    requires |newIds| == |t.datastreams|
    ensures var first := ObservationRequests(t, reading, hour, now);
      var t' := t.(datastreams := seq(|t.datastreams|, k requires 0 <= k < |t.datastreams| =>
                                        Recorded(t.datastreams[k], first[k], newIds[k])));
      forall r :: r in ObservationRequests(t', reading', hour, now') ==> r.Update?
  {
    var first := ObservationRequests(t, reading, hour, now);
    var t' := t.(datastreams := seq(|t.datastreams|, k requires 0 <= k < |t.datastreams| =>
                                      Recorded(t.datastreams[k], first[k], newIds[k])));
    var second := ObservationRequests(t', reading', hour, now');
    forall r | r in second ensures r.Update? {
      var k :| 0 <= k < |second| && second[k] == r;
      ObservationRequestShape(t, reading, hour, now, k);
      ObservationRequestShape(t', reading', hour, now', k);
    }
  }

  /** With no refused request every Datastream of the Thing gets exactly one request. */
  lemma StationObservationsComplete(store: Store, name: string, reading: Reading, now: DateTime)
    requires reading.dataTime.Some? && store.FindThing(name).Some?
    requires NoReject(ObservationRequests(store.FindThing(name).value, reading, HourOf(reading.dataTime.value), now), store.rejects)
    ensures |StationObservations(store, name, Some(reading), now)| == |store.FindThing(name).value.datastreams|
  {
    UntilFailureAll(ObservationRequests(store.FindThing(name).value, reading, HourOf(reading.dataTime.value), now), store.rejects);
  }

  // -------------------------------------------------------------- service

  class AirQualityService {
    const store: Store
    /** Set once the six ObservedProperties are known to exist. */
    var observedPropertyExist: bool

    /** Once the flag is set, the server holds all six ObservedProperties. */
    ghost predicate Valid()
      reads this, store
    {
      observedPropertyExist ==> forall p :: ObservedPropertyName(p) in store.observedPropertyNames
    }

    constructor (store: Store)
      ensures this.store == store && !observedPropertyExist && Valid()
    {
      this.store := store;
      observedPropertyExist := false;
    }

    /** One block of the bootstrap: look the name up and create the ObservedProperty when it is missing. */
    method BootstrapBlock(k: nat, ghost names0: set<string>, ghost sent0: seq<Request>) returns (ok: bool)
      requires k < 6 && BootstrapProgress(k, names0, sent0, store.observedPropertyNames, store.sent, store.rejects)
      modifies store`sent, store`observedPropertyNames
      ensures ok ==> BootstrapProgress(k + 1, names0, sent0, store.observedPropertyNames, store.sent, store.rejects)
      ensures !ok ==> BootstrapFailed(names0, sent0, store.sent, store.rejects)
    {
      var p := Pollutants[k];
      ghost var m := MissingCreate(p, names0);
      BootstrapBlockStep(k, names0, sent0, store.observedPropertyNames, store.sent, store.rejects);
      ok := true;
      if ObservedPropertyName(p) !in store.observedPropertyNames {
        ok := store.CreateObservedProperty(ObservedPropertyOf(p));
        assert m == [Create(ObservedPropertyOf(p))];
        NoRejectSingle(Create(ObservedPropertyOf(p)), store.rejects);
      } else {
        assert m == [] && NoReject(m, store.rejects);
        assert store.sent == old(store.sent) + m;
      }
    }

    /**
     * `initObservedProperty`: once the flag is set nothing is sent;
     * otherwise the six blocks run in order until a create is refused, and
     * the flag is set only when all of them got through.
     */
    method InitObservedProperty() returns (r: Result<(), Fault>)
      requires Valid()
      modifies this`observedPropertyExist, store`sent, store`observedPropertyNames
      ensures Valid()
      ensures old(observedPropertyExist) ==>
        r.Ok? && store.sent == old(store.sent) && store.observedPropertyNames == old(store.observedPropertyNames)
      ensures !old(observedPropertyExist) ==>
        store.sent == old(store.sent) + UntilFailure(BootstrapRequests(old(store.observedPropertyNames)), store.rejects)
      ensures !old(observedPropertyExist) ==>
        (r.Ok? <==> NoReject(BootstrapRequests(old(store.observedPropertyNames)), store.rejects))
      ensures observedPropertyExist <==> r.Ok?
      ensures r.Ok? ==> forall p :: ObservedPropertyName(p) in store.observedPropertyNames
      ensures r.Err? ==> r.error == ServiceFailure
    {
      if observedPropertyExist {
        return Ok(());
      }
      ghost var names0 := store.observedPropertyNames;
      ghost var sent0 := store.sent;
      assert sent0 + [] == sent0;
      var ok := BootstrapBlock(0, names0, sent0);
      if !ok { return Err(ServiceFailure); }
      ok := BootstrapBlock(1, names0, sent0);
      if !ok { return Err(ServiceFailure); }
      ok := BootstrapBlock(2, names0, sent0);
      if !ok { return Err(ServiceFailure); }
      ok := BootstrapBlock(3, names0, sent0);
      if !ok { return Err(ServiceFailure); }
      ok := BootstrapBlock(4, names0, sent0);
      if !ok { return Err(ServiceFailure); }
      ok := BootstrapBlock(5, names0, sent0);
      if !ok { return Err(ServiceFailure); }
      BootstrapComplete(names0, store.rejects);
      PriorNamesAll();
      observedPropertyExist := true;
      return Ok(());
    }

    /**
     * `updateAirQualityThingsStatus`: page through the Things the written filter selects,
     * `skip` growing by the page size, and update each with
     * `available = false` until the server reports no next link.
     */
    method UpdateAirQualityThingsStatus()
      modifies store`sent
      ensures store.sent == old(store.sent) + InvalidationRequests(store.things, store.rejects)
    {
      var matching := SelectedAsWritten(store.things);
      var nextLinkCheck := true;
      var skipCount: nat := 0;
      while nextLinkCheck
        invariant nextLinkCheck ==> skipCount <= |matching|
        invariant old(store.sent) + InvalidationFrom(matching, 0, store.rejects)
                  == store.sent + if nextLinkCheck then InvalidationFrom(matching, skipCount, store.rejects) else []
        decreases if nextLinkCheck then 1 else 0, |matching| - skipCount
      {
        var things := Page(matching, skipCount);
        ghost var before := store.sent;
        ghost var pageSent := UntilFailure(Invalidations(things), store.rejects);
        ghost var rest := if HasNextLink(matching, skipCount)
                          then InvalidationFrom(matching, skipCount + PageSize, store.rejects) else [];
        assert InvalidationFrom(matching, skipCount, store.rejects) == pageSent + rest;
        var pageDone := store.SendUntilFailure(Invalidations(things));
        AppendAssoc(before, pageSent, rest);
        nextLinkCheck := HasNextLink(matching, skipCount);
        skipCount := skipCount + PageSize;
      }
    }

    /**
     * `initSensorData`: invalidate, bootstrap, then send each station's
     * graph. A failed bootstrap or a missing station list leaves the list
     * null, and the first access to it throws before any station is handled.
     */
    method InitSensorData(stationList: Option<seq<Station>>) returns (r: Result<(), Fault>)
      requires Valid()
      modifies this`observedPropertyExist, store`sent, store`observedPropertyNames
      ensures Valid()
      ensures var bootstrap := if old(observedPropertyExist) then []
                               else UntilFailure(BootstrapRequests(old(store.observedPropertyNames)), store.rejects);
              var proceed := (old(observedPropertyExist) || NoReject(BootstrapRequests(old(store.observedPropertyNames)), store.rejects))
                             && stationList.Some?;
              && (r.Ok? <==> proceed)
              && store.sent == old(store.sent) + InvalidationRequests(store.things, store.rejects) + bootstrap
                               + if proceed then StationPass(store, stationList.value, |stationList.value|) else []
      ensures r.Err? ==> r.error == NullPointer
    {
      ghost var flag0 := observedPropertyExist;
      ghost var names0 := store.observedPropertyNames;
      ghost var bootstrap := if flag0 then [] else UntilFailure(BootstrapRequests(names0), store.rejects);
      ghost var proceed := (flag0 || NoReject(BootstrapRequests(names0), store.rejects)) && stationList.Some?;
      UpdateAirQualityThingsStatus();
      ghost var sent0 := store.sent;
      assert sent0 + [] == sent0;
      var bootstrapped := InitObservedProperty();
      ghost var sent1 := store.sent;
      assert sent1 == sent0 + bootstrap;
      assert sent1 + [] == sent1;
      if bootstrapped.Err? || stationList.None? {
        assert !proceed;
        return Err(NullPointer);
      }
      assert proceed;
      InitStations(stationList.value);
      return Ok(());
    }

    /** The station loop of `initSensorData`. */
    method InitStations(stations: seq<Station>)
      modifies store`sent
      ensures store.sent == old(store.sent) + StationPass(store, stations, |stations|)
    {
      assert old(store.sent) + [] == old(store.sent);
      var i := 0;
      while i < |stations|
        invariant 0 <= i <= |stations|
        invariant store.sent == old(store.sent) + StationPass(store, stations, i)
      {
        var st := stations[i];
        AppendAssoc(old(store.sent), StationPass(store, stations, i), UntilFailure(StationRequests(store, st), store.rejects));
        InitStation(st);
        i := i + 1;
      }
    }

    /** One station of `initSensorData`: look its Thing and Location up, build its graph and send it. */
    method InitStation(st: Station)
      modifies store`sent
      ensures store.sent == old(store.sent) + UntilFailure(StationRequests(store, st), store.rejects)
    {
      var thing := store.FindThing(st.stationName);
      var location := store.FindLocation(st.addr);
      var thingExist := thing.Some?;
      var thingId := if thing.Some? then thing.value.id else 0;
      var locationId := if location.Some? then location.value.id else 0;
      var entityList := BuildEntityList(st, thingId, locationId);
      assert Requests(thingExist, entityList) == StationRequests(store, st);
      var stationDone := store.SendUntilFailure(Requests(thingExist, entityList));
    }

    /** The loop over one Thing's Datastreams, the result map carried from one to the next. */
    method SendObservations(thing: StoredThing, reading: Reading, hour: DateTime, now: DateTime)
      modifies store`sent
      ensures store.sent == old(store.sent) + UntilFailure(ObservationRequests(thing, reading, hour, now), store.rejects)
    {
      ghost var reqs := ObservationRequests(thing, reading, hour, now);
      var datastreams := thing.datastreams;
      var json := NoResult;
      var k := 0;
      while k < |datastreams|
        invariant 0 <= k <= |datastreams|
        invariant json == ResultAfter(datastreams[..k], reading)
        invariant store.sent == old(store.sent) + reqs[..k]
        invariant NoReject(reqs[..k], store.rejects)
      {
        var datastream := datastreams[k];
        ResultAfterStep(datastreams, reading, k);
        var pollutant := DatastreamPollutant(datastream.name);
        if pollutant.Some? {
          json := Measured(reading.value(pollutant.value), reading.grade(pollutant.value));
        }
        ObservationRequestAt(thing, reading, hour, now, k);
        var observation := Observation(None, now, hour, json, datastream.id, thing.id);
        var ok;
        if |datastream.observations| > 0 && datastream.observations[0].resultTime == hour {
          ok := store.Send(Update(observation.(observationId := Some(datastream.observations[0].id))));
        } else {
          ok := store.Send(Create(observation));
        }
        UntilFailureStep(old(store.sent), reqs, k, store.rejects);
        if !ok {
          return;
        }
        k := k + 1;
      }
      assert reqs[..k] == reqs;
      UntilFailureAll(reqs, store.rejects);
    }

    /**
     * `insertSensorData`: for each station, fetch its record, find its
     * Thing and send one Observation per Datastream. A station whose record
     * is missing or unparsable, or that has no Thing, is skipped; a missing
     * station list throws before any station is handled.
     */
    method InsertSensorData(stationNames: Option<seq<string>>, readings: map<string, Reading>, now: DateTime)
      returns (r: Result<(), Fault>)
      modifies store`sent
      ensures r.Ok? <==> stationNames.Some?
      ensures r.Err? ==> r.error == NullPointer && store.sent == old(store.sent)
      ensures r.Ok? ==> store.sent == old(store.sent) + ObservationPass(store, stationNames.value, |stationNames.value|, readings, now)
    {
      if stationNames.None? {
        return Err(NullPointer);
      }
      var names := stationNames.value;
      assert old(store.sent) + [] == old(store.sent);
      var i := 0;
      while i < |names|
        invariant 0 <= i <= |names|
        invariant store.sent == old(store.sent) + ObservationPass(store, names, i, readings, now)
      {
        AppendAssoc(old(store.sent), ObservationPass(store, names, i, readings, now),
                    StationObservations(store, names[i], RecordOf(readings, names[i]), now));
        InsertStation(names[i], readings, now);
        i := i + 1;
      }
      return Ok(());
    }

    /** One station of `insertSensorData`: fetch its record, find its Thing, send its Observations. */
    method InsertStation(stationName: string, readings: map<string, Reading>, now: DateTime)
      modifies store`sent
      ensures store.sent == old(store.sent) + StationObservations(store, stationName, RecordOf(readings, stationName), now)
    {
      var result := RecordOf(readings, stationName);
      if result.Some? && result.value.dataTime.Some? {
        var zonedDateTime := HourOf(result.value.dataTime.value);
        var things := store.FindThing(stationName);
        if things.Some? {
          SendObservations(things.value, result.value, zonedDateTime, now);
        } else {
          assert store.sent + [] == store.sent;
        }
      } else {
        assert store.sent + [] == store.sent;
      }
    }
  }
}
