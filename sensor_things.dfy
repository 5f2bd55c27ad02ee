/**
 * The SensorThings entities the air-quality service builds, the create and
 * update requests it sends, and an abstract store: a fixed snapshot of what
 * the server holds (for the name lookups and queries) plus a log of the
 * requests sent to it, some of which the server may refuse.
 */
module SensorThings {
  import opened Wrappers

  datatype PropValue = Text(s: string) | Flag(b: bool)

  /** A Thing's property bag. */
  type Properties = map<string, PropValue>

  /** A GeoJSON point; the coordinate texts are kept as read (number parsing is not modelled). */
  datatype Point = Point(longitude: string, latitude: string)

  datatype Unit = Unit(name: string, symbol: string, definition: string)

  /** A civil date-time in the Asia/Seoul zone. */
  datatype DateTime = DateTime(year: int, month: int, day: int, hour: int, minute: int, second: int, nano: int)

  /** The `{value, grade}` map an Observation carries; empty until a datastream name matches. */
  datatype ObservationResult = NoResult | Measured(value: string, grade: string)

  datatype Entity =
    | Location(id: int, name: string, description: string, geometry: Option<Point>)
    | Thing(id: int, name: string, description: string, properties: Properties, locations: seq<Entity>)
    | Sensor(id: int, name: string, description: string, metadata: string)
    | Datastream(id: int, name: string, description: string, unit: Unit,
                 sensorId: int, observedPropertyId: int, thingId: int)
    | ObservedProperty(name: string, description: string, definition: string)
    | FeatureOfInterest(id: int, name: string, description: string, geometry: Option<Point>)
    | Observation(observationId: Option<int>, phenomenonTime: DateTime, resultTime: DateTime,
                  result: ObservationResult, datastreamId: int, featureOfInterestId: int)

  datatype Request = Create(entity: Entity) | Update(entity: Entity)

  // What the server returns to queries.
  datatype StoredObservation = StoredObservation(id: int, resultTime: DateTime)
  /** A Datastream with its Observations, newest (highest id) first. */
  datatype StoredDatastream = StoredDatastream(id: int, name: string, observedPropertyName: string,
                                               observations: seq<StoredObservation>)
  /** A Thing with its Datastreams, in ascending id order. */
  datatype StoredThing = StoredThing(id: int, name: string, description: string, properties: Properties,
                                     datastreams: seq<StoredDatastream>)
  datatype StoredLocation = StoredLocation(id: int, name: string)

  // ------------------------------------------------- sending until a failure

  predicate NoReject(reqs: seq<Request>, rejects: set<Request>) {
    forall i :: 0 <= i < |reqs| ==> reqs[i] !in rejects
  }

  /**
   * The requests a loop inside one try block actually sends: all of them up
   * to and including the first one the server refuses, whose exception ends
   * the loop.
   */
  function UntilFailure(reqs: seq<Request>, rejects: set<Request>): seq<Request> {
    if reqs == [] then []
    else if reqs[0] in rejects then [reqs[0]]
    else [reqs[0]] + UntilFailure(reqs[1..], rejects)
  }

  /**
   * What goes out is a prefix of the requests: all of them when none is
   * refused, and otherwise a prefix whose last request is the first refused
   * one.
   */
  lemma {:induction false} UntilFailurePrefix(reqs: seq<Request>, rejects: set<Request>)
    ensures var sent := UntilFailure(reqs, rejects);
      && |sent| <= |reqs| && sent == reqs[..|sent|]
      && (NoReject(reqs, rejects) ==> sent == reqs)
      && (sent != reqs ==> |sent| > 0 && sent[|sent| - 1] in rejects && NoReject(sent[..|sent| - 1], rejects))
  {
    if reqs != [] && reqs[0] !in rejects {
      var rest := UntilFailure(reqs[1..], rejects);
      UntilFailurePrefix(reqs[1..], rejects);
      var sent := [reqs[0]] + rest;
      assert sent == reqs[..|sent|];
      if NoReject(reqs, rejects) {
        assert NoReject(reqs[1..], rejects) by {
          forall i | 0 <= i < |reqs[1..]| ensures reqs[1..][i] !in rejects { assert reqs[1..][i] == reqs[i + 1]; }
        }
      }
      if sent != reqs {
        var pre := sent[..|sent| - 1];
        forall i | 0 <= i < |pre| ensures pre[i] !in rejects {
          if i > 0 { assert pre[i] == rest[..|rest| - 1][i - 1]; }
        }
      }
    }
  }

  lemma AppendAssoc(a: seq<Request>, b: seq<Request>, c: seq<Request>)
    ensures a + (b + c) == (a + b) + c
  {
  }

  lemma NoRejectSingle(r: Request, rejects: set<Request>)
    ensures NoReject([r], rejects) <==> r !in rejects
  {
    assert [r][0] == r;
  }

  lemma NoRejectAppend(a: seq<Request>, b: seq<Request>, rejects: set<Request>)
    ensures NoReject(a + b, rejects) <==> NoReject(a, rejects) && NoReject(b, rejects)
  {
    if NoReject(a, rejects) && NoReject(b, rejects) {
      forall i | 0 <= i < |a + b| ensures (a + b)[i] !in rejects {
        if i >= |a| { assert (a + b)[i] == b[i - |a|]; }
      }
    }
    if NoReject(a + b, rejects) {
      forall i | 0 <= i < |b| ensures b[i] !in rejects { assert (a + b)[|a| + i] == b[i]; }
      forall i | 0 <= i < |a| ensures a[i] !in rejects { assert (a + b)[i] == a[i]; }
    }
  }

  lemma {:induction false} UntilFailureAll(reqs: seq<Request>, rejects: set<Request>)
    requires NoReject(reqs, rejects)
    ensures UntilFailure(reqs, rejects) == reqs
  {
    if reqs != [] {
      assert reqs[0] !in rejects;
      assert NoReject(reqs[1..], rejects) by {
        forall i | 0 <= i < |reqs[1..]| ensures reqs[1..][i] !in rejects { assert reqs[1..][i] == reqs[i + 1]; }
      }
      UntilFailureAll(reqs[1..], rejects);
    }
  }

  /** When request `i` is the first refused one, exactly `reqs[..i+1]` go out. */
  lemma {:induction false} UntilFailureAt(reqs: seq<Request>, rejects: set<Request>, i: int)
    requires 0 <= i < |reqs| && reqs[i] in rejects && NoReject(reqs[..i], rejects)
    ensures UntilFailure(reqs, rejects) == reqs[..i + 1]
    decreases i
  {
    if i > 0 {
      assert reqs[0] == reqs[..i][0];
      UntilFailureAt(reqs[1..], rejects, i - 1);
      assert reqs[1..][..i - 1] == reqs[..i][1..];
      assert [reqs[0]] + reqs[1..][..i] == reqs[..i + 1];
    }
  }

  /** One more request of a loop that has sent `reqs[..k]`: the log grows by it, and a refused one ends the loop there. */
  lemma UntilFailureStep(sent0: seq<Request>, reqs: seq<Request>, k: int, rejects: set<Request>)
    requires 0 <= k < |reqs| && NoReject(reqs[..k], rejects)
    ensures sent0 + reqs[..k] + [reqs[k]] == sent0 + reqs[..k + 1]
    ensures NoReject(reqs[..k + 1], rejects) <==> reqs[k] !in rejects
    ensures reqs[k] in rejects ==> UntilFailure(reqs, rejects) == reqs[..k + 1]
  {
    assert reqs[..k + 1] == reqs[..k] + [reqs[k]];
    AppendAssoc(sent0, reqs[..k], [reqs[k]]);
    NoRejectAppend(reqs[..k], [reqs[k]], rejects);
    NoRejectSingle(reqs[k], rejects);
    if reqs[k] in rejects {
      UntilFailureAt(reqs, rejects, k);
    }
  }

  lemma {:induction false} UntilFailureAppend(a: seq<Request>, b: seq<Request>, rejects: set<Request>)
    ensures UntilFailure(a + b, rejects) ==
      if NoReject(a, rejects) then a + UntilFailure(b, rejects) else UntilFailure(a, rejects)
  {
    if a != [] {
      assert (a + b)[0] == a[0];
      assert (a + b)[1..] == a[1..] + b;
      if a[0] !in rejects {
        UntilFailureAppend(a[1..], b, rejects);
        assert NoReject(a, rejects) <==> NoReject(a[1..], rejects) by {
          if NoReject(a[1..], rejects) {
            forall i | 0 <= i < |a| ensures a[i] !in rejects {
              if i > 0 { assert a[i] == a[1..][i - 1]; }
            }
          }
        }
      }
    } else {
      assert a + b == b;
    }
  }

  // ------------------------------------------------------------- the store

  class Store {
    /** The Things the server holds, in the order its queries return them. */
    const things: seq<StoredThing>
    const locations: seq<StoredLocation>
    /** Names of the ObservedProperties the server holds; a successful create adds one. */
    var observedPropertyNames: set<string>
    /** Requests the server answers with a ServiceFailureException. */
    const rejects: set<Request>
    /** Every create and update sent so far, in order. */
    var sent: seq<Request>

    constructor (things: seq<StoredThing>, locations: seq<StoredLocation>,
                 observedPropertyNames: set<string>, rejects: set<Request>)
      ensures this.things == things && this.locations == locations
      ensures this.observedPropertyNames == observedPropertyNames && this.rejects == rejects
      ensures sent == []
    {
      this.things := things;
      this.locations := locations;
      this.observedPropertyNames := observedPropertyNames;
      this.rejects := rejects;
      sent := [];
    }

    /** The first Thing with this name, as `hasThing` and the `name eq` query find it. */
    function FindThing(name: string): (r: Option<StoredThing>)
      ensures r.Some? <==> exists i :: 0 <= i < |things| && things[i].name == name
      ensures r.Some? ==> r.value.name == name && r.value in things
      ensures r.Some? ==> exists i :: 0 <= i < |things| && things[i] == r.value &&
                                      forall j :: 0 <= j < i ==> things[j].name != name
    {
      FirstNamed(things, (t: StoredThing) => t.name, name)
    }

    /** The first Location with this name, as `hasLocation` finds it. */
    function FindLocation(name: string): (r: Option<StoredLocation>)
      ensures r.Some? <==> exists i :: 0 <= i < |locations| && locations[i].name == name
      ensures r.Some? ==> r.value.name == name && r.value in locations
      ensures r.Some? ==> exists i :: 0 <= i < |locations| && locations[i] == r.value &&
                                      forall j :: 0 <= j < i ==> locations[j].name != name
    {
      FirstNamed(locations, (l: StoredLocation) => l.name, name)
    }

    /** One `service.create` or `service.update`; `ok` is false when it throws. */
    method Send(r: Request) returns (ok: bool)
      modifies this`sent
      ensures sent == old(sent) + [r]
      ensures ok <==> r !in rejects
    {
      sent := sent + [r];
      ok := r !in rejects;
    }

    /** Creating an ObservedProperty; once it succeeds the name lookup finds it. */
    method CreateObservedProperty(e: Entity) returns (ok: bool)
      requires e.ObservedProperty?
      modifies this`sent, this`observedPropertyNames
      ensures sent == old(sent) + [Create(e)]
      ensures ok <==> Create(e) !in rejects
      ensures observedPropertyNames == if ok then old(observedPropertyNames) + {e.name} else old(observedPropertyNames)
    {
      ok := Send(Create(e));
      if ok {
        observedPropertyNames := observedPropertyNames + {e.name};
      }
    }

    /** A loop of sends inside one try block: it stops at the first request that throws. */
    method SendUntilFailure(reqs: seq<Request>) returns (ok: bool)
      modifies this`sent
      ensures sent == old(sent) + UntilFailure(reqs, rejects)
      ensures ok <==> NoReject(reqs, rejects)
    {
      var i := 0;
      while i < |reqs|
        invariant 0 <= i <= |reqs|
        invariant sent == old(sent) + reqs[..i]
        invariant NoReject(reqs[..i], rejects)
      {
        ok := Send(reqs[i]);
        if !ok {
          UntilFailureAt(reqs, rejects, i);
          return;
        }
        assert reqs[..i + 1] == reqs[..i] + [reqs[i]];
        i := i + 1;
      }
      ok := true;
      assert reqs[..i] == reqs;
      UntilFailureAll(reqs, rejects);
    }
  }

  /**
   * The first element whose name is `name`, as a name query's `get(0)` picks
   * it; `nameOf` projects the name of a Thing or a Location.
   */
  function FirstNamed<T>(xs: seq<T>, nameOf: T -> string, name: string): (r: Option<T>)
    ensures r.Some? <==> exists i :: 0 <= i < |xs| && nameOf(xs[i]) == name
    ensures r.Some? ==> nameOf(r.value) == name && r.value in xs
    ensures r.Some? ==> exists i :: 0 <= i < |xs| && xs[i] == r.value &&
                                    forall j :: 0 <= j < i ==> nameOf(xs[j]) != name
  {
    if xs == [] then None
    else if nameOf(xs[0]) == name then Some(xs[0])
    else
      var r := FirstNamed(xs[1..], nameOf, name);
      assert (exists i :: 0 <= i < |xs| && nameOf(xs[i]) == name) ==>
             (exists i :: 0 <= i < |xs[1..]| && nameOf(xs[1..][i]) == name) by {
        if exists i :: 0 <= i < |xs| && nameOf(xs[i]) == name {
          var i :| 0 <= i < |xs| && nameOf(xs[i]) == name;
          assert nameOf(xs[1..][i - 1]) == name;
        }
      }
      assert r.Some? ==> exists i :: 0 <= i < |xs| && xs[i] == r.value &&
                                     forall j :: 0 <= j < i ==> nameOf(xs[j]) != name by {
        if r.Some? {
          var k :| 0 <= k < |xs[1..]| && xs[1..][k] == r.value &&
                   forall j :: 0 <= j < k ==> nameOf(xs[1..][j]) != name;
          assert xs[k + 1] == r.value;
          forall j | 0 <= j < k + 1 ensures nameOf(xs[j]) != name {
            if j > 0 { assert xs[j] == xs[1..][j - 1]; }
          }
        }
      }
      r
  }
}
