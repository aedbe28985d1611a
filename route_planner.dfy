/**
 * The route planner service: it keeps the in-memory metro graph built
 * from the station and route tables, validates station names, finds the
 * fastest route between two stations and prices a route.
 */
module RoutePlanner {
  import opened Wrappers
  import opened Entities
  import opened ShortestPath
  import opened GraphBuilder
  import opened Store

  /** Rupees charged per unit of route distance. */
  const FarePerKm: real := 2.5

  /** The fare of a route whose distance is unknown. */
  const FlatFare: real := 20.0

  /** Id carried by the route object synthesized for a computed journey. */
  const DynamicRouteId: int := -1

  /** `calculateFare`: the distance times the per-kilometre rate, or the flat fare. */
  function CalculateFare(route: Route): (fare: real)
    ensures fare >= 0.0 <==> route.distance.None? || route.distance.value >= 0.0
  {
    match route.distance
    case Some(d) => d * FarePerKm
    case None => FlatFare
  }

  /** A longer route never costs less than a shorter one. */
  lemma FareMonotone(a: Route, b: Route)
    requires a.distance.Some? && b.distance.Some? && a.distance.value <= b.distance.value
    ensures CalculateFare(a) <= CalculateFare(b)
  {
  }

  /** `stationRepository.existsByName`. */
  function HasStation(stations: seq<Station>, name: string): (b: bool)
    ensures b <==> exists s :: s in stations && s.name == name
    ensures b <==> name in StationNames(stations)
    decreases |stations|
  {
    if stations == [] then false
    else stations[0].name == name || HasStation(stations[1..], name)
  }

  /** True when every stored route distance that is present is non-negative. */
  ghost predicate DistancesNonNegative(routes: seq<Route>) {
    forall r :: r in routes && r.distance.Some? ==> r.distance.value >= 0.0
  }

  class RoutePlannerService {
    const store: Repositories
    var metroGraph: Graph

    constructor (store: Repositories)
      ensures this.store == store && metroGraph == map[]
    {
      this.store := store;
      metroGraph := map[];
    }

    /**
     * `buildGraph`: the graph is rebuilt from the tables. A route between
     * two known stations with a null distance throws, leaving the graph as
     * far as it got.
     */
    method BuildGraph() returns (r: Exceptional<()>)
      modifies this
      ensures metroGraph == Build(store.stations, store.routes).graph
      ensures r.Thrown? <==> Build(store.stations, store.routes).npe
      ensures r.Thrown? ==> r.failure == NullPointer
    {
      metroGraph := map[];
      for i := 0 to |store.stations|
        invariant metroGraph.Keys == StationNames(store.stations[..i])
        invariant forall n :: n in metroGraph ==> metroGraph[n] == StationNode(n, [])
      {
        assert store.stations[..i + 1] == store.stations[..i] + [store.stations[i]];
        metroGraph := metroGraph[store.stations[i].name := StationNode(store.stations[i].name, [])];
      }
      assert store.stations[..|store.stations|] == store.stations;
      assert metroGraph == NodesOf(store.stations);

      for j := 0 to |store.routes|
        invariant AddRoutes(NodesOf(store.stations), store.routes[..j]) == Built(metroGraph, false)
      {
        assert store.routes[..j + 1][..j] == store.routes[..j];
        var route := store.routes[j];
        if route.startStationName in metroGraph && route.endStationName in metroGraph {
          if route.distance.None? {
            AddRoutesStopped(NodesOf(store.stations), store.routes, j + 1);
            return Thrown(NullPointer);
          }
          var source := metroGraph[route.startStationName];
          metroGraph := metroGraph[route.startStationName :=
                                     StationNode(source.name, source.neighbors + [Edge(route.endStationName, route.distance.value)])];
        }
      }
      assert store.routes[..|store.routes|] == store.routes;
      r := Normal(());
    }

    /** `validateStations`: both names belong to stored stations. */
    function ValidateStations(source: string, destination: string): (ok: bool)
      reads this, store
      ensures ok <==> (exists s :: s in store.stations && s.name == source) &&
                      (exists s :: s in store.stations && s.name == destination)
    {
      HasStation(store.stations, source) && HasStation(store.stations, destination)
    }

    /**
     * `findFastestRoute`: rebuilds the graph, then runs the search between
     * two validated stations. The route returned spans the two stations
     * with the least walking weight as its distance; `path` is the station
     * list the search logs. No route means an unknown station or no walk.
     */
    method FindFastestRoute(sourceName: string, destinationName: string)
      returns (r: Exceptional<Option<Route>>, path: seq<string>)
      requires DistancesNonNegative(store.routes)
      modifies this
      ensures metroGraph == Build(store.stations, store.routes).graph
      ensures r.Thrown? <==> Build(store.stations, store.routes).npe
      ensures r.Thrown? ==> r.failure == NullPointer
      ensures r == Normal(None) <==>
                !Build(store.stations, store.routes).npe &&
                (!ValidateStations(sourceName, destinationName) || !Reachable(metroGraph, sourceName, destinationName))
      ensures r.Normal? && r.value.Some? ==>
                var route := r.value.value;
                route.routeId == DynamicRouteId && route.startStationName == sourceName &&
                route.endStationName == destinationName && route.distance.Some? &&
                LowerBound(metroGraph, sourceName, destinationName, route.distance.value) &&
                exists es :: IsPath(metroGraph, sourceName, es, destinationName) &&
                             PathWeight(es) == route.distance.value && Stops(sourceName, es) == path
      ensures r.Normal? && r.value.Some? ==>
                |path| >= 1 && path[0] == sourceName && path[|path| - 1] == destinationName
      ensures r.Normal? && r.value.Some? && sourceName == destinationName ==> r.value.value.distance == Some(0.0)
    {
      var built := BuildGraph();
      if built.Thrown? {
        return Thrown(built.failure), [];
      }
      if !ValidateStations(sourceName, destinationName) {
        return Normal(None), [];
      }
      if sourceName !in metroGraph || destinationName !in metroGraph {
        forall es | IsPath(metroGraph, sourceName, es, destinationName)
          ensures false
        {
          PathEndsInGraph(metroGraph, sourceName, es, destinationName);
        }
        return Normal(None), [];
      }
      BuildShape(store.stations, store.routes);
      BuildNonNegative(store.stations, store.routes);
      var distance;
      distance, path := Dijkstra(metroGraph, sourceName, destinationName);
      if distance.None? {
        return Normal(None), path;
      }
      ghost var es :| IsPath(metroGraph, sourceName, es, destinationName) && PathWeight(es) == distance.value &&
                      Stops(sourceName, es) == path;
      WalkStops(metroGraph, sourceName, es, destinationName);
      if sourceName == destinationName {
        assert IsPath(metroGraph, sourceName, [], destinationName);
        PathWeightNonNegative(metroGraph, sourceName, es, destinationName);
      }
      r := Normal(Some(Route(DynamicRouteId, sourceName, destinationName, Some(distance.value))));
    }
  }
}
