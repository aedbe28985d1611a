/**
 * The graph `buildGraph` derives from the station and route tables: one
 * node per station name, and for every route whose two endpoints are
 * known stations one edge, appended in table order to the start
 * station's neighbour list. Routes naming an unknown station are skipped.
 * Turning a null route distance into the primitive edge weight throws a
 * `NullPointerException`; the routes before it have been added by then.
 */
module GraphBuilder {
  import opened Wrappers
  import opened Entities
  import opened ShortestPath

  /** The names of the stations in the table. */
  function StationNames(stations: seq<Station>): set<string> {
    set s | s in stations :: s.name
  }

  /** The graph after the station loop: an edgeless node for every station name. */
  function NodesOf(stations: seq<Station>): (g: Graph)
    ensures g.Keys == StationNames(stations)
    ensures forall n :: n in g ==> g[n] == StationNode(n, [])
  {
    map n | n in StationNames(stations) :: StationNode(n, [])
  }

  /** The graph after a prefix of the route loop, and whether it stopped on a null distance. */
  datatype Built = Built(graph: Graph, npe: bool)

  /** One iteration of the route loop. */
  function AddRoute(g: Graph, r: Route): Built {
    if r.startStationName in g && r.endStationName in g then
      if r.distance.None? then Built(g, true)
      else
        var node := g[r.startStationName];
        Built(g[r.startStationName := StationNode(node.name, node.neighbors + [Edge(r.endStationName, r.distance.value)])],
              false)
    else Built(g, false)
  }

  /**
   * The route loop over `routes`, in order, stopping at the first null
   * distance. It never adds or removes a node.
   */
  function AddRoutes(g: Graph, routes: seq<Route>): (b: Built)
    ensures b.graph.Keys == g.Keys
    decreases |routes|
  {
    if routes == [] then Built(g, false)
    else
      var b := AddRoutes(g, routes[..|routes| - 1]);
      if b.npe then b else AddRoute(b.graph, routes[|routes| - 1])
  }

  /** The whole of `buildGraph`: one node per station name. */
  function Build(stations: seq<Station>, routes: seq<Route>): (b: Built)
    ensures b.graph.Keys == StationNames(stations)
  {
    AddRoutes(NodesOf(stations), routes)
  }

  /** A route that becomes an edge: both endpoints are nodes of `g`. */
  predicate Known(g: Graph, r: Route) {
    r.startStationName in g && r.endStationName in g
  }

  /** The edges a complete route loop gives node `n`, in table order. */
  function OutEdges(g: Graph, routes: seq<Route>, n: string): seq<Edge>
    requires forall r :: r in routes && Known(g, r) ==> r.distance.Some?
    decreases |routes|
  {
    if routes == [] then []
    else
      var r := routes[|routes| - 1];
      OutEdges(g, routes[..|routes| - 1], n) +
        (if Known(g, r) && r.startStationName == n then [Edge(r.endStationName, r.distance.value)] else [])
  }

  // ---------------------------------------------------------------------

  /** Once the loop has stopped on a null distance, the later routes change nothing. */
  lemma {:induction false} AddRoutesStopped(g: Graph, routes: seq<Route>, j: nat)
    requires j <= |routes| && AddRoutes(g, routes[..j]).npe
    ensures AddRoutes(g, routes) == AddRoutes(g, routes[..j])
    decreases |routes|
  {
    if j < |routes| {
      var init := routes[..|routes| - 1];
      assert init[..j] == routes[..j];
      AddRoutesStopped(g, init, j);
    } else {
      assert routes[..j] == routes;
    }
  }

  /** The loop stops exactly when some route between known stations has a null distance. */
  lemma {:induction false} AddRoutesNpe(g: Graph, routes: seq<Route>)
    ensures AddRoutes(g, routes).npe <==> exists r :: r in routes && Known(g, r) && r.distance.None?
    decreases |routes|
  {
    if routes != [] {
      var init := routes[..|routes| - 1];
      var last := routes[|routes| - 1];
      assert routes == init + [last];
      AddRoutesNpe(g, init);
    }
  }

  /** Without a null distance, every node ends up with exactly the edges of its outgoing known routes. */
  lemma {:induction false} AddRoutesEdges(g: Graph, routes: seq<Route>, n: string)
    requires forall r :: r in routes && Known(g, r) ==> r.distance.Some?
    requires n in g
    ensures !AddRoutes(g, routes).npe && n in AddRoutes(g, routes).graph
    ensures AddRoutes(g, routes).graph[n] == StationNode(g[n].name, g[n].neighbors + OutEdges(g, routes, n))
    decreases |routes|
  {
    if routes == [] {
      assert g[n].neighbors + [] == g[n].neighbors;
    } else {
      var init := routes[..|routes| - 1];
      var last := routes[|routes| - 1];
      assert forall r :: r in init ==> r in routes;
      AddRoutesEdges(g, init, n);
      var before := AddRoutes(g, init).graph;
      if Known(g, last) && last.startStationName == n {
        assert before[n].neighbors + [Edge(last.endStationName, last.distance.value)]
            == g[n].neighbors + (OutEdges(g, init, n) + [Edge(last.endStationName, last.distance.value)]);
      } else {
        assert OutEdges(g, routes, n) == OutEdges(g, init, n) + [];
      }
    }
  }

  /** The route loop keeps every node keyed by its name and every edge leading to a node. */
  lemma {:induction false} AddRoutesWellFormed(g: Graph, routes: seq<Route>)
    requires WellFormed(g)
    ensures WellFormed(AddRoutes(g, routes).graph)
    decreases |routes|
  {
    if routes != [] {
      var init := routes[..|routes| - 1];
      AddRoutesWellFormed(g, init);
    }
  }

  /** Routes of non-negative distance give a graph of non-negative weights. */
  lemma {:induction false} AddRoutesNonNegative(g: Graph, routes: seq<Route>)
    requires NonNegative(g)
    requires forall r :: r in routes && r.distance.Some? ==> r.distance.value >= 0.0
    ensures NonNegative(AddRoutes(g, routes).graph)
    decreases |routes|
  {
    if routes != [] {
      var init := routes[..|routes| - 1];
      assert forall r :: r in init ==> r in routes;
      AddRoutesNonNegative(g, init);
    }
  }

  /** The graph `buildGraph` produces is well formed and has one node per station name. */
  lemma BuildShape(stations: seq<Station>, routes: seq<Route>)
    ensures Build(stations, routes).graph.Keys == StationNames(stations)
    ensures WellFormed(Build(stations, routes).graph)
    ensures Build(stations, routes).npe <==>
              exists r :: r in routes && Known(NodesOf(stations), r) && r.distance.None?
  {
    AddRoutesWellFormed(NodesOf(stations), routes);
    AddRoutesNpe(NodesOf(stations), routes);
  }

  /** The edges of a completed build are exactly the known routes out of each station, in table order. */
  lemma BuildEdges(stations: seq<Station>, routes: seq<Route>, n: string)
    requires forall r :: r in routes && Known(NodesOf(stations), r) ==> r.distance.Some?
    requires n in StationNames(stations)
    ensures !Build(stations, routes).npe && n in Build(stations, routes).graph
    ensures Build(stations, routes).graph[n] == StationNode(n, OutEdges(NodesOf(stations), routes, n))
  {
    AddRoutesEdges(NodesOf(stations), routes, n);
    assert [] + OutEdges(NodesOf(stations), routes, n) == OutEdges(NodesOf(stations), routes, n);
  }

  /** Non-negative route distances give non-negative edge weights. */
  lemma BuildNonNegative(stations: seq<Station>, routes: seq<Route>)
    requires forall r :: r in routes && r.distance.Some? ==> r.distance.value >= 0.0
    ensures NonNegative(Build(stations, routes).graph)
  {
    AddRoutesNonNegative(NodesOf(stations), routes);
  }
}
