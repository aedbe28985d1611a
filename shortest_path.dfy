/**
 * Dijkstra's single-source shortest path over the metro graph, as run by
 * `findFastestRoute`: tentative distances start at 0 for the source and
 * infinity for every other node, the frontier is polled for its least
 * tentative distance, polling the destination stops the search, a shorter
 * distance is recorded together with the predecessor and (re-)queues the
 * neighbour, and the path is rebuilt by following the predecessors back
 * from the destination.
 *
 * The priority queue is modelled as the set of queued nodes: its
 * remove-then-add keeps every node queued at most once, so a set holds
 * exactly what the heap holds. Polling scans the set for a least entry;
 * among entries of equal distance the one met first is taken, and every
 * contract below holds whichever of them that is.
 */
module ShortestPath {
  import opened Wrappers
  import opened Entities

  /** The adjacency map from station name to node. */
  type Graph = map<string, StationNode>

  /** Every node is keyed by its own name and every edge leads to a node of the graph. */
  ghost predicate WellFormed(g: Graph) {
    forall n {:trigger g[n]} :: n in g ==>
      g[n].name == n && forall e {:trigger e in g[n].neighbors} :: e in g[n].neighbors ==> e.destination in g
  }

  /** No edge of the graph has a negative weight. */
  ghost predicate NonNegative(g: Graph) {
    forall n, e {:trigger e in g[n].neighbors} :: n in g && e in g[n].neighbors ==> e.weight >= 0.0
  }

  /** `es` is a walk through `g` that leaves `a` and arrives at `b`. */
  ghost predicate IsPath(g: Graph, a: string, es: seq<Edge>, b: string)
    decreases |es|
  {
    a in g &&
    if es == [] then a == b
    else es[0] in g[a].neighbors && IsPath(g, es[0].destination, es[1..], b)
  }

  /** The summed weight of a walk. */
  function PathWeight(es: seq<Edge>): real
    decreases |es|
  {
    if es == [] then 0.0 else es[0].weight + PathWeight(es[1..])
  }

  /** The stations a walk arrives at, in order. */
  function Dests(es: seq<Edge>): seq<string>
    decreases |es|
  {
    if es == [] then [] else [es[0].destination] + Dests(es[1..])
  }

  /** The stations a walk from `a` visits, `a` included. */
  function Stops(a: string, es: seq<Edge>): seq<string> {
    [a] + Dests(es)
  }

  ghost predicate Reachable(g: Graph, a: string, b: string) {
    exists es :: IsPath(g, a, es, b)
  }

  /** No walk from `a` to `b` weighs less than `d`. */
  ghost predicate LowerBound(g: Graph, a: string, b: string, d: real) {
    forall es :: IsPath(g, a, es, b) ==> d <= PathWeight(es)
  }

  /** A tentative distance; `Inf` stands for `Double.MAX_VALUE`, "not reached yet". */
  datatype Dist = Fin(value: real) | Inf

  /** `x` is strictly below the tentative distance `d`. */
  predicate Below(x: real, d: Dist) {
    d.Inf? || x < d.value
  }

  /** `priorityQueue.poll()`: a queued node of least tentative distance. */
  method ExtractMin(queue: set<string>, dist: map<string, Dist>) returns (x: string)
    requires queue != {}
    requires forall n :: n in queue ==> n in dist && dist[n].Fin?
    ensures x in queue
    ensures forall y :: y in queue ==> dist[x].value <= dist[y].value
  {
    x :| x in queue;
    var rest := queue - {x};
    while rest != {}
      invariant rest <= queue && x in queue
      invariant forall y :: y in queue - rest ==> dist[x].value <= dist[y].value
      decreases rest
    {
      var y :| y in rest;
      if dist[y].value < dist[x].value {
        x := y;
      }
      rest := rest - {y};
    }
  }

  // ---------------------------------------------------------------------
  // The invariants of the search, over the set `done` of polled nodes.

  /** Queued nodes are reached, not yet polled, and nodes of `g`. */
  ghost predicate FrontierOk(g: Graph, dist: map<string, Dist>, done: set<string>, queue: set<string>) {
    forall n {:trigger n in queue} :: n in queue ==> n in g && n in dist && n !in done && dist[n].Fin?
  }

  /** Every reached node that has not been polled is queued. */
  ghost predicate FrontierComplete(g: Graph, dist: map<string, Dist>, done: set<string>, queue: set<string>) {
    forall n {:trigger dist[n]} :: n in g && n in dist && n !in done && dist[n].Fin? ==> n in queue
  }

  /** Every edge out of a node of `done` has been relaxed. */
  ghost predicate Relaxed(g: Graph, dist: map<string, Dist>, done: set<string>) {
    forall u, e {:trigger e in g[u].neighbors, u in done} :: u in done && u in g && e in g[u].neighbors ==>
      u in dist && e.destination in dist && dist[u].Fin? && dist[e.destination].Fin? &&
      dist[e.destination].value <= dist[u].value + e.weight
  }

  /** Polled nodes are reached and numbered below their count. */
  ghost predicate Ranked(dist: map<string, Dist>, rank: map<string, nat>) {
    forall u {:trigger u in rank} :: u in rank ==> u in dist && dist[u].Fin? && rank[u] < |rank|
  }

  /** Every node of `done` is reached within `d`. */
  ghost predicate Within(dist: map<string, Dist>, done: set<string>, d: real) {
    forall u {:trigger u in done} :: u in done ==> u in dist && dist[u].Fin? && dist[u].value <= d
  }

  /** Every queued node is reached no closer than `d`. */
  ghost predicate NoCloser(dist: map<string, Dist>, queue: set<string>, d: real) {
    forall v {:trigger v in queue} :: v in queue ==> v in dist && dist[v].Fin? && d <= dist[v].value
  }

  /** Polled nodes are no farther than any queued node. */
  ghost predicate Monotone(dist: map<string, Dist>, done: set<string>, queue: set<string>) {
    forall u, v {:trigger u in done, v in queue} :: u in done && v in queue ==>
      u in dist && v in dist && dist[u].Fin? && dist[v].Fin? && dist[u].value <= dist[v].value
  }

  /** The first `i` edges out of `current` (at distance `dcur`) have been relaxed. */
  ghost predicate EdgesDone(g: Graph, dist: map<string, Dist>, current: string, dcur: real, i: nat) {
    current in g && i <= |g[current].neighbors| &&
    forall j {:trigger g[current].neighbors[j]} :: 0 <= j < i ==>
      var e := g[current].neighbors[j];
      e.destination in dist && dist[e.destination].Fin? && dist[e.destination].value <= dcur + e.weight
  }

  /**
   * Predecessor links: every reached node but the source has one, it was
   * recorded from a polled node `previous[v]` over the edge `via[v]`, the
   * tentative distances agree with that edge, and along polled nodes the
   * links go back in polling order.
   */
  ghost predicate Predecessors(g: Graph, dist: map<string, Dist>, source: string, rank: map<string, nat>,
                               parents: set<string>, previous: map<string, string>, via: map<string, Edge>) {
    previous.Keys == via.Keys &&
    (forall v {:trigger v in previous} :: v in previous ==>
      v != source && v in g && v in dist && previous[v] in parents && previous[v] in g && previous[v] in dist &&
      via[v] in g[previous[v]].neighbors && via[v].destination == v &&
      dist[v].Fin? && dist[previous[v]].Fin? && dist[v].value == dist[previous[v]].value + via[v].weight &&
      (v in rank ==> previous[v] in rank && rank[previous[v]] < rank[v])) &&
    (forall n {:trigger n in previous} :: n in g && n in dist && n != source && dist[n].Fin? ==> n in previous)
  }

  // ---------------------------------------------------------------------
  // Lemmas about walks and about the search invariants.

  /** With non-negative weights no walk weighs less than nothing. */
  lemma {:induction false} PathWeightNonNegative(g: Graph, a: string, es: seq<Edge>, b: string)
    requires NonNegative(g) && IsPath(g, a, es, b)
    ensures PathWeight(es) >= 0.0
    decreases |es|
  {
    if es != [] {
      assert es[0] in g[a].neighbors;
      PathWeightNonNegative(g, es[0].destination, es[1..], b);
    }
  }

  /** A walk only ever arrives at a node of the graph. */
  lemma {:induction false} PathEndsInGraph(g: Graph, a: string, es: seq<Edge>, b: string)
    requires IsPath(g, a, es, b)
    ensures b in g
    decreases |es|
  {
    if es != [] {
      PathEndsInGraph(g, es[0].destination, es[1..], b);
    }
  }

  /**
   * The station list of a walk from `a` to `b` starts at `a`, ends at `b`,
   * and each station is joined to the next by the walk's edge.
   */
  lemma {:induction false} WalkStops(g: Graph, a: string, es: seq<Edge>, b: string)
    requires IsPath(g, a, es, b)
    ensures |Stops(a, es)| == |es| + 1 && Stops(a, es)[0] == a && Stops(a, es)[|es|] == b
    ensures forall i :: 0 <= i < |es| ==>
              Stops(a, es)[i] in g && es[i] in g[Stops(a, es)[i]].neighbors && Stops(a, es)[i + 1] == es[i].destination
    decreases |es|
  {
    if es != [] {
      var rest := Stops(es[0].destination, es[1..]);
      WalkStops(g, es[0].destination, es[1..], b);
      assert Stops(a, es) == [a] + rest;
      forall i | 0 <= i < |es|
        ensures Stops(a, es)[i] in g && es[i] in g[Stops(a, es)[i]].neighbors && Stops(a, es)[i + 1] == es[i].destination
      {
        if i > 0 {
          assert es[i] == es[1..][i - 1];
        }
      }
    }
  }

  /**
   * The cut argument: a walk from a polled node `a` to a least queued
   * node `x` must leave the polled nodes over a relaxed edge into the
   * queue, so it cannot weigh less than `dist[x] - dist[a]`.
   */
  lemma {:induction false} PolledIsShortest(g: Graph, dist: map<string, Dist>, done: set<string>, queue: set<string>,
                                            x: string, a: string, es: seq<Edge>)
    requires WellFormed(g) && NonNegative(g) && dist.Keys == g.Keys
    requires FrontierOk(g, dist, done, queue) && FrontierComplete(g, dist, done, queue) && Relaxed(g, dist, done)
    requires x in queue && forall v :: v in queue ==> dist[x].value <= dist[v].value
    requires a in done && a in g && dist[a].Fin?
    requires IsPath(g, a, es, x)
    ensures dist[a].value + PathWeight(es) >= dist[x].value
    decreases |es|
  {
    var e := es[0];
    var b := e.destination;
    assert e in g[a].neighbors;
    PathWeightNonNegative(g, b, es[1..], x);
    if b in done {
      PolledIsShortest(g, dist, done, queue, x, b, es[1..]);
    } else {
      assert dist[b].Fin?;
      assert b in queue;
    }
  }

  /** Once the queue is empty, no walk leads from a polled node to one that is not polled. */
  lemma {:induction false} UnpolledIsUnreachable(g: Graph, dist: map<string, Dist>, done: set<string>,
                                                 a: string, es: seq<Edge>, y: string)
    requires WellFormed(g) && dist.Keys == g.Keys
    requires FrontierComplete(g, dist, done, {}) && Relaxed(g, dist, done)
    requires a in done && y !in done
    ensures !IsPath(g, a, es, y)
    decreases |es|
  {
    if es != [] && a in g && es[0] in g[a].neighbors {
      var b := es[0].destination;
      assert dist[b].Fin?;
      assert b in done;
      UnpolledIsUnreachable(g, dist, done, b, es[1..], y);
    }
  }

  // ---------------------------------------------------------------------

  /** The invariant of the outer loop of the search; `rank` gives the polling order of the polled nodes. */
  ghost predicate SearchInv(g: Graph, source: string, destination: string, dist: map<string, Dist>,
                            queue: set<string>, rank: map<string, nat>,
                            previous: map<string, string>, via: map<string, Edge>) {
    dist.Keys == g.Keys && source in g && dist[source] == Fin(0.0) &&
    rank.Keys <= g.Keys && destination !in rank && Ranked(dist, rank) &&
    FrontierOk(g, dist, rank.Keys, queue) && FrontierComplete(g, dist, rank.Keys, queue) &&
    Relaxed(g, dist, rank.Keys) && Monotone(dist, rank.Keys, queue) &&
    (rank == map[] ==> queue == {source}) &&
    (rank != map[] ==> source in rank) &&
    Predecessors(g, dist, source, rank, rank.Keys, previous, via)
  }

  /**
   * The invariant of the inner loop, while the edges of the polled node
   * `current` (at distance `dcur`) are relaxed; the first `i` are done.
   */
  ghost predicate RelaxInv(g: Graph, source: string, dist: map<string, Dist>, queue: set<string>,
                           rank: map<string, nat>, previous: map<string, string>, via: map<string, Edge>,
                           current: string, dcur: real, i: nat) {
    dist.Keys == g.Keys && source in g && dist[source] == Fin(0.0) &&
    rank.Keys <= g.Keys && current in g && current !in rank && dist[current] == Fin(dcur) &&
    Ranked(dist, rank) && Within(dist, rank.Keys, dcur) &&
    FrontierOk(g, dist, rank[current := |rank|].Keys, queue) &&
    FrontierComplete(g, dist, rank[current := |rank|].Keys, queue) &&
    Relaxed(g, dist, rank.Keys) && EdgesDone(g, dist, current, dcur, i) && NoCloser(dist, queue, dcur) &&
    Predecessors(g, dist, source, rank, rank[current := |rank|].Keys, previous, via) &&
    (current in previous ==> previous[current] in rank) &&
    (rank == map[] ==> current == source) &&
    (rank != map[] ==> source in rank)
  }

  /** The initial distances and queue satisfy the search invariant. */
  lemma SearchStarts(g: Graph, source: string, destination: string)
    requires source in g
    ensures SearchInv(g, source, destination, map n | n in g :: if n == source then Fin(0.0) else Inf,
                      {source}, map[], map[], map[])
  {
  }

  /** Polling a least queued node `current` starts the relaxation of its edges. */
  lemma PollStarts(g: Graph, source: string, destination: string, dist: map<string, Dist>,
                   queue: set<string>, rank: map<string, nat>,
                   previous: map<string, string>, via: map<string, Edge>, current: string)
    requires SearchInv(g, source, destination, dist, queue, rank, previous, via)
    requires current in queue && forall v :: v in queue ==> dist[current].value <= dist[v].value
    ensures RelaxInv(g, source, dist, queue - {current}, rank, previous, via, current, dist[current].value, 0)
  {
    if current in previous {
      assert previous[current] in rank;
    }
  }

  /** Polling the destination: its tentative distance is the least weight of any walk to it. */
  lemma PolledDestination(g: Graph, source: string, destination: string, dist: map<string, Dist>,
                          queue: set<string>, rank: map<string, nat>,
                          previous: map<string, string>, via: map<string, Edge>)
    requires WellFormed(g) && NonNegative(g) && SearchInv(g, source, destination, dist, queue, rank, previous, via)
    requires destination in queue && forall v :: v in queue ==> dist[destination].value <= dist[v].value
    ensures LowerBound(g, source, destination, dist[destination].value)
  {
    forall es | IsPath(g, source, es, destination)
      ensures dist[destination].value <= PathWeight(es)
    {
      if rank == map[] {
        PathWeightNonNegative(g, source, es, destination);
      } else {
        PolledIsShortest(g, dist, rank.Keys, queue, destination, source, es);
      }
    }
  }

  // The helpers below state each part of the inner invariant for the
  // state after edge `e` out of `current` improved the distance of its
  // destination to `dcur + e.weight`.

  /** The polled side keeps its distances and links. */
  lemma ImproveBounds(g: Graph, source: string, dist: map<string, Dist>, queue: set<string>,
                      rank: map<string, nat>, previous: map<string, string>,
                      current: string, dcur: real, e: Edge)
    requires dist.Keys == g.Keys && source in g && current in g && dist[source] == Fin(0.0) && dist[current] == Fin(dcur)
    requires Ranked(dist, rank) && Within(dist, rank.Keys, dcur) && NoCloser(dist, queue, dcur)
    requires current in previous ==> previous[current] in rank
    requires e.destination in g && e.destination != source && e.destination != current && e.destination !in rank
    requires e.weight >= 0.0
    ensures dist[e.destination := Fin(dcur + e.weight)].Keys == g.Keys
    ensures dist[e.destination := Fin(dcur + e.weight)][source] == Fin(0.0)
    ensures dist[e.destination := Fin(dcur + e.weight)][current] == Fin(dcur)
    ensures Ranked(dist[e.destination := Fin(dcur + e.weight)], rank)
    ensures Within(dist[e.destination := Fin(dcur + e.weight)], rank.Keys, dcur)
    ensures NoCloser(dist[e.destination := Fin(dcur + e.weight)], queue + {e.destination}, dcur)
    ensures current in previous[e.destination := current] ==> previous[e.destination := current][current] in rank
  {
  }

  /** The queue holds exactly the reached, unpolled nodes. */
  lemma ImproveFrontier(g: Graph, dist: map<string, Dist>, rank: map<string, nat>, queue: set<string>,
                        current: string, dcur: real, e: Edge)
    requires FrontierOk(g, dist, rank[current := |rank|].Keys, queue)
    requires FrontierComplete(g, dist, rank[current := |rank|].Keys, queue)
    requires e.destination in g && e.destination !in rank && e.destination != current
    ensures FrontierOk(g, dist[e.destination := Fin(dcur + e.weight)], rank[current := |rank|].Keys, queue + {e.destination})
    ensures FrontierComplete(g, dist[e.destination := Fin(dcur + e.weight)], rank[current := |rank|].Keys,
                             queue + {e.destination})
  {
  }

  /** Lowering the distance of an unpolled node keeps every relaxed edge relaxed. */
  lemma ImproveRelaxed(g: Graph, dist: map<string, Dist>, rank: map<string, nat>, dcur: real, e: Edge)
    requires Relaxed(g, dist, rank.Keys) && e.destination in dist && e.destination !in rank
    requires Below(dcur + e.weight, dist[e.destination])
    ensures Relaxed(g, dist[e.destination := Fin(dcur + e.weight)], rank.Keys)
  {
  }

  /** The relaxed edges out of `current` grow by one. */
  lemma ImproveEdges(g: Graph, dist: map<string, Dist>, current: string, dcur: real, i: nat, e: Edge)
    requires EdgesDone(g, dist, current, dcur, i) && i < |g[current].neighbors| && e == g[current].neighbors[i]
    requires e.destination in dist && Below(dcur + e.weight, dist[e.destination])
    ensures EdgesDone(g, dist[e.destination := Fin(dcur + e.weight)], current, dcur, i + 1)
  {
  }

  /** Recording `current` and `e` as the link of `e.destination` keeps the links sound. */
  lemma ImprovePredecessors(g: Graph, dist: map<string, Dist>, source: string, rank: map<string, nat>,
                            previous: map<string, string>, via: map<string, Edge>,
                            current: string, dcur: real, e: Edge)
    requires Predecessors(g, dist, source, rank, rank[current := |rank|].Keys, previous, via)
    requires current in g && current in dist && dist[current] == Fin(dcur)
    requires e in g[current].neighbors
    requires e.destination in g && e.destination != source && e.destination !in rank && e.destination != current
    ensures Predecessors(g, dist[e.destination := Fin(dcur + e.weight)], source, rank, rank[current := |rank|].Keys,
                         previous[e.destination := current], via[e.destination := e])
  {
  }

  /** A relaxed edge `e`, the `i`-th of `current`, that improves its destination's distance keeps the inner invariant. */
  lemma RelaxImproves(g: Graph, source: string, dist: map<string, Dist>, queue: set<string>,
                      rank: map<string, nat>, previous: map<string, string>, via: map<string, Edge>,
                      current: string, dcur: real, i: nat, e: Edge)
    requires RelaxInv(g, source, dist, queue, rank, previous, via, current, dcur, i)
    requires i < |g[current].neighbors| && e == g[current].neighbors[i]
    requires e.destination in g && e.weight >= 0.0 && Below(dcur + e.weight, dist[e.destination])
    ensures RelaxInv(g, source, dist[e.destination := Fin(dcur + e.weight)], queue + {e.destination}, rank,
                     previous[e.destination := current], via[e.destination := e], current, dcur, i + 1)
  {
    assert e in g[current].neighbors;
    assert e.destination != source && e.destination != current && e.destination !in rank;
    ImproveBounds(g, source, dist, queue, rank, previous, current, dcur, e);
    ImproveFrontier(g, dist, rank, queue, current, dcur, e);
    ImproveRelaxed(g, dist, rank, dcur, e);
    ImproveEdges(g, dist, current, dcur, i, e);
    ImprovePredecessors(g, dist, source, rank, previous, via, current, dcur, e);
  }

  /** A relaxed edge that does not improve its destination's distance keeps the inner invariant. */
  lemma RelaxSkips(g: Graph, source: string, dist: map<string, Dist>, queue: set<string>,
                   rank: map<string, nat>, previous: map<string, string>, via: map<string, Edge>,
                   current: string, dcur: real, i: nat, e: Edge)
    requires RelaxInv(g, source, dist, queue, rank, previous, via, current, dcur, i)
    requires i < |g[current].neighbors| && e == g[current].neighbors[i]
    requires e.destination in dist && !Below(dcur + e.weight, dist[e.destination])
    ensures RelaxInv(g, source, dist, queue, rank, previous, via, current, dcur, i + 1)
  {
  }

  /** With all its edges relaxed, `current` joins the nodes whose edges are relaxed. */
  lemma SettleRelaxed(g: Graph, dist: map<string, Dist>, rank: map<string, nat>, current: string, dcur: real)
    requires current in g && Relaxed(g, dist, rank.Keys) && EdgesDone(g, dist, current, dcur, |g[current].neighbors|)
    requires current in dist && dist[current] == Fin(dcur)
    ensures Relaxed(g, dist, rank[current := |rank|].Keys)
  {
    forall u, e | u in rank[current := |rank|] && u in g && e in g[u].neighbors
      ensures dist[e.destination].Fin? && dist[e.destination].value <= dist[u].value + e.weight
    {
      if u == current {
        var j :| 0 <= j < |g[current].neighbors| && g[current].neighbors[j] == e;
      }
    }
  }

  /** Numbering `current` after the polled nodes keeps the links in polling order. */
  lemma SettlePredecessors(g: Graph, dist: map<string, Dist>, source: string, rank: map<string, nat>,
                           previous: map<string, string>, via: map<string, Edge>, current: string)
    requires Predecessors(g, dist, source, rank, rank[current := |rank|].Keys, previous, via)
    requires current !in rank && (current in previous ==> previous[current] in rank)
    requires forall u :: u in rank ==> rank[u] < |rank|
    ensures Predecessors(g, dist, source, rank[current := |rank|], rank[current := |rank|].Keys, previous, via)
  {
  }

  /** Once all its edges are relaxed the polled node joins the polled set. */
  lemma Settles(g: Graph, source: string, destination: string, dist: map<string, Dist>, queue: set<string>,
                rank: map<string, nat>, previous: map<string, string>, via: map<string, Edge>,
                current: string, dcur: real)
    requires current in g
    requires RelaxInv(g, source, dist, queue, rank, previous, via, current, dcur, |g[current].neighbors|)
    requires destination !in rank && current != destination
    ensures SearchInv(g, source, destination, dist, queue, rank[current := |rank|], previous, via)
  {
    SettleRelaxed(g, dist, rank, current, dcur);
    SettlePredecessors(g, dist, source, rank, previous, via, current);
  }

  /** An exhausted queue leaves the destination unreached: no walk leads to it. */
  lemma ExhaustedMeansUnreachable(g: Graph, source: string, destination: string, dist: map<string, Dist>,
                                  rank: map<string, nat>, previous: map<string, string>, via: map<string, Edge>)
    requires WellFormed(g) && destination in g
    requires SearchInv(g, source, destination, dist, {}, rank, previous, via)
    ensures dist[destination] == Inf
    ensures !Reachable(g, source, destination)
  {
    assert source in rank;
    forall es
      ensures !IsPath(g, source, es, destination)
    {
      UnpolledIsUnreachable(g, dist, rank.Keys, source, es, destination);
    }
  }

  /**
   * The path reconstruction of `findFastestRoute`: follow the predecessor
   * links back from the destination, putting each station in front. The
   * stations are those of a walk from the source whose weight is the
   * destination's tentative distance.
   */
  method RebuildPath(g: Graph, source: string, destination: string, dist: map<string, Dist>,
                     previous: map<string, string>, ghost via: map<string, Edge>, ghost rank: map<string, nat>)
    returns (path: seq<string>)
    requires dist.Keys == g.Keys && source in g && destination in g && dist[source] == Fin(0.0)
    requires dist[destination].Fin? && destination !in rank && rank.Keys <= g.Keys
    requires forall u :: u in rank ==> rank[u] < |rank|
    requires Predecessors(g, dist, source, rank, rank.Keys, previous, via)
    ensures exists es :: IsPath(g, source, es, destination) && PathWeight(es) == dist[destination].value &&
                         Stops(source, es) == path
  {
    ghost var order := rank[destination := |rank|];
    var step: Option<string> := Some(destination);
    ghost var at := destination;
    ghost var es: seq<Edge> := [];
    path := [];
    while step.Some?
      invariant at in g && at in order && dist[at].Fin?
      invariant IsPath(g, at, es, destination)
      invariant dist[at].value + PathWeight(es) == dist[destination].value
      invariant step.Some? ==> step.value == at && path == Dests(es)
      invariant step.None? ==> at == source && path == Stops(source, es)
      decreases if step.Some? then order[at] + 1 else 0
    {
      var x := step.value;
      path := [x] + path;
      if x in previous {
        assert previous[x] in rank;
        es := [via[x]] + es;
        at := previous[x];
        step := Some(previous[x]);
      } else {
        step := None;
      }
    }
  }

  /**
   * The inner loop of the search: every edge out of the polled node
   * `current` (at distance `dcur`) that leads to a shorter distance records
   * it with its predecessor and queues the neighbour; the others change
   * nothing.
   */
  method RelaxEdges(g: Graph, source: string, dist: map<string, Dist>, queue: set<string>,
                    ghost rank: map<string, nat>, previous: map<string, string>, ghost via: map<string, Edge>,
                    current: string, dcur: real)
    returns (dist': map<string, Dist>, queue': set<string>, previous': map<string, string>, ghost via': map<string, Edge>)
    requires WellFormed(g) && NonNegative(g) && current in g
    requires RelaxInv(g, source, dist, queue, rank, previous, via, current, dcur, 0)
    ensures RelaxInv(g, source, dist', queue', rank, previous', via', current, dcur, |g[current].neighbors|)
  {
    dist', queue', previous', via' := dist, queue, previous, via;
    for i := 0 to |g[current].neighbors|
      invariant RelaxInv(g, source, dist', queue', rank, previous', via', current, dcur, i)
    {
      var edge := g[current].neighbors[i];
      assert edge in g[current].neighbors;
      if Below(dcur + edge.weight, dist'[edge.destination]) {
        RelaxImproves(g, source, dist', queue', rank, previous', via', current, dcur, i, edge);
        dist' := dist'[edge.destination := Fin(dcur + edge.weight)];
        previous' := previous'[edge.destination := current];
        via' := via'[edge.destination := edge];
        // remove-then-add: the neighbour ends up queued exactly once
        queue' := queue' + {edge.destination};
      } else {
        RelaxSkips(g, source, dist', queue', rank, previous', via', current, dcur, i, edge);
      }
    }
  }

  /**
   * The search of `findFastestRoute` between two nodes of the graph. A
   * present distance is the least weight of any walk from `source` to
   * `destination`, and `path` lists the stations of a walk of exactly that
   * weight; an absent distance means no walk exists.
   */
  method Dijkstra(g: Graph, source: string, destination: string) returns (distance: Option<real>, path: seq<string>)
    requires WellFormed(g) && NonNegative(g)
    requires source in g && destination in g
    ensures distance.Some? ==> LowerBound(g, source, destination, distance.value)
    ensures distance.Some? ==>
      exists es :: IsPath(g, source, es, destination) && PathWeight(es) == distance.value && Stops(source, es) == path
    ensures distance.None? <==> !Reachable(g, source, destination)
    ensures distance.None? ==> path == []
  {
    var dist: map<string, Dist> := map n | n in g :: if n == source then Fin(0.0) else Inf;
    var previous: map<string, string> := map[];
    var queue: set<string> := {source};
    ghost var rank: map<string, nat> := map[];
    ghost var via: map<string, Edge> := map[];
    ghost var reached := false;
    SearchStarts(g, source, destination);

    while queue != {}
      invariant SearchInv(g, source, destination, dist, queue, rank, previous, via) && !reached
      decreases g.Keys - rank.Keys
    {
      var current := ExtractMin(queue, dist);
      if current == destination {
        PolledDestination(g, source, destination, dist, queue, rank, previous, via);
        reached := true;
        break;
      }
      PollStarts(g, source, destination, dist, queue, rank, previous, via, current);
      queue := queue - {current};

      var dcur := dist[current].value;
      dist, queue, previous, via := RelaxEdges(g, source, dist, queue, rank, previous, via, current, dcur);
      Settles(g, source, destination, dist, queue, rank, previous, via, current, dcur);
      rank := rank[current := |rank|];
    }

    if !reached {
      ExhaustedMeansUnreachable(g, source, destination, dist, rank, previous, via);
    }
    if dist[destination].Inf? {
      return None, [];
    }
    path := RebuildPath(g, source, destination, dist, previous, via, rank);
    distance := Some(dist[destination].value);
  }
}
