/**
 * The back end's route search: Dijkstra's algorithm over a LogisticsGraph with a
 * priority queue that keeps stale entries (there is no visited set), followed by
 * the reconstruction of the path from the back-pointer maps.
 *
 * The queue is a multiset of entries and each poll takes any entry of least
 * weight, so ties are broken arbitrarily. Weights are reals; "no best weight yet"
 * is a missing key of `bestWeights`.
 */
module Dijkstra {
  import opened Model
  import opened Paths
  import Graph

  /** A queue entry: a hub and the weight it was queued with. */
  datatype Entry = Entry(id: string, weight: real)

  /** `c` is an entry of least weight in `pq`. */
  predicate IsMin(c: Entry, pq: multiset<Entry>)
  {
    c in pq && forall q | q in pq :: c.weight <= q.weight
  }

  /** A non-empty queue has an entry of least weight. */
  lemma {:induction false} MinExists(pq: multiset<Entry>)
    requires pq != multiset{}
    ensures exists c :: IsMin(c, pq)
    decreases |pq|
  {
    var x :| x in pq;
    var rest := pq - multiset{x};
    if rest == multiset{} {
      assert pq == multiset{x};
      assert IsMin(x, pq);
    } else {
      MinExists(rest);
      var m :| IsMin(m, rest);
      if x.weight <= m.weight {
        assert IsMin(x, pq);
      } else {
        assert IsMin(m, pq);
      }
    }
  }

  // ---------------------------------------------------------------------------
  // Invariants of the search. `order` numbers the settled hubs (those whose
  // current best weight has been polled) in the order they were settled;
  // `count` exceeds every number handed out; `frontier` is the weight of the
  // most recently settled hub.
  // ---------------------------------------------------------------------------

  /** The back-pointer tree: every reached hub other than the start has a settled predecessor. */
  ghost predicate TreeInv(adj: map<string, seq<Edge>>, o: Objective, start: string,
                          best: map<string, real>, cameFromEdge: map<string, Edge>,
                          cameFromNode: map<string, string>, order: map<string, nat>, count: nat)
  {
    && start in best && best[start] == 0.0
    && order.Keys <= best.Keys
    && cameFromEdge.Keys == cameFromNode.Keys
    && (forall v | v in best :: (v in cameFromEdge <==> v != start) && 0.0 <= best[v] && (v == start || v in adj))
    && cameFromEdge.Keys <= best.Keys
    && (forall x | x in order :: order[x] < count)
    && forall v | v in cameFromEdge ::
         && cameFromNode[v] in order
         && cameFromEdge[v].target == v
         && cameFromEdge[v].source == cameFromNode[v]
         && cameFromEdge[v] in EdgesFrom(adj, cameFromNode[v])
         && best[v] == best[cameFromNode[v]] + Weight(cameFromEdge[v], o)
         && (v in order ==> order[cameFromNode[v]] < order[v])
  }

  /** Queue entries never undercut best weights, every unsettled best weight is queued, settled hubs come first. */
  ghost predicate QueueInv(pq: multiset<Entry>, best: map<string, real>, order: map<string, nat>, frontier: real)
  {
    && order.Keys <= best.Keys
    && (forall q | q in pq :: q.id in best && best[q.id] <= q.weight && frontier <= q.weight)
    && (forall v | v in best && v !in order :: Entry(v, best[v]) in pq)
    && (forall x | x in order :: best[x] <= frontier)
  }

  /** Every leg out of a settled hub other than `u` has been relaxed. */
  ghost predicate RelaxedExcept(adj: map<string, seq<Edge>>, o: Objective, best: map<string, real>,
                                order: map<string, nat>, u: Option<string>)
  {
    && order.Keys <= best.Keys
    && forall x, e | x in order && e in EdgesFrom(adj, x) && Some(x) != u ::
      e.target in best && best[e.target] <= best[x] + Weight(e, o)
  }

  /** A settled hub's best weight is at most the weight of any path to it. */
  ghost predicate Shortest(adj: map<string, seq<Edge>>, o: Objective, start: string,
                           best: map<string, real>, order: map<string, nat>)
  {
    && order.Keys <= best.Keys
    && forall x, p | x in order && IsPath(adj, p, start, x) :: best[x] <= PathWeight(p, o)
  }

  /** The invariant of the main loop. */
  ghost predicate Inv(adj: map<string, seq<Edge>>, o: Objective, start: string, pq: multiset<Entry>,
                      best: map<string, real>, cameFromEdge: map<string, Edge>, cameFromNode: map<string, string>,
                      order: map<string, nat>, count: nat, frontier: real)
  {
    && TreeInv(adj, o, start, best, cameFromEdge, cameFromNode, order, count)
    && QueueInv(pq, best, order, frontier)
    && RelaxedExcept(adj, o, best, order, None)
    && Shortest(adj, o, start, best, order)
  }

  /**
   * The invariant of the relaxation loop over the legs `es` of the polled hub
   * `u`, of which the first `i` are done. A first poll settled `u` just now; a
   * stale one found `u` settled, with all its legs relaxed already.
   */
  ghost predicate InnerInv(adj: map<string, seq<Edge>>, o: Objective, start: string, pq: multiset<Entry>,
                           best: map<string, real>, cameFromEdge: map<string, Edge>, cameFromNode: map<string, string>,
                           order: map<string, nat>, count: nat, frontier: real,
                           u: string, es: seq<Edge>, i: nat, firstPoll: bool)
  {
    && es == EdgesFrom(adj, u)
    && i <= |es|
    && u in order
    && TreeInv(adj, o, start, best, cameFromEdge, cameFromNode, order, count)
    && QueueInv(pq, best, order, frontier)
    && RelaxedExcept(adj, o, best, order, Some(u))
    && Shortest(adj, o, start, best, order)
    && (forall j | 0 <= j < i :: es[j].target in best && best[es[j].target] <= best[u] + Weight(es[j], o))
    && (firstPoll ==> frontier == best[u])
    && (!firstPoll ==> forall j | 0 <= j < |es| :: es[j].target in best && best[es[j].target] <= best[u] + Weight(es[j], o))
  }

  /** No hub's best weight is lost or raised between `before` and `after`. */
  ghost predicate NoneRaised(before: map<string, real>, after: map<string, real>)
  {
    forall v | v in before :: v in after && after[v] <= before[v]
  }

  /** Giving a hub a lower (or a first) best weight raises none. */
  lemma LowerRaisesNone(before: map<string, real>, after: map<string, real>, t: string, w: real)
    requires NoneRaised(before, after)
    requires t !in after || w < after[t]
    ensures NoneRaised(before, after[t := w])
  {
  }

  /** What the search establishes about the end hub when it stops. */
  ghost predicate Done(adj: map<string, seq<Edge>>, o: Objective, start: string, end: string,
                       best: map<string, real>, cameFromEdge: map<string, Edge>, cameFromNode: map<string, string>,
                       order: map<string, nat>, count: nat)
  {
    && TreeInv(adj, o, start, best, cameFromEdge, cameFromNode, order, count)
    && (end in best ==> forall p | IsPath(adj, p, start, end) :: best[end] <= PathWeight(p, o))
    && (end !in best ==> forall p :: !IsPath(adj, p, start, end))
  }

  // ---------------------------------------------------------------------------
  // Lemmas: one per step of the search.
  // ---------------------------------------------------------------------------

  lemma PathPrefix(adj: map<string, seq<Edge>>, p: seq<Edge>, a: string, b: string)
    requires p != [] && IsPath(adj, p, a, b)
    ensures IsPath(adj, p[..|p| - 1], a, p[|p| - 1].source)
  {
  }

  /**
   * Any path from the start to an unsettled hub weighs at least the least
   * queued weight: its first unsettled hub is queued with at most that path's
   * weight so far, and legs never weigh less than 0.
   */
  lemma {:induction false} LowerBound(adj: map<string, seq<Edge>>, o: Objective, start: string, pq: multiset<Entry>,
                                      best: map<string, real>, order: map<string, nat>, frontier: real,
                                      c: Entry, p: seq<Edge>, z: string)
    requires NonNegative(adj, o)
    requires start in best && best[start] == 0.0
    requires QueueInv(pq, best, order, frontier)
    requires RelaxedExcept(adj, o, best, order, None)
    requires Shortest(adj, o, start, best, order)
    requires IsMin(c, pq)
    requires IsPath(adj, p, start, z) && z !in order
    ensures c.weight <= PathWeight(p, o)
    decreases |p|
  {
    if p == [] {
      assert Entry(start, best[start]) in pq;
    } else {
      var n := |p| - 1;
      var last := p[n];
      var x := last.source;
      var prefix := p[..n];
      PathPrefix(adj, p, start, z);
      PathWeightAppend(prefix, [last], o);
      assert p == prefix + [last];
      assert last in EdgesFrom(adj, x);
      assert PathWeight([last], o) == Weight(last, o);
      if x in order {
        assert best[x] <= PathWeight(prefix, o);
        assert Entry(z, best[z]) in pq;
      } else {
        LowerBound(adj, o, start, pq, best, order, frontier, c, prefix, x);
        assert x in adj && last in adj[x];
      }
    }
  }

  /** The search starts with only the start hub reached, at weight 0, and queued. */
  lemma InitInv(adj: map<string, seq<Edge>>, o: Objective, start: string)
    ensures Inv(adj, o, start, multiset{Entry(start, 0.0)}, map[start := 0.0], map[], map[], map[], 0, 0.0)
  {
    var best := map[start := 0.0];
    assert forall v | v in best :: v == start;
  }

  /** Polling the end hub: its best weight is the least path weight. */
  lemma EndPolled(adj: map<string, seq<Edge>>, o: Objective, start: string, pq: multiset<Entry>,
                  best: map<string, real>, cameFromEdge: map<string, Edge>, cameFromNode: map<string, string>,
                  order: map<string, nat>, count: nat, frontier: real, c: Entry)
    requires NonNegative(adj, o)
    requires Inv(adj, o, start, pq, best, cameFromEdge, cameFromNode, order, count, frontier)
    requires IsMin(c, pq)
    ensures Done(adj, o, start, c.id, best, cameFromEdge, cameFromNode, order, count)
  {
    var z := c.id;
    if z !in order {
      assert Entry(z, best[z]) in pq;
      forall p | IsPath(adj, p, start, z) ensures best[z] <= PathWeight(p, o) {
        LowerBound(adj, o, start, pq, best, order, frontier, c, p, z);
      }
    }
  }

  /** With every reached hub settled and relaxed, every hub a path leads to has been reached. */
  lemma {:induction false} ClosedUnderPaths(adj: map<string, seq<Edge>>, o: Objective, start: string,
                                            best: map<string, real>, order: map<string, nat>, p: seq<Edge>, z: string)
    requires start in best
    requires best.Keys <= order.Keys
    requires RelaxedExcept(adj, o, best, order, None)
    requires IsPath(adj, p, start, z)
    ensures z in best
    decreases |p|
  {
    if p != [] {
      var n := |p| - 1;
      PathPrefix(adj, p, start, z);
      ClosedUnderPaths(adj, o, start, best, order, p[..n], p[n].source);
      assert p[n] in EdgesFrom(adj, p[n].source);
    }
  }

  /** An empty queue: every hub the start reaches has its least path weight, every other hub is unreachable. */
  lemma Exhausted(adj: map<string, seq<Edge>>, o: Objective, start: string, end: string,
                  best: map<string, real>, cameFromEdge: map<string, Edge>, cameFromNode: map<string, string>,
                  order: map<string, nat>, count: nat, frontier: real)
    requires Inv(adj, o, start, multiset{}, best, cameFromEdge, cameFromNode, order, count, frontier)
    ensures Done(adj, o, start, end, best, cameFromEdge, cameFromNode, order, count)
  {
    assert best.Keys <= order.Keys;
    if end !in best {
      forall p ensures !IsPath(adj, p, start, end) {
        if IsPath(adj, p, start, end) {
          ClosedUnderPaths(adj, o, start, best, order, p, end);
        }
      }
    }
  }

  /** Settling a reached hub keeps the back-pointer tree ordered. */
  lemma TreeSettle(adj: map<string, seq<Edge>>, o: Objective, start: string,
                   best: map<string, real>, cameFromEdge: map<string, Edge>, cameFromNode: map<string, string>,
                   order: map<string, nat>, count: nat, u: string)
    requires TreeInv(adj, o, start, best, cameFromEdge, cameFromNode, order, count)
    requires u in best && u !in order
    ensures TreeInv(adj, o, start, best, cameFromEdge, cameFromNode, order[u := count], count + 1)
  {
    var order' := order[u := count];
    forall v | v in cameFromEdge
      ensures cameFromNode[v] in order' && (v in order' ==> order'[cameFromNode[v]] < order'[v])
    {
      var pred := cameFromNode[v];
      assert pred in order && pred != u && order'[pred] == order[pred] < count;
    }
    forall x | x in order' ensures order'[x] < count + 1 {
    }
  }

  /** The polled least entry of an unsettled hub carries its best weight, and settles it. */
  lemma QueueSettle(pq: multiset<Entry>, best: map<string, real>, order: map<string, nat>, frontier: real,
                    c: Entry, count: nat)
    requires QueueInv(pq, best, order, frontier)
    requires IsMin(c, pq) && c.id !in order
    ensures c.id in best && best[c.id] == c.weight
    ensures QueueInv(pq - multiset{c}, best, order[c.id := count], c.weight)
  {
    var u := c.id;
    assert Entry(u, best[u]) in pq;
    var pq' := pq - multiset{c};
    forall v | v in best && v !in order[u := count] ensures Entry(v, best[v]) in pq' {
      assert Entry(v, best[v]) in pq && Entry(v, best[v]) != c;
    }
  }

  /** Polling a hub that is not settled settles it. */
  lemma PollFresh(adj: map<string, seq<Edge>>, o: Objective, start: string, pq: multiset<Entry>,
                  best: map<string, real>, cameFromEdge: map<string, Edge>, cameFromNode: map<string, string>,
                  order: map<string, nat>, count: nat, frontier: real, c: Entry)
    requires NonNegative(adj, o)
    requires Inv(adj, o, start, pq, best, cameFromEdge, cameFromNode, order, count, frontier)
    requires IsMin(c, pq) && c.id !in order
    ensures best[c.id] == c.weight
    ensures InnerInv(adj, o, start, pq - multiset{c}, best, cameFromEdge, cameFromNode,
                     order[c.id := count], count + 1, c.weight, c.id, EdgesFrom(adj, c.id), 0, true)
  {
    var u := c.id;
    var order' := order[u := count];
    QueueSettle(pq, best, order, frontier, c, count);
    TreeSettle(adj, o, start, best, cameFromEdge, cameFromNode, order, count, u);
    forall p | IsPath(adj, p, start, u) ensures best[u] <= PathWeight(p, o) {
      LowerBound(adj, o, start, pq, best, order, frontier, c, p, u);
    }
    assert Shortest(adj, o, start, best, order');
    assert RelaxedExcept(adj, o, best, order', Some(u));
  }

  /** Polling a stale entry of a settled hub leaves everything as it was. */
  lemma PollStale(adj: map<string, seq<Edge>>, o: Objective, start: string, pq: multiset<Entry>,
                  best: map<string, real>, cameFromEdge: map<string, Edge>, cameFromNode: map<string, string>,
                  order: map<string, nat>, count: nat, frontier: real, c: Entry)
    requires Inv(adj, o, start, pq, best, cameFromEdge, cameFromNode, order, count, frontier)
    requires IsMin(c, pq) && c.id in order
    ensures InnerInv(adj, o, start, pq - multiset{c}, best, cameFromEdge, cameFromNode,
                     order, count, frontier, c.id, EdgesFrom(adj, c.id), 0, false)
  {
    var u := c.id;
    var es := EdgesFrom(adj, u);
    var pq' := pq - multiset{c};
    forall v | v in best && v !in order ensures Entry(v, best[v]) in pq' {
      assert Entry(v, best[v]) in pq && Entry(v, best[v]) != c;
    }
    forall j | 0 <= j < |es| ensures es[j].target in best && best[es[j].target] <= best[u] + Weight(es[j], o) {
      assert es[j] in EdgesFrom(adj, u);
    }
  }

  /**
   * Polling the least entry `c` settles its hub unless the hub is settled already;
   * either way the relaxation of the hub's legs can start.
   */
  lemma Settle(adj: map<string, seq<Edge>>, o: Objective, start: string, pq: multiset<Entry>,
               best: map<string, real>, cameFromEdge: map<string, Edge>, cameFromNode: map<string, string>,
               order: map<string, nat>, count: nat, frontier: real, c: Entry)
    returns (order': map<string, nat>, count': nat, frontier': real, firstPoll: bool)
    requires NonNegative(adj, o)
    requires Inv(adj, o, start, pq, best, cameFromEdge, cameFromNode, order, count, frontier)
    requires IsMin(c, pq)
    ensures firstPoll <==> c.id !in order
    ensures firstPoll ==> order' == order[c.id := count]
    ensures !firstPoll ==> order' == order
    ensures c.id == start || c.id in adj
    ensures InnerInv(adj, o, start, pq - multiset{c}, best, cameFromEdge, cameFromNode,
                     order', count', frontier', c.id, EdgesFrom(adj, c.id), 0, firstPoll)
  {
    firstPoll := c.id !in order;
    if firstPoll {
      PollFresh(adj, o, start, pq, best, cameFromEdge, cameFromNode, order, count, frontier, c);
      order', count', frontier' := order[c.id := count], count + 1, c.weight;
    } else {
      PollStale(adj, o, start, pq, best, cameFromEdge, cameFromNode, order, count, frontier, c);
      order', count', frontier' := order, count, frontier;
    }
  }

  /** Settling a hub of `universe` leaves fewer of its hubs unsettled. */
  lemma SettleShrinks(universe: set<string>, order: map<string, nat>, u: string, n: nat)
    requires u in universe && u !in order
    ensures |universe - order[u := n].Keys| < |universe - order.Keys|
  {
    assert universe - order[u := n].Keys == (universe - order.Keys) - {u};
  }

  /** The back pointers of a valid tree are consistent, and the settle order ranks them. */
  lemma TreeRank(adj: map<string, seq<Edge>>, o: Objective, start: string,
                 best: map<string, real>, cameFromEdge: map<string, Edge>, cameFromNode: map<string, string>,
                 order: map<string, nat>, count: nat)
    returns (rank: map<string, nat>)
    requires TreeInv(adj, o, start, best, cameFromEdge, cameFromNode, order, count)
    ensures BackPointers(cameFromEdge, cameFromNode)
    ensures Ranked(cameFromEdge, cameFromNode, rank)
  {
    rank := map v | v in cameFromEdge :: if v in order then order[v] else count;
  }

  /** A leg out of `u` improves only an unsettled target, and only on a first poll. */
  lemma ImprovesOnlyUnsettled(adj: map<string, seq<Edge>>, o: Objective, start: string, pq: multiset<Entry>,
                              best: map<string, real>, cameFromEdge: map<string, Edge>, cameFromNode: map<string, string>,
                              order: map<string, nat>, count: nat, frontier: real,
                              u: string, es: seq<Edge>, i: nat, firstPoll: bool)
    requires NonNegative(adj, o) && WellFormed(adj)
    requires InnerInv(adj, o, start, pq, best, cameFromEdge, cameFromNode, order, count, frontier, u, es, i, firstPoll)
    requires i < |es|
    requires es[i].target !in best || best[u] + Weight(es[i], o) < best[es[i].target]
    ensures firstPoll && es[i].target !in order && es[i].target != start
    ensures es[i].source == u && es[i].target in adj
  {
    var e := es[i];
    assert u in adj && e in adj[u];
    assert 0.0 <= Weight(e, o);
  }

  /** Lowering an unsettled hub's best weight via a settled hub keeps the back-pointer tree. */
  lemma TreeRelax(adj: map<string, seq<Edge>>, o: Objective, start: string,
                  best: map<string, real>, cameFromEdge: map<string, Edge>, cameFromNode: map<string, string>,
                  order: map<string, nat>, count: nat, u: string, e: Edge, t: string, w: real)
    requires TreeInv(adj, o, start, best, cameFromEdge, cameFromNode, order, count)
    requires u in order && e in EdgesFrom(adj, u) && e.source == u && t == e.target && t in adj
    requires t !in order && t != start && w == best[u] + Weight(e, o) && 0.0 <= w
    ensures TreeInv(adj, o, start, best[t := w], cameFromEdge[t := e], cameFromNode[t := u], order, count)
  {
  }

  /** Queueing a lowered best weight keeps the queue invariant. */
  lemma QueueRelax(pq: multiset<Entry>, best: map<string, real>, order: map<string, nat>, frontier: real,
                   t: string, w: real)
    requires QueueInv(pq, best, order, frontier)
    requires t !in order && frontier <= w
    requires t !in best || w < best[t]
    ensures QueueInv(pq + multiset{Entry(t, w)}, best[t := w], order, frontier)
  {
  }

  /** Lowering an unsettled hub's best weight keeps every relaxed leg relaxed. */
  lemma RelaxedRelax(adj: map<string, seq<Edge>>, o: Objective, best: map<string, real>,
                     order: map<string, nat>, u: string, t: string, w: real)
    requires RelaxedExcept(adj, o, best, order, Some(u))
    requires t !in order && (t !in best || w < best[t])
    ensures RelaxedExcept(adj, o, best[t := w], order, Some(u))
  {
  }

  /** Relaxing one leg that improves its target's best weight keeps the invariant. */
  lemma RelaxImproves(adj: map<string, seq<Edge>>, o: Objective, start: string, pq: multiset<Entry>,
                      best: map<string, real>, cameFromEdge: map<string, Edge>, cameFromNode: map<string, string>,
                      order: map<string, nat>, count: nat, frontier: real,
                      u: string, es: seq<Edge>, i: nat, firstPoll: bool, e: Edge, t: string, w: real)
    requires NonNegative(adj, o) && WellFormed(adj)
    requires InnerInv(adj, o, start, pq, best, cameFromEdge, cameFromNode, order, count, frontier, u, es, i, firstPoll)
    requires i < |es| && e == es[i] && t == e.target && w == best[u] + Weight(e, o)
    requires firstPoll && t !in order && t != start
    requires e.source == u && t in adj
    requires t !in best || w < best[t]
    ensures InnerInv(adj, o, start, pq + multiset{Entry(t, w)}, best[t := w], cameFromEdge[t := e],
                     cameFromNode[t := u], order, count, frontier, u, es, i + 1, firstPoll)
  {
    assert u in adj && e in adj[u];
    assert 0.0 <= Weight(e, o);
    TreeRelax(adj, o, start, best, cameFromEdge, cameFromNode, order, count, u, e, t, w);
    QueueRelax(pq, best, order, frontier, t, w);
    RelaxedRelax(adj, o, best, order, u, t, w);
    var best' := best[t := w];
    ShortestRelax(adj, o, start, best, order, t, w);
    PrefixRelaxed(o, best, u, es, i, t, w);
    assert frontier == best'[u];
  }

  /** Improving the target of leg `i` of `u` keeps legs 0..i-1 relaxed and relaxes leg `i`. */
  lemma PrefixRelaxed(o: Objective, best: map<string, real>, u: string, es: seq<Edge>, i: nat, t: string, w: real)
    requires i < |es| && u in best && u != t
    requires forall j | 0 <= j < i :: es[j].target in best && best[es[j].target] <= best[u] + Weight(es[j], o)
    requires t == es[i].target && w == best[u] + Weight(es[i], o)
    requires t !in best || w < best[t]
    ensures forall j | 0 <= j < i + 1 :: es[j].target in best[t := w] && best[t := w][es[j].target] <= best[t := w][u] + Weight(es[j], o)
  {
    var best' := best[t := w];
    forall j | 0 <= j < i + 1 ensures es[j].target in best' && best'[es[j].target] <= best'[u] + Weight(es[j], o) {
      if j < i {
        assert es[j].target in best && best[es[j].target] <= best[u] + Weight(es[j], o);
      }
    }
  }

  /** Lowering the best weight of an unsettled hub keeps the settled hubs' weights least. */
  lemma ShortestRelax(adj: map<string, seq<Edge>>, o: Objective, start: string,
                      best: map<string, real>, order: map<string, nat>, t: string, w: real)
    requires Shortest(adj, o, start, best, order)
    requires t !in order
    ensures Shortest(adj, o, start, best[t := w], order)
  {
  }

  /** A leg that does not improve its target's best weight is relaxed already. */
  lemma RelaxSkips(adj: map<string, seq<Edge>>, o: Objective, start: string, pq: multiset<Entry>,
                   best: map<string, real>, cameFromEdge: map<string, Edge>, cameFromNode: map<string, string>,
                   order: map<string, nat>, count: nat, frontier: real,
                   u: string, es: seq<Edge>, i: nat, firstPoll: bool)
    requires InnerInv(adj, o, start, pq, best, cameFromEdge, cameFromNode, order, count, frontier, u, es, i, firstPoll)
    requires i < |es|
    requires es[i].target in best && best[es[i].target] <= best[u] + Weight(es[i], o)
    ensures InnerInv(adj, o, start, pq, best, cameFromEdge, cameFromNode, order, count, frontier, u, es, i + 1, firstPoll)
  {
  }

  /** With all legs of the polled hub relaxed, the main invariant holds again. */
  lemma InnerDone(adj: map<string, seq<Edge>>, o: Objective, start: string, pq: multiset<Entry>,
                  best: map<string, real>, cameFromEdge: map<string, Edge>, cameFromNode: map<string, string>,
                  order: map<string, nat>, count: nat, frontier: real, u: string, es: seq<Edge>, firstPoll: bool)
    requires InnerInv(adj, o, start, pq, best, cameFromEdge, cameFromNode, order, count, frontier, u, es, |es|, firstPoll)
    ensures Inv(adj, o, start, pq, best, cameFromEdge, cameFromNode, order, count, frontier)
  {
    AllRelaxed(adj, o, best, order, u, es);
  }

  /** Once every leg of `u` is relaxed, every leg out of every settled hub is. */
  lemma AllRelaxed(adj: map<string, seq<Edge>>, o: Objective, best: map<string, real>,
                   order: map<string, nat>, u: string, es: seq<Edge>)
    requires RelaxedExcept(adj, o, best, order, Some(u))
    requires u in best && es == EdgesFrom(adj, u)
    requires forall j | 0 <= j < |es| :: es[j].target in best && best[es[j].target] <= best[u] + Weight(es[j], o)
    ensures RelaxedExcept(adj, o, best, order, None)
  {
    forall x, e | x in order && e in EdgesFrom(adj, x)
      ensures e.target in best && best[e.target] <= best[x] + Weight(e, o)
    {
      if x == u {
        var j :| 0 <= j < |es| && es[j] == e;
      }
    }
  }

  /** The weight of a back-pointer chain is the difference of the best weights at its ends. */
  lemma {:induction false} ChainWeight(adj: map<string, seq<Edge>>, o: Objective, start: string,
                                       best: map<string, real>, cameFromEdge: map<string, Edge>, cameFromNode: map<string, string>,
                                       order: map<string, nat>, count: nat, path: seq<Edge>)
    requires TreeInv(adj, o, start, best, cameFromEdge, cameFromNode, order, count)
    requires path != [] && Contiguous(path)
    requires forall i :: 0 <= i < |path| ==> path[i].target in cameFromEdge && cameFromEdge[path[i].target] == path[i]
    ensures path[0].source in best
    ensures PathWeight(path, o) == best[path[|path| - 1].target] - best[path[0].source]
    ensures forall i :: 0 <= i < |path| ==> path[i] in EdgesFrom(adj, path[i].source)
  {
    var e := path[0];
    BackEdge(adj, o, start, best, cameFromEdge, cameFromNode, order, count, e.target);
    if |path| > 1 {
      var rest := path[1..];
      ChainWeight(adj, o, start, best, cameFromEdge, cameFromNode, order, count, rest);
      assert rest[0].source == e.target;
      assert PathWeight(path, o) == Weight(e, o) + PathWeight(rest, o);
      assert forall i :: 1 <= i < |path| ==> path[i] == rest[i - 1];
    }
  }

  /** The recorded leg into a reached hub leaves its recorded predecessor, which is reached, and adds its weight. */
  lemma BackEdge(adj: map<string, seq<Edge>>, o: Objective, start: string,
                 best: map<string, real>, cameFromEdge: map<string, Edge>, cameFromNode: map<string, string>,
                 order: map<string, nat>, count: nat, v: string)
    requires TreeInv(adj, o, start, best, cameFromEdge, cameFromNode, order, count)
    requires v in cameFromEdge
    ensures var e := cameFromEdge[v];
      && e.target == v && e.source == cameFromNode[v] && e.source in best && v in best
      && e in EdgesFrom(adj, e.source)
      && best[v] == best[e.source] + Weight(e, o)
  {
  }

  /** `PriorityQueue.poll`: removes and returns an entry of least weight. */
  method Poll(pq: multiset<Entry>) returns (c: Entry, rest: multiset<Entry>)
    requires pq != multiset{}
    ensures IsMin(c, pq)
    ensures rest == pq - multiset{c} && |rest| == |pq| - 1
  {
    MinExists(pq);
    c :| IsMin(c, pq);
    rest := pq - multiset{c};
  }

  // ---------------------------------------------------------------------------
  // The engine.
  // ---------------------------------------------------------------------------

  /** Back pointers agree with each other: the edge into v ends at v and starts at v's predecessor. */
  ghost predicate BackPointers(edges: map<string, Edge>, nodes: map<string, string>)
  {
    forall v | v in edges :: v in nodes && edges[v].target == v && edges[v].source == nodes[v]
  }

  /** Following back pointers strictly lowers the rank, so the walk back ends. */
  ghost predicate Ranked(edges: map<string, Edge>, nodes: map<string, string>, rank: map<string, nat>)
  {
    forall v | v in edges :: v in rank && v in nodes && (nodes[v] in edges ==> nodes[v] in rank && rank[nodes[v]] < rank[v])
  }

  class DijkstraEngine {
    const graph: Graph.LogisticsGraph

    constructor (graph: Graph.LogisticsGraph)
      ensures this.graph == graph
    {
      this.graph := graph;
    }

    /**
     * A least-weight route from startNode to endNode under the objective named by
     * optimizationType, with its totals. The route is empty exactly when the two
     * hubs coincide or no route exists.
     */
    method FindBestRoute(startNode: string, endNode: string, optimizationType: string) returns (r: RouteResult)
      requires graph.Valid()
      requires NonNegative(graph.adjacencyList, ObjectiveOf(optimizationType))
      ensures r.path == [] <==> startNode == endNode || !Reachable(graph.adjacencyList, startNode, endNode)
      ensures r.path != [] ==> IsPath(graph.adjacencyList, r.path, startNode, endNode)
      ensures forall p | IsPath(graph.adjacencyList, p, startNode, endNode) ::
        PathWeight(r.path, ObjectiveOf(optimizationType)) <= PathWeight(p, ObjectiveOf(optimizationType))
      ensures r.totalCost == PathWeight(r.path, Cost)
      ensures r.totalTime == PathWeight(r.path, Time)
      ensures r.totalCo2 == PathWeight(r.path, Co2)
    {
      ghost var adj := graph.adjacencyList;
      var o := ObjectiveOf(optimizationType);
      ghost var universe := adj.Keys + {startNode};

      var pq: multiset<Entry> := multiset{Entry(startNode, 0.0)};
      var bestWeights: map<string, real> := map[startNode := 0.0];
      var cameFromEdge: map<string, Edge> := map[];
      var cameFromNode: map<string, string> := map[];
      ghost var order: map<string, nat> := map[];
      ghost var count: nat := 0;
      ghost var frontier: real := 0.0;
      ghost var found := false;
      InitInv(adj, o, startNode);

      while pq != multiset{}
        invariant !found
        invariant Inv(adj, o, startNode, pq, bestWeights, cameFromEdge, cameFromNode, order, count, frontier)
        decreases |universe - order.Keys|, |pq|
      {
        ghost var polled := pq;
        var current;
        current, pq := Poll(pq);

        if current.id == endNode {
          EndPolled(adj, o, startNode, polled, bestWeights, cameFromEdge, cameFromNode, order, count, frontier, current);
          found := true;
          break;
        }

        ghost var settled, numbered := order, count;
        pq, bestWeights, cameFromEdge, cameFromNode, order, count, frontier :=
          Visit(current, o, pq, bestWeights, cameFromEdge, cameFromNode,
                startNode, polled, order, count, frontier);
        if current.id !in settled {
          SettleShrinks(universe, settled, current.id, numbered);
        }
      }
      if !found {
        Exhausted(adj, o, startNode, endNode, bestWeights, cameFromEdge, cameFromNode, order, count, frontier);
      }

      ghost var rank := TreeRank(adj, o, startNode, bestWeights, cameFromEdge, cameFromNode, order, count);
      r := ReconstructPath(cameFromEdge, cameFromNode, endNode, rank);
      ResultCorrect(adj, o, startNode, endNode, bestWeights, cameFromEdge, cameFromNode, order, count, r);
    }

    /**
     * Handles a polled entry that is not the destination: settles its hub on the
     * first poll, then relaxes the hub's legs. Either more hubs are settled or the
     * queue is shorter, which is why the search ends.
     */
    method Visit(current: Entry, o: Objective, pq: multiset<Entry>, bestWeights: map<string, real>,
                 cameFromEdge: map<string, Edge>, cameFromNode: map<string, string>,
                 ghost start: string, ghost polled: multiset<Entry>,
                 ghost order: map<string, nat>, ghost count: nat, ghost frontier: real)
      returns (pq': multiset<Entry>, bestWeights': map<string, real>,
               cameFromEdge': map<string, Edge>, cameFromNode': map<string, string>,
               ghost order': map<string, nat>, ghost count': nat, ghost frontier': real)
      requires graph.Valid() && NonNegative(graph.adjacencyList, o)
      requires Inv(graph.adjacencyList, o, start, polled, bestWeights, cameFromEdge, cameFromNode,
                   order, count, frontier)
      requires IsMin(current, polled) && pq == polled - multiset{current} && |pq| == |polled| - 1
      ensures Inv(graph.adjacencyList, o, start, pq', bestWeights', cameFromEdge', cameFromNode',
                  order', count', frontier')
      ensures current.id in order ==> order' == order && |pq'| < |polled|
      ensures current.id !in order ==> order' == order[current.id := count]
      ensures current.id == start || current.id in graph.adjacencyList
      ensures NoneRaised(bestWeights, bestWeights')
    {
      ghost var firstPoll;
      order', count', frontier', firstPoll :=
        Settle(graph.adjacencyList, o, start, polled, bestWeights, cameFromEdge, cameFromNode,
               order, count, frontier, current);
      pq', bestWeights', cameFromEdge', cameFromNode' :=
        RelaxEdges(current.id, o, pq, bestWeights, cameFromEdge, cameFromNode,
                   start, order', count', frontier', firstPoll);
    }

    /**
     * Relaxes every leg out of the polled hub `u`: a leg whose target has no best
     * weight yet, or a larger one, gives the target the lower weight, records the
     * leg and `u` as its back pointers, and queues the target with that weight.
     * A best weight is only ever lowered.
     */
    method RelaxEdges(u: string, o: Objective, pq: multiset<Entry>, bestWeights: map<string, real>,
                      cameFromEdge: map<string, Edge>, cameFromNode: map<string, string>,
                      ghost start: string, ghost order: map<string, nat>, ghost count: nat, ghost frontier: real,
                      ghost firstPoll: bool)
      returns (pq': multiset<Entry>, bestWeights': map<string, real>,
               cameFromEdge': map<string, Edge>, cameFromNode': map<string, string>)
      requires graph.Valid() && NonNegative(graph.adjacencyList, o)
      requires InnerInv(graph.adjacencyList, o, start, pq, bestWeights, cameFromEdge, cameFromNode,
                        order, count, frontier, u, EdgesFrom(graph.adjacencyList, u), 0, firstPoll)
      ensures Inv(graph.adjacencyList, o, start, pq', bestWeights', cameFromEdge', cameFromNode',
                  order, count, frontier)
      ensures !firstPoll ==> pq' == pq
      ensures NoneRaised(bestWeights, bestWeights')
    {
      ghost var adj := graph.adjacencyList;
      pq', bestWeights', cameFromEdge', cameFromNode' := pq, bestWeights, cameFromEdge, cameFromNode;
      var edges := graph.GetEdgesFrom(u);
      for i := 0 to |edges|
        invariant InnerInv(adj, o, start, pq', bestWeights', cameFromEdge', cameFromNode',
                           order, count, frontier, u, edges, i, firstPoll)
        invariant !firstPoll ==> pq' == pq
        invariant NoneRaised(bestWeights, bestWeights')
      {
        var edge := edges[i];
        var weight := Weight(edge, o);
        var newWeight := bestWeights'[u] + weight;
        if edge.target !in bestWeights' || newWeight < bestWeights'[edge.target] {
          ImprovesOnlyUnsettled(adj, o, start, pq', bestWeights', cameFromEdge', cameFromNode',
                                order, count, frontier, u, edges, i, firstPoll);
          RelaxImproves(adj, o, start, pq', bestWeights', cameFromEdge', cameFromNode',
                        order, count, frontier, u, edges, i, firstPoll, edge, edge.target, newWeight);
          LowerRaisesNone(bestWeights, bestWeights', edge.target, newWeight);
          bestWeights' := bestWeights'[edge.target := newWeight];
          cameFromEdge' := cameFromEdge'[edge.target := edge];
          cameFromNode' := cameFromNode'[edge.target := u];
          pq' := pq' + multiset{Entry(edge.target, newWeight)};
        } else {
          RelaxSkips(adj, o, start, pq', bestWeights', cameFromEdge', cameFromNode',
                     order, count, frontier, u, edges, i, firstPoll);
        }
      }
      InnerDone(adj, o, start, pq', bestWeights', cameFromEdge', cameFromNode',
                order, count, frontier, u, edges, firstPoll);
    }

    /**
     * Walks the back pointers from `end` and prepends each edge, summing the three
     * totals on the way; an `end` without a back pointer gives the empty route.
     */
    method ReconstructPath(edges: map<string, Edge>, nodes: map<string, string>, end: string,
                           ghost rank: map<string, nat>) returns (r: RouteResult)
      requires BackPointers(edges, nodes)
      requires Ranked(edges, nodes, rank)
      ensures r.path == [] <==> end !in edges
      ensures r.path != [] ==> r.path[|r.path| - 1].target == end && r.path[0].source !in edges
      ensures Contiguous(r.path)
      ensures forall i :: 0 <= i < |r.path| ==> r.path[i].target in edges && edges[r.path[i].target] == r.path[i]
      ensures r.totalCost == PathWeight(r.path, Cost)
      ensures r.totalTime == PathWeight(r.path, Time)
      ensures r.totalCo2 == PathWeight(r.path, Co2)
    {
      var path: seq<Edge> := [];
      var tCost, tTime, tCo2 := 0.0, 0.0, 0.0;
      var curr := end;

      while curr in edges
        invariant path == [] ==> curr == end
        invariant path != [] ==> path[0].source == curr && path[|path| - 1].target == end
        invariant Contiguous(path)
        invariant forall i :: 0 <= i < |path| ==> path[i].target in edges && edges[path[i].target] == path[i]
        invariant tCost == PathWeight(path, Cost) && tTime == PathWeight(path, Time) && tCo2 == PathWeight(path, Co2)
        decreases if curr in edges then rank[curr] + 1 else 0
      {
        var e := edges[curr];
        path := [e] + path;
        tCost := tCost + e.cost;
        tTime := tTime + e.time;
        tCo2 := tCo2 + e.co2;
        curr := nodes[curr];
      }
      r := RouteResult(path, tCost, tTime, tCo2);
    }
  }

  /** Reconstruction from the final back pointers yields a least-weight route, or none exactly when there is none to take. */
  lemma ResultCorrect(adj: map<string, seq<Edge>>, o: Objective, start: string, end: string,
                      best: map<string, real>, cameFromEdge: map<string, Edge>, cameFromNode: map<string, string>,
                      order: map<string, nat>, count: nat, r: RouteResult)
    requires NonNegative(adj, o)
    requires Done(adj, o, start, end, best, cameFromEdge, cameFromNode, order, count)
    requires r.path == [] <==> end !in cameFromEdge
    requires r.path != [] ==> r.path[|r.path| - 1].target == end && r.path[0].source !in cameFromEdge
    requires Contiguous(r.path)
    requires forall i :: 0 <= i < |r.path| ==> r.path[i].target in cameFromEdge && cameFromEdge[r.path[i].target] == r.path[i]
    ensures r.path == [] <==> start == end || !Reachable(adj, start, end)
    ensures r.path != [] ==> IsPath(adj, r.path, start, end)
    ensures forall p | IsPath(adj, p, start, end) :: PathWeight(r.path, o) <= PathWeight(p, o)
  {
    if r.path != [] {
      ChainWeight(adj, o, start, best, cameFromEdge, cameFromNode, order, count, r.path);
      assert r.path[0].source == start;
      assert IsPath(adj, r.path, start, end);
      assert end in best;
    } else {
      forall p | IsPath(adj, p, start, end) ensures 0.0 <= PathWeight(p, o) {
        PathWeightNonNegative(adj, p, o);
      }
      if end in best {
        assert end == start;
      }
    }
  }
}
