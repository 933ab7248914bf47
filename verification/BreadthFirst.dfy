/**
 Breadth-first search over an arbitrary successor function: the order in which
 vertices are discovered is an order of non-decreasing distance.
 */
module BreadthFirst {
  import opened Sequences

  type Vertex = string
  type Graph = Vertex -> set<Vertex>

  /** The vertices at most d steps from start. */
  ghost function Within(succ: Graph, start: Vertex, d: nat): set<Vertex> {
    if d == 0 then {start}
    else Within(succ, start, d - 1) + Beyond(succ, Within(succ, start, d - 1))
  }

  ghost function Beyond(succ: Graph, vs: set<Vertex>): set<Vertex> {
    set x, y | x in vs && y in succ(x) :: y
  }

  ghost predicate AtDistance(succ: Graph, start: Vertex, v: Vertex, d: nat) {
    v in Within(succ, start, d) && (d > 0 ==> v !in Within(succ, start, d - 1))
  }

  ghost predicate Reachable(succ: Graph, start: Vertex, v: Vertex) {
    exists d: nat :: v in Within(succ, start, d)
  }

  ghost predicate Sorted(ds: seq<nat>) {
    forall i, j :: 0 <= i < j < |ds| ==> ds[i] <= ds[j]
  }

  ghost predicate Distances(succ: Graph, start: Vertex, vs: seq<Vertex>, ds: seq<nat>) {
    |vs| == |ds| && forall i {:trigger AtDistance(succ, start, vs[i], ds[i])} ::
      0 <= i < |vs| ==> AtDistance(succ, start, vs[i], ds[i])
  }

  /** vs are the vertices nearest to start, nearest first, at most cap of them. */
  ghost predicate Nearest(succ: Graph, start: Vertex, cap: nat, vs: seq<Vertex>, ds: seq<nat>) {
    && 1 <= |vs| <= cap && vs[0] == start
    && NoRepeats(vs) && Sorted(ds) && Distances(succ, start, vs, ds)
    // Whatever was left out is no nearer, and nothing is left out below the cap.
    && forall v, d {:trigger AtDistance(succ, start, v, d)} :: v !in vs && AtDistance(succ, start, v, d) ==>
         |vs| == cap && d >= ds[|ds| - 1]
  }

  /** The successors of the first k vertices of order are in order. */
  ghost predicate Closed(succ: Graph, order: seq<Vertex>, k: nat) {
    k <= |order| && forall i {:trigger succ(order[i])} :: 0 <= i < k ==> succ(order[i]) <= Elements(order)
  }

  /** order lists every discovered vertex; the first k of them have been expanded. */
  ghost predicate Frontier(succ: Graph, start: Vertex, order: seq<Vertex>, k: nat, levels: seq<nat>) {
    && 1 <= |order| && order[0] == start
    && NoRepeats(order) && Sorted(levels) && Distances(succ, start, order, levels)
    && Closed(succ, order, k)
    && (k < |order| ==> levels[|order| - 1] <= levels[k] + 1)
  }

  lemma {:induction false} WithinMonotone(succ: Graph, start: Vertex, d: nat, e: nat)
    requires d <= e
    ensures Within(succ, start, d) <= Within(succ, start, e)
  {
    if d < e {
      WithinMonotone(succ, start, d, e - 1);
    }
  }

  // A vertex within d steps has distance at most d.
  lemma DistanceBound(succ: Graph, start: Vertex, v: Vertex, d: nat, e: nat)
    requires v in Within(succ, start, d) && AtDistance(succ, start, v, e)
    ensures e <= d
  {
    if e > d {
      WithinMonotone(succ, start, d, e - 1);
    }
  }

  lemma {:induction false} DistanceExists(succ: Graph, start: Vertex, v: Vertex, d: nat) returns (e: nat)
    requires v in Within(succ, start, d)
    ensures e <= d && AtDistance(succ, start, v, e)
  {
    if d > 0 && v in Within(succ, start, d - 1) {
      e := DistanceExists(succ, start, v, d - 1);
    } else {
      e := d;
    }
  }

  // Everything at most as near as the next vertex to expand has been discovered.
  lemma {:induction false} DiscoveredWithin(
    succ: Graph, start: Vertex, order: seq<Vertex>, k: nat, levels: seq<nat>, d: nat, y: Vertex)
    requires Frontier(succ, start, order, k, levels)
    requires k < |order| ==> d <= levels[k]
    requires y in Within(succ, start, d)
    ensures y in order
    decreases d
  {
    if d > 0 {
      if y in Within(succ, start, d - 1) {
        DiscoveredWithin(succ, start, order, k, levels, d - 1, y);
      } else {
        var x :| x in Within(succ, start, d - 1) && y in succ(x);
        DiscoveredWithin(succ, start, order, k, levels, d - 1, x);
        SuccessorDiscovered(succ, start, order, k, levels, d - 1, x);
      }
    }
  }

  lemma BeyondSubset(succ: Graph, near: set<Vertex>, known: set<Vertex>)
    requires forall x :: x in near ==> succ(x) <= known
    ensures Beyond(succ, near) <= known
  {
  }

  lemma SuccessorDiscovered(succ: Graph, start: Vertex, order: seq<Vertex>, k: nat, levels: seq<nat>, d: nat, x: Vertex)
    requires |order| == |levels| && Sorted(levels) && Distances(succ, start, order, levels) && Closed(succ, order, k)
    requires k < |order| ==> d < levels[k]
    requires x in Within(succ, start, d) && x in order
    ensures succ(x) <= Elements(order)
  {
    var i :| 0 <= i < |order| && order[i] == x;
    assert AtDistance(succ, start, order[i], levels[i]);
    DistanceBound(succ, start, x, d, levels[i]);
    assert i < k;
  }

  // Expanding order[k] appends vertices one level further out.
  lemma Expand(succ: Graph, start: Vertex, order: seq<Vertex>, k: nat, levels: seq<nat>, found: seq<Vertex>)
    requires Frontier(succ, start, order, k, levels) && k < |order|
    requires NoRepeats(found) && forall v :: v in found <==> v in succ(order[k]) && v !in order
    ensures Frontier(succ, start, order + found, k + 1, levels + Repeat(levels[k] + 1, |found|))
  {
    ExpandDistances(succ, start, order, k, levels, found);
    ExpandClosed(succ, order, k, found);
    AppendNoRepeats(order, found);
    AppendSorted(levels, levels[k] + 1, |found|);
    if k + 1 < |order + found| {
      NextLevel(levels, k, |found|);
    }
  }

  lemma AppendNoRepeats(a: seq<Vertex>, b: seq<Vertex>)
    requires NoRepeats(a) && NoRepeats(b) && forall v :: v in b ==> v !in a
    ensures NoRepeats(a + b)
  {
    forall i, j | 0 <= i < |a| && 0 <= j < |b| ensures a[i] != b[j] {
      assert b[j] in b;
    }
  }

  lemma AppendSorted(ds: seq<nat>, d: nat, n: nat)
    requires Sorted(ds) && |ds| > 0 && ds[|ds| - 1] <= d
    ensures Sorted(ds + Repeat(d, n))
    ensures forall i :: 0 <= i < |ds| + n ==> (ds + Repeat(d, n))[i] <= d
  {
    assert forall i :: 0 <= i < |ds| ==> ds[i] <= ds[|ds| - 1];
  }

  lemma NextLevel(levels: seq<nat>, k: nat, n: nat)
    requires Sorted(levels) && k < |levels| && levels[|levels| - 1] <= levels[k] + 1 && k + 1 < |levels| + n
    ensures (levels + Repeat(levels[k] + 1, n))[|levels| + n - 1] <= (levels + Repeat(levels[k] + 1, n))[k + 1] + 1
  {
    AppendSorted(levels, levels[k] + 1, n);
  }

  lemma ExpandDistances(succ: Graph, start: Vertex, order: seq<Vertex>, k: nat, levels: seq<nat>, found: seq<Vertex>)
    requires Frontier(succ, start, order, k, levels) && k < |order|
    requires forall v :: v in found ==> v in succ(order[k]) && v !in order
    ensures Distances(succ, start, order + found, levels + Repeat(levels[k] + 1, |found|))
  {
    var order', levels' := order + found, levels + Repeat(levels[k] + 1, |found|);
    forall i | 0 <= i < |order'| ensures AtDistance(succ, start, order'[i], levels'[i]) {
      if i < |order| {
        assert AtDistance(succ, start, order[i], levels[i]);
      } else {
        assert order'[i] in found;
        NewDistance(succ, start, order, k, levels, order'[i]);
      }
    }
  }

  lemma ExpandClosed(succ: Graph, order: seq<Vertex>, k: nat, found: seq<Vertex>)
    requires Closed(succ, order, k) && k < |order|
    requires forall v :: v in succ(order[k]) && v !in order ==> v in found
    ensures Closed(succ, order + found, k + 1)
  {
    assert Elements(order + found) == Elements(order) + Elements(found);
    forall i | 0 <= i < k + 1 ensures succ((order + found)[i]) <= Elements(order + found) {
      assert (order + found)[i] == order[i];
    }
  }

  lemma NewDistance(succ: Graph, start: Vertex, order: seq<Vertex>, k: nat, levels: seq<nat>, y: Vertex)
    requires Frontier(succ, start, order, k, levels) && k < |order|
    requires y in succ(order[k]) && y !in order
    ensures AtDistance(succ, start, y, levels[k] + 1)
  {
    if y in Within(succ, start, levels[k]) {
      DiscoveredWithin(succ, start, order, k, levels, levels[k], y);
    }
    assert AtDistance(succ, start, order[k], levels[k]);
    assert y in Beyond(succ, Within(succ, start, levels[k]));
  }

  function Elements(vs: seq<Vertex>): set<Vertex> {
    set v | v in vs
  }

  function Repeat(x: nat, n: nat): seq<nat> {
    seq(n, _ => x)
  }

  // The expanded vertices are the nearest ones, once none is left or the cap is reached.
  lemma Finished(succ: Graph, start: Vertex, cap: nat, order: seq<Vertex>, k: nat, levels: seq<nat>)
    requires Frontier(succ, start, order, k, levels) && 1 <= k <= cap
    requires k == |order| || k == cap
    ensures Nearest(succ, start, cap, order[..k], levels[..k])
  {
    forall v, d | v !in order[..k] && AtDistance(succ, start, v, d) ensures k == cap && d >= levels[k - 1] {
      LeftOut(succ, start, order, k, levels, v, d);
    }
    PrefixFacts(succ, start, order, levels, k);
  }

  lemma PrefixFacts(succ: Graph, start: Vertex, order: seq<Vertex>, levels: seq<nat>, k: nat)
    requires NoRepeats(order) && Sorted(levels) && Distances(succ, start, order, levels) && k <= |order|
    ensures NoRepeats(order[..k]) && Sorted(levels[..k]) && Distances(succ, start, order[..k], levels[..k])
  {
    forall i | 0 <= i < k ensures AtDistance(succ, start, order[..k][i], levels[..k][i]) {
      assert AtDistance(succ, start, order[i], levels[i]);
    }
  }

  lemma LeftOut(succ: Graph, start: Vertex, order: seq<Vertex>, k: nat, levels: seq<nat>, v: Vertex, d: nat)
    requires Frontier(succ, start, order, k, levels) && 1 <= k
    requires v !in order[..k] && AtDistance(succ, start, v, d)
    ensures k < |order| && d >= levels[k - 1]
  {
    if v in order {
      var i :| 0 <= i < |order| && order[i] == v;
      assert AtDistance(succ, start, order[i], levels[i]);
      DistanceBound(succ, start, v, d, levels[i]);
    } else if k == |order| || d <= levels[k] {
      DiscoveredWithin(succ, start, order, k, levels, d, v);
    }
  }

  lemma {:induction false} WithinClosedSet(succ: Graph, start: Vertex, known: set<Vertex>, d: nat)
    requires start in known && forall x :: succ(x) <= known
    ensures Within(succ, start, d) <= known
  {
    if d > 0 {
      WithinClosedSet(succ, start, known, d - 1);
      BeyondSubset(succ, Within(succ, start, d - 1), known);
    }
  }

  /** All that is reachable, and nothing else. */
  ghost predicate IsClosure(succ: Graph, start: Vertex, vs: seq<Vertex>) {
    forall v :: v in vs <==> Reachable(succ, start, v)
  }

  /** The queue is empty exactly when the expanded vertices are all that is reachable. */
  lemma EmptyQueueIffClosure(succ: Graph, start: Vertex, order: seq<Vertex>, k: nat, levels: seq<nat>)
    requires Frontier(succ, start, order, k, levels)
    ensures k == |order| <==> IsClosure(succ, start, order[..k])
  {
    forall v | v in order ensures Reachable(succ, start, v) {
      var i :| 0 <= i < |order| && order[i] == v;
      assert AtDistance(succ, start, order[i], levels[i]);
    }
    if k == |order| {
      forall v, d: nat | v in Within(succ, start, d) ensures v in order[..k] {
        DiscoveredWithin(succ, start, order, k, levels, d, v);
      }
    } else {
      assert order[k] in order && order[k] !in order[..k];
    }
  }

  /** So it is below the cap. */
  lemma BelowCapIsClosure(succ: Graph, start: Vertex, cap: nat, vs: seq<Vertex>, ds: seq<nat>)
    requires Nearest(succ, start, cap, vs, ds) && |vs| < cap
    ensures IsClosure(succ, start, vs)
  {
    forall v ensures v in vs <==> Reachable(succ, start, v) {
      if v in vs {
        var i :| 0 <= i < |vs| && vs[i] == v;
        assert AtDistance(succ, start, vs[i], ds[i]);
      } else if d: nat :| v in Within(succ, start, d) {
        var e := DistanceExists(succ, start, v, d);
      }
    }
  }
}
