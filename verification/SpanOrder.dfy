/**
 What the order of buildTree means position by position (internal/tracing/traces_get.go):
 input order among roots and among siblings, subtrees in one piece, and the rest last.
 */
module SpanOrder {
  import opened Sequences
  import opened TraceTree

  ghost predicate Before<T>(s: seq<T>, x: T, y: T) {
    exists p, q :: 0 <= p < q < |s| && s[p] == x && s[q] == y
  }

  lemma BeforeConcat<T>(a: seq<T>, b: seq<T>, x: T, y: T)
    ensures x in a && y in b ==> Before(a + b, x, y)
    ensures Before(a, x, y) || Before(b, x, y) ==> Before(a + b, x, y)
  {
    var s := a + b;
    if x in a && y in b {
      var p :| 0 <= p < |a| && a[p] == x;
      var q :| 0 <= q < |b| && b[q] == y;
      assert s[p] == x && s[|a| + q] == y;
    }
    if Before(a, x, y) {
      var p, q :| 0 <= p < q < |a| && a[p] == x && a[q] == y;
      assert s[p] == x && s[q] == y;
    }
    if Before(b, x, y) {
      var p, q :| 0 <= p < q < |b| && b[p] == x && b[q] == y;
      assert s[|a| + p] == x && s[|a| + q] == y;
    }
  }

  // ----- Roots, children and unrooted spans are listed in input order -----

  lemma {:induction false} RootsInOrder(spans: seq<Span>, ids: set<string>, i: nat, j: nat)
    requires i < j < |spans| && !HasParent(spans[i], ids) && !HasParent(spans[j], ids)
    ensures Before(Roots(spans, ids), spans[i].spanID, spans[j].spanID)
  {
    var n := |spans| - 1;
    var init := spans[..n];
    var last := if HasParent(spans[n], ids) then [] else [spans[n].spanID];
    BeforeConcat(Roots(init, ids), last, spans[i].spanID, spans[j].spanID);
    if j == n {
      RootsFacts(init, ids);
      assert init[i] == spans[i] && init[i] in init;
    } else {
      RootsInOrder(init, ids, i, j);
    }
  }

  lemma {:induction false} KidsInOrder(spans: seq<Span>, ids: set<string>, id: string, i: nat, j: nat)
    requires i < j < |spans| && HasParent(spans[i], ids) && HasParent(spans[j], ids)
    requires spans[i].parentID == spans[j].parentID == id
    ensures Before(Kids(spans, ids, id), spans[i].spanID, spans[j].spanID)
  {
    var n := |spans| - 1;
    var init := spans[..n];
    var last := if HasParent(spans[n], ids) && spans[n].parentID == id then [spans[n].spanID] else [];
    BeforeConcat(Kids(init, ids, id), last, spans[i].spanID, spans[j].spanID);
    if j == n {
      KidsFacts(init, ids, id);
      assert init[i] == spans[i] && init[i] in init;
    } else {
      KidsInOrder(init, ids, id, i, j);
    }
  }

  lemma {:induction false} RestInOrder(spans: seq<Span>, ids: set<string>, i: nat, j: nat)
    requires i < j < |spans| && spans[i].spanID !in ids && spans[j].spanID !in ids
    ensures Before(Except(spans, ids), spans[i], spans[j])
  {
    var n := |spans| - 1;
    var init := spans[..n];
    var last := if spans[n].spanID in ids then [] else [spans[n]];
    BeforeConcat(Except(init, ids), last, spans[i], spans[j]);
    if j == n {
      RestMember(init, ids, i);
    } else {
      RestInOrder(init, ids, i, j);
    }
  }

  lemma {:induction false} RestMember(spans: seq<Span>, ids: set<string>, i: nat)
    requires i < |spans| && spans[i].spanID !in ids
    ensures spans[i] in Except(spans, ids)
  {
    if i < |spans| - 1 {
      RestMember(spans[..|spans| - 1], ids, i);
    }
  }

  // ----- The walk keeps the order of what it is given -----

  lemma {:induction false} WalkMember(spans: seq<Span>, ids: seq<string>, levels: nat, x: string)
    requires levels > 0 && x in ids
    ensures x in PreOrders(spans, ids, levels)
  {
    var n := |ids| - 1;
    assert PreOrder(spans, ids[n], levels)[0] == ids[n];
    if x != ids[n] {
      assert ids == ids[..n] + [ids[n]];
      WalkMember(spans, ids[..n], levels, x);
    }
  }

  lemma {:induction false} WalkInOrder(spans: seq<Span>, ids: seq<string>, levels: nat, x: string, y: string)
    requires levels > 0 && Before(ids, x, y)
    ensures Before(PreOrders(spans, ids, levels), x, y)
  {
    var p, q :| 0 <= p < q < |ids| && ids[p] == x && ids[q] == y;
    var n := |ids| - 1;
    var init := ids[..n];
    BeforeConcat(PreOrders(spans, init, levels), PreOrder(spans, ids[n], levels), x, y);
    if q == n {
      assert init[p] == x;
      WalkMember(spans, init, levels, x);
      assert PreOrder(spans, y, levels)[0] == y;
    } else {
      assert init[p] == x && init[q] == y;
      WalkInOrder(spans, init, levels, x, y);
    }
  }

  // ----- Where a subtree stands -----

  lemma {:induction false} Block(spans: seq<Span>, ids: seq<string>, levels: nat, x: string)
    returns (a: seq<string>, b: seq<string>)
    requires x in ids
    ensures PreOrders(spans, ids, levels) == a + PreOrder(spans, x, levels) + b
  {
    var n := |ids| - 1;
    if x == ids[n] {
      a, b := PreOrders(spans, ids[..n], levels), [];
    } else {
      assert ids == ids[..n] + [ids[n]];
      a, b := Block(spans, ids[..n], levels, x);
      assert a + PreOrder(spans, x, levels) + b + PreOrder(spans, ids[n], levels)
          == a + PreOrder(spans, x, levels) + (b + PreOrder(spans, ids[n], levels));
      b := b + PreOrder(spans, ids[n], levels);
    }
  }

  /** The whole forest in pre-order. */
  function Forest(spans: seq<Span>): seq<string> {
    PreOrders(spans, Roots(spans, Ids(spans)), |spans|)
  }

  lemma {:induction false} Subtree(spans: seq<Span>, id: string, d: nat) returns (a: seq<string>, b: seq<string>)
    requires RootedAt(spans, id, d) && d < |spans|
    ensures Forest(spans) == a + PreOrder(spans, id, |spans| - d) + b
    decreases d
  {
    hide PreOrders, PreOrder, Kids, Roots;
    var s :| s in spans && s.spanID == id
             && if d == 0 then !HasParent(s, Ids(spans))
                else HasParent(s, Ids(spans)) && RootedAt(spans, s.parentID, d - 1);
    if d == 0 {
      RootsFacts(spans, Ids(spans));
      a, b := Block(spans, Roots(spans, Ids(spans)), |spans|, id);
    } else {
      var a1, b1 := Subtree(spans, s.parentID, d - 1);
      KidsFacts(spans, Ids(spans), s.parentID);
      var a2, b2 := Block(spans, Kids(spans, Ids(spans), s.parentID), |spans| - d, id);
      Unfold(spans, s.parentID, |spans| - d + 1);
      var block := PreOrder(spans, id, |spans| - d);
      assert a1 + ([s.parentID] + (a2 + block + b2)) + b1 == (a1 + [s.parentID] + a2) + block + (b2 + b1);
      a, b := a1 + [s.parentID] + a2, b2 + b1;
    }
  }

  lemma Unfold(spans: seq<Span>, id: string, levels: nat)
    requires levels > 0
    ensures PreOrder(spans, id, levels) == [id] + PreOrders(spans, Kids(spans, Ids(spans), id), levels - 1)
  {
  }

  /** The chain from a span to its root has distinct spans, so it is no longer than the input. */
  lemma DepthBound(spans: seq<Span>, id: string, d: nat)
    requires DistinctIds(spans) && RootedAt(spans, id, d)
    ensures d < |spans|
  {
    var chain := Chain(spans, id, d);
    SubsetCardinality(chain, Ids(spans));
    IdCount(spans);
  }

  ghost predicate RootedWithin(spans: seq<Span>, id: string, d: nat) {
    exists e: nat :: e <= d && RootedAt(spans, id, e)
  }

  lemma {:induction false} Chain(spans: seq<Span>, id: string, d: nat) returns (chain: set<string>)
    requires DistinctIds(spans) && RootedAt(spans, id, d)
    ensures chain <= Ids(spans) && |chain| == d + 1
    ensures forall x :: x in chain ==> RootedWithin(spans, x, d)
    decreases d
  {
    var s :| s in spans && s.spanID == id && (d > 0 ==> HasParent(s, Ids(spans)) && RootedAt(spans, s.parentID, d - 1));
    hide RootedAt, HasParent, DistinctIds;
    if d == 0 {
      chain := {id};
    } else {
      var above := Chain(spans, s.parentID, d - 1);
      if id in above {
        var e: nat :| e <= d - 1 && RootedAt(spans, id, e);
        DepthUnique(spans, id, e, d);
      }
      forall x | x in above ensures RootedWithin(spans, x, d) {
        var e: nat :| e <= d - 1 && RootedAt(spans, x, e);
      }
      chain := above + {id};
    }
  }

  // ----- The order of the result -----

  /** No span of the trace is its parent. */
  predicate IsRoot(spans: seq<Span>, s: Span) {
    s.parentID == "" || forall t :: t in spans ==> t.spanID != s.parentID
  }

  /** A chain of parents leads from s to a root. */
  ghost predicate LeadsToRoot(spans: seq<Span>, s: Span, d: nat)
    decreases d
  {
    if d == 0 then IsRoot(spans, s)
    else exists t :: t in spans && s.parentID != "" && t.spanID == s.parentID && LeadsToRoot(spans, t, d - 1)
  }

  ghost predicate IsRooted(spans: seq<Span>, s: Span) {
    exists d: nat :: LeadsToRoot(spans, s, d)
  }

  lemma {:induction false} LeadsToRootIff(spans: seq<Span>, s: Span, d: nat)
    requires DistinctIds(spans) && s in spans
    ensures LeadsToRoot(spans, s, d) <==> RootedAt(spans, s.spanID, d)
    decreases d
  {
    if d == 0 {
      assert IsRoot(spans, s) <==> !HasParent(s, Ids(spans));
      assert forall t :: t in spans && t.spanID == s.spanID ==> t == s;
    } else {
      assert forall t :: t in spans && t.spanID == s.spanID ==> t == s;
      forall t | t in spans && t.spanID == s.parentID ensures LeadsToRoot(spans, t, d - 1) <==> RootedAt(spans, s.parentID, d - 1) {
        LeadsToRootIff(spans, t, d - 1);
      }
    }
  }

  lemma IsRootedIff(spans: seq<Span>, s: Span)
    requires DistinctIds(spans) && s in spans
    ensures IsRooted(spans, s) <==> s.spanID in RootedIds(spans)
  {
    hide LeadsToRoot, RootedAt;
    forall d: nat ensures LeadsToRoot(spans, s, d) <==> RootedAt(spans, s.spanID, d) {
      LeadsToRootIff(spans, s, d);
    }
    assert s.spanID in Ids(spans);
    assert IsRooted(spans, s) <==> Rooted(spans, s.spanID) by {
      if d: nat :| LeadsToRoot(spans, s, d) {
        assert RootedAt(spans, s.spanID, d);
      }
      if d: nat :| RootedAt(spans, s.spanID, d) {
        assert LeadsToRoot(spans, s, d);
      }
    }
  }

  /** The rooted part of the result, and the rest. */
  lemma Parts(spans: seq<Span>, result: seq<Span>) returns (tree: seq<Span>)
    requires DistinctIds(spans) && IsTreeOrder(result, spans)
    ensures result == tree + Except(spans, RootedIds(spans)) && SpanIds(tree) == Forest(spans)
    ensures forall s :: s in spans && s.spanID in RootedIds(spans) ==> s in tree
    ensures forall s :: s in tree ==> s in spans
    ensures DistinctIds(tree)
  {
    hide RootedIds, PreOrders, Roots, RootedAt;
    tree := result[..|result| - |Unrooted(spans)|];
    ByIDFacts(spans);
    forall s | s in spans && s.spanID in RootedIds(spans) ensures s in tree {
      assert s.spanID in Ids(tree);
      var t :| t in tree && t.spanID == s.spanID;
      assert Canonical(t, spans);
    }
    forall s | s in tree ensures s in spans {
      assert Canonical(s, spans);
    }
  }

  /** IDs in order are spans in order. */
  lemma SpansBefore(spans: seq<Span>, tree: seq<Span>, x: Span, y: Span)
    requires DistinctIds(spans) && x in spans && y in spans && forall s :: s in tree ==> s in spans
    requires Before(SpanIds(tree), x.spanID, y.spanID)
    ensures Before(tree, x, y)
  {
    var p, q :| 0 <= p < q < |tree| && SpanIds(tree)[p] == x.spanID && SpanIds(tree)[q] == y.spanID;
    assert tree[p] in spans && tree[q] in spans;
  }

  /** Roots stand in input order, and so do the children of a rooted span. */
  lemma SiblingsInInputOrder(spans: seq<Span>, result: seq<Span>, i: nat, j: nat)
    requires DistinctIds(spans) && IsTreeOrder(result, spans) && i < j < |spans|
    requires || (IsRoot(spans, spans[i]) && IsRoot(spans, spans[j]))
             || (&& IsRooted(spans, spans[i]) && !IsRoot(spans, spans[i])
                 && spans[i].parentID == spans[j].parentID)
    ensures Before(result, spans[i], spans[j])
  {
    hide IsTreeOrder, Except, PreOrders, LeadsToRoot, RootedAt;
    var x, y := spans[i], spans[j];
    var tree := Parts(spans, result);
    var ids := Ids(spans);
    assert IsRoot(spans, x) <==> !HasParent(x, ids);
    assert IsRoot(spans, y) <==> !HasParent(y, ids);
    if IsRoot(spans, x) && IsRoot(spans, y) {
      RootsInOrder(spans, ids, i, j);
      WalkInOrder(spans, Roots(spans, ids), |spans|, x.spanID, y.spanID);
    } else {
      IsRootedIff(spans, x);
      SiblingsInForest(spans, i, j);
    }
    SpansBefore(spans, tree, x, y);
    BeforeConcat(tree, Except(spans, RootedIds(spans)), x, y);
  }

  lemma SiblingsInForest(spans: seq<Span>, i: nat, j: nat)
    requires DistinctIds(spans) && i < j < |spans| && spans[i].spanID in RootedIds(spans)
    requires HasParent(spans[i], Ids(spans)) && spans[i].parentID == spans[j].parentID
    ensures Before(Forest(spans), spans[i].spanID, spans[j].spanID)
  {
    hide Forest, PreOrders, PreOrder, Kids;
    var x, y, ids := spans[i], spans[j], Ids(spans);
    var parent := x.parentID;
    var d: nat :| RootedAt(spans, x.spanID, d);
    DepthBound(spans, x.spanID, d);
    assert d > 0 && RootedAt(spans, parent, d - 1) by {
      assert forall t :: t in spans && t.spanID == x.spanID ==> t == x;
    }
    var a, b := Subtree(spans, parent, d - 1);
    var kids := PreOrders(spans, Kids(spans, ids, parent), |spans| - d);
    Unfold(spans, parent, |spans| - d + 1);
    KidsInOrder(spans, ids, parent, i, j);
    WalkInOrder(spans, Kids(spans, ids, parent), |spans| - d, x.spanID, y.spanID);
    BeforeConcat([parent], kids, x.spanID, y.spanID);
    BeforeConcat(a, [parent] + kids, x.spanID, y.spanID);
    BeforeConcat(a + ([parent] + kids), b, x.spanID, y.spanID);
  }

  /** What reaches no root stands last, in input order. */
  lemma RestLastInInputOrder(spans: seq<Span>, result: seq<Span>, i: nat, j: nat)
    requires DistinctIds(spans) && IsTreeOrder(result, spans) && i < |spans| && j < |spans|
    requires !IsRooted(spans, spans[j])
    requires IsRooted(spans, spans[i]) || i < j
    ensures Before(result, spans[i], spans[j])
  {
    hide IsTreeOrder, Except, PreOrders, LeadsToRoot, RootedAt, RootedIds, IsRooted;
    var tree := Parts(spans, result);
    var rest := Except(spans, RootedIds(spans));
    IsRootedIff(spans, spans[i]);
    IsRootedIff(spans, spans[j]);
    BeforeConcat(tree, rest, spans[i], spans[j]);
    RestMember(spans, RootedIds(spans), j);
    if !IsRooted(spans, spans[i]) {
      RestInOrder(spans, RootedIds(spans), i, j);
    }
  }

  // ----- Subtrees -----

  /** s is k parent steps below a. */
  ghost predicate Below(spans: seq<Span>, s: Span, a: Span, k: nat)
    decreases k
  {
    if k == 0 then s == a
    else exists t :: t in spans && s.parentID != "" && t.spanID == s.parentID && Below(spans, t, a, k - 1)
  }

  ghost predicate Descends(spans: seq<Span>, s: Span, a: Span) {
    exists k: nat :: Below(spans, s, a, k)
  }

  lemma {:induction false} BelowLeadsToRoot(spans: seq<Span>, s: Span, a: Span, k: nat, d: nat)
    requires Below(spans, s, a, k) && LeadsToRoot(spans, a, d)
    ensures LeadsToRoot(spans, s, d + k)
    decreases k
  {
    if k > 0 {
      var t :| t in spans && s.parentID != "" && t.spanID == s.parentID && Below(spans, t, a, k - 1);
      BelowLeadsToRoot(spans, t, a, k - 1, d);
    }
  }

  lemma {:induction false} BlockBelow(spans: seq<Span>, a: Span, s: Span, k: nat, levels: nat)
    returns (u: seq<string>, v: seq<string>)
    requires s in spans && Below(spans, s, a, k) && k <= levels
    ensures PreOrder(spans, a.spanID, levels) == u + PreOrder(spans, s.spanID, levels - k) + v
    decreases k
  {
    hide PreOrders, PreOrder, Kids;
    if k == 0 {
      u, v := [], [];
      assert [] + PreOrder(spans, s.spanID, levels) + [] == PreOrder(spans, s.spanID, levels);
    } else {
      var t :| t in spans && s.parentID != "" && t.spanID == s.parentID && Below(spans, t, a, k - 1);
      var u1, v1 := BlockBelow(spans, a, t, k - 1, levels);
      Unfold(spans, t.spanID, levels - k + 1);
      KidsFacts(spans, Ids(spans), t.spanID);
      assert HasParent(s, Ids(spans));
      var u2, v2 := Block(spans, Kids(spans, Ids(spans), t.spanID), levels - k, s.spanID);
      var block := PreOrder(spans, s.spanID, levels - k);
      assert u1 + ([t.spanID] + (u2 + block + v2)) + v1 == (u1 + [t.spanID] + u2) + block + (v2 + v1);
      u, v := u1 + [t.spanID] + u2, v2 + v1;
    }
  }

  lemma {:induction false} WalkDescends(spans: seq<Span>, a: Span, levels: nat, x: string) returns (s: Span)
    requires a in spans && x in PreOrder(spans, a.spanID, levels)
    ensures s in spans && s.spanID == x && Descends(spans, s, a)
    decreases levels
  {
    if x == a.spanID {
      s := a;
      assert Below(spans, a, a, 0);
    } else {
      var kids := Kids(spans, Ids(spans), a.spanID);
      var kid := WalkedFrom(spans, kids, levels - 1, x);
      KidsFacts(spans, Ids(spans), a.spanID);
      var c :| c in spans && c.spanID == kid && HasParent(c, Ids(spans)) && c.parentID == a.spanID;
      s := WalkDescends(spans, c, levels - 1, x);
      var k: nat :| Below(spans, s, c, k);
      BelowStep(spans, s, c, a, k);
    }
  }

  lemma {:induction false} WalkedFrom(spans: seq<Span>, ids: seq<string>, levels: nat, x: string) returns (kid: string)
    requires x in PreOrders(spans, ids, levels)
    ensures kid in ids && x in PreOrder(spans, kid, levels)
  {
    var n := |ids| - 1;
    if x in PreOrder(spans, ids[n], levels) {
      kid := ids[n];
    } else {
      kid := WalkedFrom(spans, ids[..n], levels, x);
    }
  }

  lemma {:induction false} BelowStep(spans: seq<Span>, s: Span, c: Span, a: Span, k: nat)
    requires Below(spans, s, c, k) && a in spans && c.parentID != "" && c.parentID == a.spanID
    ensures Below(spans, s, a, k + 1)
    decreases k
  {
    if k == 0 {
      assert Below(spans, a, a, 0);
    } else {
      var t :| t in spans && s.parentID != "" && t.spanID == s.parentID && Below(spans, t, c, k - 1);
      BelowStep(spans, t, c, a, k - 1);
    }
  }

  /** Where the subtree of a rooted span stands in the forest: all that descends from it, and nothing else. */
  lemma SubtreeRange(spans: seq<Span>, a: Span) returns (from: nat, to: nat)
    requires DistinctIds(spans) && a in spans && IsRooted(spans, a)
    ensures from <= to <= |Forest(spans)|
    ensures forall s :: s in spans && Descends(spans, s, a) ==> s.spanID in Forest(spans)[from..to]
    ensures forall x :: x in Forest(spans)[from..to] ==> exists s :: s in spans && s.spanID == x && Descends(spans, s, a)
  {
    hide Forest, PreOrder, LeadsToRoot, RootedAt, Below, DistinctIds;
    var d: nat :| LeadsToRoot(spans, a, d);
    LeadsToRootIff(spans, a, d);
    DepthBound(spans, a.spanID, d);
    var u, v := Subtree(spans, a.spanID, d);
    var block := PreOrder(spans, a.spanID, |spans| - d);
    from, to := |u|, |u| + |block|;
    assert Forest(spans)[from..to] == block;
    forall s | s in spans && Descends(spans, s, a) ensures s.spanID in block {
      var k: nat :| Below(spans, s, a, k);
      BelowLeadsToRoot(spans, s, a, k, d);
      LeadsToRootIff(spans, s, d + k);
      DepthBound(spans, s.spanID, d + k);
      var u2, v2 := BlockBelow(spans, a, s, k, |spans| - d);
      Unfold(spans, s.spanID, |spans| - d - k);
      assert block[|u2|] == s.spanID;
    }
    forall x | x in block ensures exists s :: s in spans && s.spanID == x && Descends(spans, s, a) {
      var s := WalkDescends(spans, a, |spans| - d, x);
    }
  }

  lemma DescendantInRange(
    spans: seq<Span>, result: seq<Span>, tree: seq<Span>, a: Span, p: nat, from: nat, to: nat)
    requires DistinctIds(spans) && DistinctIds(tree) && IsRooted(spans, a) && a in spans
    requires result == tree + Except(spans, RootedIds(spans)) && SpanIds(tree) == Forest(spans)
    requires from <= to <= |Forest(spans)| && p < |result| && Descends(spans, result[p], a)
    requires forall s :: s in tree ==> s in spans
    requires forall s :: s in spans && Descends(spans, s, a) ==> s.spanID in Forest(spans)[from..to]
    ensures from <= p < to && p < |tree|
  {
    hide Forest, RootedIds, LeadsToRoot;
    RestFacts(spans, RootedIds(spans));
    var s := result[p];
    assert s in spans;
    DescendantRooted(spans, s, a);
    IsRootedIff(spans, s);
    assert p < |tree|;
    assert s.spanID in Forest(spans)[from..to];
    var i :| 0 <= i < to - from && Forest(spans)[from..to][i] == s.spanID;
    assert SpanIds(tree)[from + i] == s.spanID == SpanIds(tree)[p];
    assert tree[from + i].spanID == tree[p].spanID;
  }

  lemma DescendantRooted(spans: seq<Span>, s: Span, a: Span)
    requires Descends(spans, s, a) && IsRooted(spans, a)
    ensures IsRooted(spans, s)
  {
    var k: nat :| Below(spans, s, a, k);
    var d: nat :| LeadsToRoot(spans, a, d);
    BelowLeadsToRoot(spans, s, a, k, d);
  }

  lemma {:induction false} RestFacts(spans: seq<Span>, ids: set<string>)
    ensures forall s :: s in Except(spans, ids) ==> s in spans && s.spanID !in ids
  {
    if spans != [] {
      RestFacts(spans[..|spans| - 1], ids);
    }
  }

  /** Between two spans of a subtree stand only spans of that subtree. */
  lemma SubtreesContiguous(spans: seq<Span>, result: seq<Span>, a: Span, p: nat, m: nat, q: nat)
    requires DistinctIds(spans) && IsTreeOrder(result, spans) && a in spans && IsRooted(spans, a)
    requires p <= m <= q < |result| && Descends(spans, result[p], a) && Descends(spans, result[q], a)
    ensures Descends(spans, result[m], a)
  {
    hide PreOrders, LeadsToRoot, RootedAt, RootedIds, IsRooted, Descends, Except, Forest, IsTreeOrder, DistinctIds;
    var tree := Parts(spans, result);
    var from, to := SubtreeRange(spans, a);
    DescendantInRange(spans, result, tree, a, p, from, to);
    DescendantInRange(spans, result, tree, a, q, from, to);
    RangeDescends(spans, tree, a, m, from, to);
    assert result[m] == tree[m];
  }

  lemma RangeDescends(spans: seq<Span>, tree: seq<Span>, a: Span, m: nat, from: nat, to: nat)
    requires DistinctIds(spans) && SpanIds(tree) == Forest(spans) && forall s :: s in tree ==> s in spans
    requires from <= m < to <= |Forest(spans)|
    requires forall x :: x in Forest(spans)[from..to] ==> exists s :: s in spans && s.spanID == x && Descends(spans, s, a)
    ensures m < |tree| && Descends(spans, tree[m], a)
  {
    hide Forest, Descends;
    assert |SpanIds(tree)| == |tree|;
    var x := Forest(spans)[from..to][m - from];
    assert x in Forest(spans)[from..to] && x == SpanIds(tree)[m] == tree[m].spanID;
    var s :| s in spans && s.spanID == x && Descends(spans, s, a);
    assert tree[m] in spans && s == tree[m];
  }
}
