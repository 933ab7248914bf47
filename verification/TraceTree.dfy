/**
 Ordering the spans of one trace as a tree (internal/tracing/traces_get.go, buildTree).

 The parent relation comes from the wire, so it may be cyclic, may point outside
 the trace, and span IDs may repeat.
 */
module TraceTree {
  import opened Sequences

  datatype Span = Span(spanID: string, parentID: string, name: string)

  // ----- The parent relation -----

  function Ids(spans: seq<Span>): set<string> {
    set s | s in spans :: s.spanID
  }

  predicate DistinctIds(spans: seq<Span>) {
    forall i, j :: 0 <= i < j < |spans| ==> spans[i].spanID != spans[j].spanID
  }

  predicate HasParent(s: Span, ids: set<string>) {
    s.parentID != "" && s.parentID in ids
  }

  /** The span each ID stands for: the last one that carries it. */
  function ByID(spans: seq<Span>): map<string, Span> {
    if spans == [] then map[]
    else
      var last := spans[|spans| - 1];
      ByID(spans[..|spans| - 1])[last.spanID := last]
  }

  /** IDs of the spans whose parent is id, in input order. */
  function Kids(spans: seq<Span>, ids: set<string>, id: string): seq<string> {
    if spans == [] then []
    else
      var last := spans[|spans| - 1];
      Kids(spans[..|spans| - 1], ids, id)
      + if HasParent(last, ids) && last.parentID == id then [last.spanID] else []
  }

  /** IDs of the spans without a parent in the trace, in input order. */
  function Roots(spans: seq<Span>, ids: set<string>): seq<string> {
    if spans == [] then []
    else
      var last := spans[|spans| - 1];
      Roots(spans[..|spans| - 1], ids) + if HasParent(last, ids) then [] else [last.spanID]
  }

  /** Some chain of d parent steps leads from id to a root. */
  ghost predicate RootedAt(spans: seq<Span>, id: string, d: nat)
    decreases d
  {
    exists s ::
      && s in spans
      && s.spanID == id
      && if d == 0 then !HasParent(s, Ids(spans))
         else HasParent(s, Ids(spans)) && RootedAt(spans, s.parentID, d - 1)
  }

  ghost predicate Rooted(spans: seq<Span>, id: string) {
    exists d: nat :: RootedAt(spans, id, d)
  }

  // ----- The order -----

  /** Pre-order walk: a span, then the walks of its children in input order. The
      forest theorem below shows that |spans| levels always suffice. */
  function PreOrder(spans: seq<Span>, id: string, levels: nat): seq<string>
    decreases levels, 1, 0
  {
    if levels == 0 then [] else [id] + PreOrders(spans, Kids(spans, Ids(spans), id), levels - 1)
  }

  function PreOrders(spans: seq<Span>, ids: seq<string>, levels: nat): seq<string>
    decreases levels, 2, |ids|
  {
    if ids == [] then []
    else PreOrders(spans, ids[..|ids| - 1], levels) + PreOrder(spans, ids[|ids| - 1], levels)
  }

  function SpanIds(spans: seq<Span>): seq<string> {
    seq(|spans|, i requires 0 <= i < |spans| => spans[i].spanID)
  }

  /** The IDs whose parent chain reaches a root. */
  ghost function RootedIds(spans: seq<Span>): set<string> {
    set id | id in Ids(spans) && Rooted(spans, id)
  }

  /** The spans whose ID is in ids, in input order, and those whose ID is not. */
  function Only(spans: seq<Span>, ids: set<string>): seq<Span> {
    if spans == [] then []
    else
      var last := spans[|spans| - 1];
      Only(spans[..|spans| - 1], ids) + if last.spanID in ids then [last] else []
  }

  function Except(spans: seq<Span>, ids: set<string>): seq<Span> {
    if spans == [] then []
    else
      var last := spans[|spans| - 1];
      Except(spans[..|spans| - 1], ids) + if last.spanID in ids then [] else [last]
  }

  /** The spans whose parent chain never reaches a root, in input order. */
  ghost function Unrooted(spans: seq<Span>): seq<Span> {
    Except(spans, RootedIds(spans))
  }

  /** No span whose ID is in ids shares it with another span. */
  predicate Unshared(spans: seq<Span>, ids: set<string>) {
    forall i, j :: 0 <= i < j < |spans| && spans[i].spanID in ids ==> spans[i].spanID != spans[j].spanID
  }

  /** Each span stands after its parent. */
  predicate ParentsFirst(tree: seq<Span>, ids: set<string>) {
    tree == [] ||
    var init, last := tree[..|tree| - 1], tree[|tree| - 1];
    ParentsFirst(init, ids) && (HasParent(last, ids) ==> last.parentID in Ids(init))
  }

  // ----- Facts about the relation -----

  lemma {:induction false} ByIDFacts(spans: seq<Span>)
    ensures ByID(spans).Keys == Ids(spans)
    ensures forall id :: id in ByID(spans) ==> ByID(spans)[id] in spans && ByID(spans)[id].spanID == id
    ensures DistinctIds(spans) ==> forall s :: s in spans ==> ByID(spans)[s.spanID] == s
  {
    if spans != [] {
      var init, last := spans[..|spans| - 1], spans[|spans| - 1];
      ByIDFacts(init);
      assert spans == init + [last];
      assert Ids(spans) == Ids(init) + {last.spanID};
    }
  }

  lemma {:induction false} KidsFacts(spans: seq<Span>, ids: set<string>, id: string)
    ensures forall k :: k in Kids(spans, ids, id) <==>
              exists s :: s in spans && s.spanID == k && HasParent(s, ids) && s.parentID == id
    ensures DistinctIds(spans) ==> NoRepeats(Kids(spans, ids, id))
  {
    if spans != [] {
      var init, last := spans[..|spans| - 1], spans[|spans| - 1];
      KidsFacts(init, ids, id);
      assert spans == init + [last];
      if DistinctIds(spans) && last.spanID in Kids(init, ids, id) {
        assert false;
      }
    }
  }

  lemma {:induction false} RootsFacts(spans: seq<Span>, ids: set<string>)
    ensures forall k :: k in Roots(spans, ids) <==>
              exists s :: s in spans && s.spanID == k && !HasParent(s, ids)
    ensures DistinctIds(spans) ==> NoRepeats(Roots(spans, ids))
  {
    if spans != [] {
      var init, last := spans[..|spans| - 1], spans[|spans| - 1];
      RootsFacts(init, ids);
      assert spans == init + [last];
      if DistinctIds(spans) && last.spanID in Roots(init, ids) {
        assert false;
      }
    }
  }

  lemma KidRooted(spans: seq<Span>, id: string, d: nat, kid: string)
    requires RootedAt(spans, id, d)
    requires kid in Kids(spans, Ids(spans), id)
    ensures RootedAt(spans, kid, d + 1)
    ensures kid in Ids(spans)
  {
    KidsFacts(spans, Ids(spans), id);
  }

  // With distinct IDs a span has one depth, and its parent is one level up.
  lemma {:induction false} DepthUnique(spans: seq<Span>, id: string, d: nat, e: nat)
    requires DistinctIds(spans)
    requires RootedAt(spans, id, d) && RootedAt(spans, id, e)
    ensures d == e
    decreases d
  {
    ByIDFacts(spans);
    if d != 0 && e != 0 {
      DepthUnique(spans, ByID(spans)[id].parentID, d - 1, e - 1);
    }
  }

  /** a is k parent steps above x. */
  ghost predicate Above(spans: seq<Span>, a: string, x: string, k: nat)
    decreases k
  {
    if k == 0 then x == a
    else x in ByID(spans) && HasParent(ByID(spans)[x], Ids(spans)) && Above(spans, a, ByID(spans)[x].parentID, k - 1)
  }

  ghost predicate Under(spans: seq<Span>, x: string, a: string) {
    exists k: nat :: Above(spans, a, x, k)
  }

  lemma {:induction false} AboveDepth(spans: seq<Span>, a: string, x: string, k: nat, d: nat)
    requires DistinctIds(spans)
    requires Above(spans, a, x, k) && RootedAt(spans, x, d)
    ensures k <= d && RootedAt(spans, a, d - k)
    decreases k
  {
    ByIDFacts(spans);
    if k != 0 {
      AboveDepth(spans, a, ByID(spans)[x].parentID, k - 1, d - 1);
    }
  }

  lemma {:induction false} AboveStep(spans: seq<Span>, a: string, b: string, x: string, k: nat)
    requires Above(spans, a, x, k)
    requires a in ByID(spans) && HasParent(ByID(spans)[a], Ids(spans)) && ByID(spans)[a].parentID == b
    ensures Above(spans, b, x, k + 1)
    decreases k
  {
    if k == 0 {
      assert Above(spans, b, b, 0);
    } else {
      AboveStep(spans, a, b, ByID(spans)[x].parentID, k - 1);
    }
  }

  lemma NotUnderSameDepth(spans: seq<Span>, x: string, a: string, d: nat)
    requires DistinctIds(spans) && x != a
    requires RootedAt(spans, x, d) && RootedAt(spans, a, d)
    ensures !Under(spans, x, a)
  {
    if k: nat :| Above(spans, a, x, k) {
      AboveDepth(spans, a, x, k, d);
      DepthUnique(spans, a, d, d - k);
    }
  }

  // ----- The walk -----

  /** result holds exactly one span per visited ID, and only rooted IDs are visited. */
  ghost predicate TreeState(spans: seq<Span>, visited: set<string>, result: seq<Span>) {
    && visited == Ids(result) <= Ids(spans)
    && (forall id {:trigger Rooted(spans, id)} :: id in visited ==> Rooted(spans, id))
    && (forall s {:trigger Canonical(s, spans)} :: s in result ==> Canonical(s, spans))
    && DistinctIds(result)
  }

  ghost predicate Canonical(s: Span, spans: seq<Span>) {
    s.spanID in ByID(spans) && s == ByID(spans)[s.spanID]
  }

  /** Parents are visited, and placed, before their children. */
  ghost predicate UpClosed(spans: seq<Span>, visited: set<string>, result: seq<Span>) {
    && ParentsFirst(result, Ids(spans))
    && forall id {:trigger ParentIn(spans, id, visited)} :: id in visited ==> ParentIn(spans, id, visited)
  }

  ghost predicate ParentIn(spans: seq<Span>, id: string, visited: set<string>) {
    id in ByID(spans) && HasParent(ByID(spans)[id], Ids(spans)) ==> ByID(spans)[id].parentID in visited
  }

  /** Every ID visited since v has its children visited. */
  ghost predicate KidsVisited(spans: seq<Span>, v: set<string>, visited: set<string>) {
    forall x, c :: x in visited && x !in v && c in Kids(spans, Ids(spans), x) ==> c in visited
  }

  /** Where a walk can start so that it adds the whole pre-order of id. */
  ghost predicate Untouched(spans: seq<Span>, visited: set<string>, result: seq<Span>, id: string, levels: nat) {
    && DistinctIds(spans) && UpClosed(spans, visited, result)
    && id !in visited && id in ByID(spans)
    && levels >= |Ids(spans) - visited|
    && ParentIn(spans, id, visited)
  }

  /** From (v, r) to (visited, result) exactly the IDs in added were appended, all at or below a. */
  ghost predicate Appended(
    spans: seq<Span>, v: set<string>, r: seq<Span>, visited: set<string>, result: seq<Span>,
    added: seq<string>, tops: seq<string>)
  {
    && UpClosed(spans, visited, result)
    && SpanIds(result) == SpanIds(r) + added
    && forall x :: x in visited && x !in v ==> exists j :: 0 <= j < |tops| && Under(spans, x, tops[j])
  }

  // The maps buildTree fills describe the spans.
  ghost predicate Indexed(spans: seq<Span>, byID: map<string, Span>, children: map<string, seq<string>>) {
    && byID == ByID(spans)
    && forall id {:trigger Children(children, id)} :: id in Ids(spans) ==> Children(children, id) == Kids(spans, Ids(spans), id)
  }

  // Go's map lookup: a missing key reads as the empty list.
  function Children(children: map<string, seq<string>>, id: string): seq<string> {
    if id in children then children[id] else []
  }

  /** The recursive closure of buildTree; the two variables it captures are passed in and out. */
  method Walk(
    ghost spans: seq<Span>, byID: map<string, Span>, children: map<string, seq<string>>,
    id: string, v: set<string>, r: seq<Span>, ghost d: nat, ghost levels: nat)
    returns (visited: set<string>, result: seq<Span>)
    requires Indexed(spans, byID, children) && TreeState(spans, v, r)
    requires id in Ids(spans) && RootedAt(spans, id, d)
    ensures TreeState(spans, visited, result)
    ensures v <= visited && id in visited
    ensures KidsVisited(spans, v, visited)
    // On distinct IDs an unvisited span adds exactly its pre-order walk.
    ensures Untouched(spans, v, r, id, levels) ==>
              Appended(spans, v, r, visited, result, PreOrder(spans, id, levels), [id])
    decreases |Ids(spans) - v|, 0
  {
    visited, result := v, r;
    if id in visited {
      return;
    }
    ghost var forest := Untouched(spans, v, r, id, levels);
    Enter(spans, v, r, id, d, levels, forest);
    visited := visited + {id};
    if id in byID {
      result := result + [byID[id]];
    }
    visited, result := WalkChildren(spans, byID, children, id, visited, result, d, levels, forest);
    Leave(spans, v, r, visited, result, id, d, levels, forest);
  }

  // The loop over children[id].
  method WalkChildren(
    ghost spans: seq<Span>, byID: map<string, Span>, children: map<string, seq<string>>,
    id: string, v: set<string>, r: seq<Span>, ghost d: nat, ghost levels: nat, ghost forest: bool)
    returns (visited: set<string>, result: seq<Span>)
    requires Indexed(spans, byID, children) && KidList(spans, id, d, Children(children, id))
    requires id in v && KidsDone(spans, v, r, v, r, [], levels, forest)
    requires forest ==> DistinctIds(spans) && levels > |Ids(spans) - v|
    requires forest ==> forall c :: c in Children(children, id) ==> c !in v
    ensures KidsDone(spans, v, r, visited, result, Children(children, id), levels, forest)
    decreases |Ids(spans) - v|, 1
  {
    hide TreeState, KidList, KidsVisited, Appended, Untouched, RootedAt, PreOrders, PreOrder, DistinctIds, Indexed;
    visited, result := v, r;
    var kids := Children(children, id);
    assert kids[..0] == [] && kids[..|kids|] == kids;
    for i := 0 to |kids|
      invariant KidsDone(spans, v, r, visited, result, kids[..i], levels, forest)
    {
      ghost var v2, r2 := visited, result;
      BeforeKid(spans, v, r, v2, r2, id, d, kids, i, levels, forest);
      visited, result := Walk(spans, byID, children, kids[i], visited, result, d + 1,
                              if forest then levels - 1 else 0);
      AfterKid(spans, v, r, v2, r2, visited, result, kids, i, levels, forest);
    }
  }

  /** kids are IDs of spans one level below id, at depth d. */
  ghost predicate KidList(spans: seq<Span>, id: string, d: nat, kids: seq<string>) {
    && (forall c {:trigger c in kids} :: c in kids ==> c in Ids(spans) && RootedAt(spans, c, d + 1))
    && (DistinctIds(spans) ==> NoRepeats(kids))
    && (DistinctIds(spans) ==> forall c :: c in kids ==> c in ByID(spans) && ByID(spans)[c].parentID == id)
  }

  /** After the children in done have been walked, starting from (v, r). */
  ghost predicate KidsDone(
    spans: seq<Span>, v: set<string>, r: seq<Span>, visited: set<string>, result: seq<Span>,
    done: seq<string>, levels: nat, forest: bool)
  {
    && TreeState(spans, visited, result) && v <= visited
    && (forall c :: c in done ==> c in visited)
    && KidsVisited(spans, v, visited)
    && (forest ==> levels > 0 && Appended(spans, v, r, visited, result, PreOrders(spans, done, levels - 1), done))
  }

  lemma KidsAreKidList(spans: seq<Span>, id: string, d: nat)
    requires RootedAt(spans, id, d)
    ensures KidList(spans, id, d, Kids(spans, Ids(spans), id))
  {
    KidsFacts(spans, Ids(spans), id);
    ByIDFacts(spans);
    forall c | c in Kids(spans, Ids(spans), id) ensures c in Ids(spans) && RootedAt(spans, c, d + 1) {
      KidRooted(spans, id, d, c);
    }
  }

  lemma BeforeKid(
    spans: seq<Span>, v: set<string>, r: seq<Span>, v2: set<string>, r2: seq<Span>,
    id: string, d: nat, kids: seq<string>, i: nat, levels: nat, forest: bool)
    requires KidList(spans, id, d, kids) && i < |kids| && id in v
    requires forest ==> DistinctIds(spans) && levels > |Ids(spans) - v| && kids[i] !in v
    requires KidsDone(spans, v, r, v2, r2, kids[..i], levels, forest)
    ensures kids[i] in Ids(spans) && RootedAt(spans, kids[i], d + 1)
    ensures |Ids(spans) - v2| <= |Ids(spans) - v|
    ensures forest ==> Untouched(spans, v2, r2, kids[i], levels - 1)
  {
    assert kids[i] in kids;
    SubsetCardinality(Ids(spans) - v2, Ids(spans) - v);
    if forest {
      UntouchedSibling(spans, v, r, v2, r2, id, d, kids, i, levels);
    }
  }

  lemma AfterKid(
    spans: seq<Span>, v: set<string>, r: seq<Span>, v2: set<string>, r2: seq<Span>, v3: set<string>, r3: seq<Span>,
    kids: seq<string>, i: nat, levels: nat, forest: bool)
    requires i < |kids|
    requires KidsDone(spans, v, r, v2, r2, kids[..i], levels, forest)
    requires TreeState(spans, v3, r3) && v2 <= v3 && kids[i] in v3 && KidsVisited(spans, v2, v3)
    requires forest ==> Appended(spans, v2, r2, v3, r3, PreOrder(spans, kids[i], levels - 1), [kids[i]])
    ensures KidsDone(spans, v, r, v3, r3, kids[..i + 1], levels, forest)
  {
    assert kids[..i + 1] == kids[..i] + [kids[i]];
    if forest {
      AppendedTwice(spans, v, r, v2, r2, v3, r3, kids, i, levels - 1);
    }
  }

  // Visiting a rooted ID and appending its span keeps the state invariant.
  lemma EnterState(spans: seq<Span>, v: set<string>, r: seq<Span>, id: string, d: nat)
    requires TreeState(spans, v, r) && id in Ids(spans) && id !in v && RootedAt(spans, id, d)
    requires id in ByID(spans)
    ensures TreeState(spans, v + {id}, r + [ByID(spans)[id]])
    ensures KidsVisited(spans, v + {id}, v + {id})
    ensures SpanIds(r + [ByID(spans)[id]]) == SpanIds(r) + [id]
  {
    hide RootedAt, ByID;
    ByIDFacts(spans);
    var r1 := r + [ByID(spans)[id]];
    assert SpanIds(r1) == SpanIds(r) + [id];
    assert Ids(r1) == Ids(r) + {id};
    assert DistinctIds(r1) by {
      forall i | 0 <= i < |r| ensures r[i].spanID != id {
        assert r[i] in r;
      }
    }
    assert Rooted(spans, id);
  }

  lemma Enter(spans: seq<Span>, v: set<string>, r: seq<Span>, id: string, d: nat, levels: nat, forest: bool)
    requires TreeState(spans, v, r) && id in Ids(spans) && id !in v && RootedAt(spans, id, d)
    requires forest ==> Untouched(spans, v, r, id, levels)
    ensures id in ByID(spans) && |Ids(spans) - (v + {id})| < |Ids(spans) - v|
    ensures KidList(spans, id, d, Kids(spans, Ids(spans), id))
    ensures KidsDone(spans, v + {id}, r + [ByID(spans)[id]], v + {id}, r + [ByID(spans)[id]], [], levels, forest)
    ensures forest ==> levels > |Ids(spans) - (v + {id})|
    ensures forest ==> forall c :: c in Kids(spans, Ids(spans), id) ==> c !in v + {id}
  {
    hide TreeState, KidsVisited, Appended, KidList, RootedAt, Kids, ByID, DistinctIds;
    ByIDFacts(spans);
    EnterState(spans, v, r, id, d);
    KidsAreKidList(spans, id, d);
    SubsetSize(Ids(spans) - (v + {id}), Ids(spans) - v, id);
    if forest {
      EnterForest(spans, v, r, id, d, levels);
    }
  }

  lemma Leave(
    spans: seq<Span>, v: set<string>, r: seq<Span>, visited: set<string>, result: seq<Span>,
    id: string, d: nat, levels: nat, forest: bool)
    requires id in ByID(spans) && (forest ==> DistinctIds(spans))
    requires KidsDone(spans, v + {id}, r + [ByID(spans)[id]], visited, result, Kids(spans, Ids(spans), id), levels, forest)
    ensures TreeState(spans, visited, result) && v <= visited && id in visited
    ensures KidsVisited(spans, v, visited)
    ensures forest ==> Appended(spans, v, r, visited, result, PreOrder(spans, id, levels), [id])
  {
    if forest {
      ByIDFacts(spans);
      assert SpanIds(r + [ByID(spans)[id]]) == SpanIds(r) + [id];
      LeaveForest(spans, v, r, visited, result, id, d, levels);
    }
  }

  // In a forest no child of an unvisited span has been visited.
  lemma EnterForest(spans: seq<Span>, v: set<string>, r: seq<Span>, id: string, d: nat, levels: nat)
    requires TreeState(spans, v, r) && Untouched(spans, v, r, id, levels) && RootedAt(spans, id, d)
    ensures levels > |Ids(spans) - (v + {id})|
    ensures forall c :: c in Kids(spans, Ids(spans), id) ==> c !in v + {id}
    ensures Appended(spans, v + {id}, r + [ByID(spans)[id]], v + {id}, r + [ByID(spans)[id]],
                     [], [])
  {
    hide UpClosed, ParentIn, RootedAt, Kids, Canonical, DistinctIds, HasParent, Rooted, ByID;
    var v1, r1 := v + {id}, r + [ByID(spans)[id]];
    ByIDFacts(spans);
    SubsetSize(Ids(spans) - v1, Ids(spans) - v, id);
    EnterKids(spans, v, r, id);
    EnterUpClosed(spans, v, r, id);
    assert SpanIds(r1) + [] == SpanIds(r1);
  }

  // A visited child would have a visited parent.
  lemma EnterKids(spans: seq<Span>, v: set<string>, r: seq<Span>, id: string)
    requires DistinctIds(spans) && id !in v && UpClosed(spans, v, r) && ParentIn(spans, id, v)
    ensures forall c :: c in Kids(spans, Ids(spans), id) ==> c !in v + {id}
  {
    ByIDFacts(spans);
    KidsFacts(spans, Ids(spans), id);
    forall c | c in Kids(spans, Ids(spans), id) ensures c !in v + {id} {
      assert !ParentIn(spans, c, v);
    }
  }

  lemma EnterUpClosed(spans: seq<Span>, v: set<string>, r: seq<Span>, id: string)
    requires UpClosed(spans, v, r) && v == Ids(r) && id in ByID(spans) && ParentIn(spans, id, v)
    ensures UpClosed(spans, v + {id}, r + [ByID(spans)[id]])
  {
    var r1 := r + [ByID(spans)[id]];
    ByIDFacts(spans);
    assert r1[..|r|] == r;
    forall x | x in v + {id} ensures ParentIn(spans, x, v + {id}) {
      assert x != id ==> ParentIn(spans, x, v);
    }
  }

  // Nor does walking earlier siblings visit a later one.
  lemma SiblingUnvisited(
    spans: seq<Span>, v1: set<string>, v: set<string>, id: string, d: nat, kids: seq<string>, i: nat)
    requires DistinctIds(spans) && KidList(spans, id, d, kids) && i < |kids| && kids[i] !in v1
    requires forall x :: x in v && x !in v1 ==> exists j :: 0 <= j < |kids[..i]| && Under(spans, x, kids[..i][j])
    ensures kids[i] !in v
  {
    if kids[i] in v {
      var j :| 0 <= j < |kids[..i]| && Under(spans, kids[i], kids[..i][j]);
      assert kids[i] in kids && kids[j] in kids;
      NotUnderSameDepth(spans, kids[i], kids[j], d + 1);
    }
  }

  lemma UntouchedSibling(
    spans: seq<Span>, v1: set<string>, r1: seq<Span>, v: set<string>, r: seq<Span>,
    id: string, d: nat, kids: seq<string>, i: nat, levels: nat)
    requires DistinctIds(spans) && KidList(spans, id, d, kids) && id in v1 && v1 <= v
    requires i < |kids| && kids[i] !in v1
    requires levels > |Ids(spans) - v1|
    requires Appended(spans, v1, r1, v, r, PreOrders(spans, kids[..i], levels - 1), kids[..i])
    ensures Untouched(spans, v, r, kids[i], levels - 1)
  {
    SiblingUnvisited(spans, v1, v, id, d, kids, i);
    SubsetCardinality(Ids(spans) - v, Ids(spans) - v1);
    assert kids[i] in kids;
    ByIDFacts(spans);
  }

  lemma AppendedTwice(
    spans: seq<Span>, v1: set<string>, r1: seq<Span>, v: set<string>, r: seq<Span>, v2: set<string>, r2: seq<Span>,
    kids: seq<string>, i: nat, levels: nat)
    requires i < |kids|
    requires Appended(spans, v1, r1, v, r, PreOrders(spans, kids[..i], levels), kids[..i])
    requires Appended(spans, v, r, v2, r2, PreOrder(spans, kids[i], levels), [kids[i]])
    ensures Appended(spans, v1, r1, v2, r2, PreOrders(spans, kids[..i + 1], levels), kids[..i + 1])
  {
    assert kids[..i + 1][..i] == kids[..i];
    var tops := kids[..i + 1];
    forall x | x in v2 && x !in v1 ensures exists j :: 0 <= j < |tops| && Under(spans, x, tops[j]) {
      if x in v {
        var j :| 0 <= j < i && Under(spans, x, kids[..i][j]);
        assert Under(spans, x, tops[j]);
      } else {
        assert Under(spans, x, tops[i]);
      }
    }
  }

  lemma LeaveForest(
    spans: seq<Span>, v: set<string>, r: seq<Span>, visited: set<string>, result: seq<Span>,
    id: string, d: nat, levels: nat)
    requires DistinctIds(spans) && id in ByID(spans) && levels > 0
    requires SpanIds(r + [ByID(spans)[id]]) == SpanIds(r) + [id]
    requires Appended(spans, v + {id}, r + [ByID(spans)[id]], visited, result,
                      PreOrders(spans, Kids(spans, Ids(spans), id), levels - 1), Kids(spans, Ids(spans), id))
    ensures Appended(spans, v, r, visited, result, PreOrder(spans, id, levels), [id])
  {
    var kids := Kids(spans, Ids(spans), id);
    ByIDFacts(spans);
    KidsFacts(spans, Ids(spans), id);
    forall x | x in visited && x !in v ensures Under(spans, x, [id][0]) {
      if x == id {
        assert Above(spans, id, id, 0);
      } else {
        var j :| 0 <= j < |kids| && Under(spans, x, kids[j]);
        assert kids[j] in kids;
        var k: nat :| Above(spans, kids[j], x, k);
        AboveStep(spans, kids[j], id, x, k);
      }
    }
  }

  lemma SubsetSize<T>(a: set<T>, b: set<T>, x: T)
    requires a <= b && x in b && x !in a
    ensures |a| < |b|
  {
    assert a <= b - {x};
    SubsetCardinality(a, b - {x});
  }

  lemma {:induction false} SubsetCardinality<T>(a: set<T>, b: set<T>)
    requires a <= b
    ensures |a| <= |b|
  {
    if x :| x in a {
      SubsetCardinality(a - {x}, b - {x});
    }
  }

  // ----- buildTree -----

  /** What a tree order of the spans is: one span per rooted ID, and on distinct
      IDs exactly the pre-order walk of the forest. */
  ghost predicate IsForestOrder(tree: seq<Span>, spans: seq<Span>) {
    && Ids(tree) == RootedIds(spans)
    && DistinctIds(tree)
    && (forall s :: s in tree ==> Canonical(s, spans))
    && (DistinctIds(spans) ==>
          && SpanIds(tree) == PreOrders(spans, Roots(spans, Ids(spans)), |spans|)
          && ParentsFirst(tree, Ids(spans)))
  }

  /** result is a forest order followed by the unrooted spans. */
  ghost predicate IsTreeOrder(result: seq<Span>, spans: seq<Span>) {
    && |Unrooted(spans)| <= |result|
    && var tree := result[..|result| - |Unrooted(spans)|];
       IsForestOrder(tree, spans) && result == tree + Unrooted(spans)
  }

  method BuildTree(spans: seq<Span>) returns (result: seq<Span>)
    ensures IsTreeOrder(result, spans)
  {
    if |spans| == 0 {
      assert PreOrders(spans, Roots(spans, Ids(spans)), |spans|) == [];
      return spans;
    }
    var byID, children, spanIDs := IndexSpans(spans);
    var roots := FindRoots(spans, spanIDs);
    var visited;
    visited, result := WalkRoots(spans, byID, children, roots);
    ghost var tree := result;
    for i := 0 to |spans|
      invariant result == tree + Except(spans[..i], visited)
    {
      assert spans[..i + 1][..i] == spans[..i];
      if spans[i].spanID !in visited {
        result := result + [spans[i]];
      }
    }
    assert spans[..|spans|] == spans;
    assert (tree + Unrooted(spans))[..|tree|] == tree;
  }

  method FindRoots(spans: seq<Span>, spanIDs: set<string>) returns (roots: seq<string>)
    ensures roots == Roots(spans, spanIDs)
  {
    roots := [];
    for i := 0 to |spans|
      invariant roots == Roots(spans[..i], spanIDs)
    {
      assert spans[..i + 1][..i] == spans[..i];
      var s := spans[i];
      if s.parentID == "" || s.parentID !in spanIDs {
        roots := roots + [s.spanID];
      }
    }
    assert spans[..|spans|] == spans;
  }

  method WalkRoots(
    ghost spans: seq<Span>, byID: map<string, Span>, children: map<string, seq<string>>, roots: seq<string>)
    returns (visited: set<string>, result: seq<Span>)
    requires Indexed(spans, byID, children) && roots == Roots(spans, Ids(spans))
    ensures IsForestOrder(result, spans) && visited == RootedIds(spans)
  {
    visited, result := {}, [];
    NothingVisited(spans);
    assert roots[..0] == [] && roots[..|roots|] == roots;
    for i := 0 to |roots|
      invariant KidsDone(spans, {}, [], visited, result, roots[..i], |spans| + 1, DistinctIds(spans))
    {
      ghost var v, r := visited, result;
      BeforeRoot(spans, v, r, roots, i);
      visited, result := Walk(spans, byID, children, roots[i], visited, result, 0, |spans|);
      AfterKid(spans, {}, [], v, r, visited, result, roots, i, |spans| + 1, DistinctIds(spans));
    }
    RootsDone(spans, visited, result, roots);
  }

  // The first two loops.
  method IndexSpans(spans: seq<Span>)
    returns (byID: map<string, Span>, children: map<string, seq<string>>, spanIDs: set<string>)
    ensures Indexed(spans, byID, children) && spanIDs == Ids(spans)
  {
    hide Kids, HasParent;
    byID, spanIDs := map[], {};
    for i := 0 to |spans|
      invariant byID == ByID(spans[..i]) && spanIDs == Ids(spans[..i])
    {
      assert spans[..i + 1] == spans[..i] + [spans[i]];
      byID := byID[spans[i].spanID := spans[i]];
      spanIDs := spanIDs + {spans[i].spanID};
    }
    assert spans[..|spans|] == spans;
    children := IndexChildren(spans, spanIDs);
  }

  method IndexChildren(spans: seq<Span>, spanIDs: set<string>) returns (children: map<string, seq<string>>)
    ensures ChildrenOf(spans, spanIDs, children)
  {
    children := map[];
    assert spans[..|spans|] == spans;
    for i := 0 to |spans|
      invariant ChildrenOf(spans[..i], spanIDs, children)
    {
      var s := spans[i];
      ghost var before := children;
      if s.parentID != "" && s.parentID in spanIDs {
        children := children[s.parentID := Children(children, s.parentID) + [s.spanID]];
      }
      NextChild(spans, spanIDs, i, before, children);
    }
  }

  ghost predicate ChildrenOf(spans: seq<Span>, ids: set<string>, children: map<string, seq<string>>) {
    forall id {:trigger Children(children, id)} :: Children(children, id) == Kids(spans, ids, id)
  }

  lemma NextChild(
    spans: seq<Span>, ids: set<string>, i: nat, before: map<string, seq<string>>, after: map<string, seq<string>>)
    requires i < |spans| && ChildrenOf(spans[..i], ids, before)
    requires after == if HasParent(spans[i], ids)
                      then before[spans[i].parentID := Children(before, spans[i].parentID) + [spans[i].spanID]]
                      else before
    ensures ChildrenOf(spans[..i + 1], ids, after)
  {
    assert spans[..i + 1][..i] == spans[..i];
    forall id ensures Children(after, id) == Kids(spans[..i + 1], ids, id) {
      assert Children(before, id) == Kids(spans[..i], ids, id);
    }
  }

  lemma BeforeRoot(spans: seq<Span>, v: set<string>, r: seq<Span>, roots: seq<string>, i: nat)
    requires roots == Roots(spans, Ids(spans)) && i < |roots|
    requires KidsDone(spans, {}, [], v, r, roots[..i], |spans| + 1, DistinctIds(spans))
    ensures roots[i] in Ids(spans) && RootedAt(spans, roots[i], 0)
    ensures DistinctIds(spans) ==> Untouched(spans, v, r, roots[i], |spans|)
  {
    RootsFacts(spans, Ids(spans));
    ByIDFacts(spans);
    assert roots[i] in roots;
    if DistinctIds(spans) {
      if roots[i] in v {
        assert false;
      }
      IdCount(spans);
      SubsetCardinality(Ids(spans) - v, Ids(spans));
    }
  }

  lemma {:induction false} RootedVisited(spans: seq<Span>, visited: set<string>, id: string, d: nat)
    requires KidsVisited(spans, {}, visited)
    requires forall c :: c in Roots(spans, Ids(spans)) ==> c in visited
    requires RootedAt(spans, id, d)
    ensures id in visited
    decreases d
  {
    hide Kids, Roots, HasParent;
    RootsFacts(spans, Ids(spans));
    if d > 0 {
      var s :| s in spans && s.spanID == id && HasParent(s, Ids(spans)) && RootedAt(spans, s.parentID, d - 1);
      RootedVisited(spans, visited, s.parentID, d - 1);
      KidsFacts(spans, Ids(spans), s.parentID);
    }
  }

  lemma VisitedAreRooted(spans: seq<Span>, visited: set<string>, tree: seq<Span>)
    requires TreeState(spans, visited, tree) && KidsVisited(spans, {}, visited)
    requires forall c :: c in Roots(spans, Ids(spans)) ==> c in visited
    ensures visited == RootedIds(spans)
  {
    forall id | id in RootedIds(spans) ensures id in visited {
      var d: nat :| RootedAt(spans, id, d);
      RootedVisited(spans, visited, id, d);
    }
    forall id | id in visited ensures id in RootedIds(spans) {
      assert Rooted(spans, id);
    }
  }

  lemma ForestDone(spans: seq<Span>, visited: set<string>, tree: seq<Span>)
    requires TreeState(spans, visited, tree) && visited == RootedIds(spans)
    requires DistinctIds(spans) ==>
               Appended(spans, {}, [], visited, tree, PreOrders(spans, Roots(spans, Ids(spans)), |spans|),
                        Roots(spans, Ids(spans)))
    ensures IsForestOrder(tree, spans)
  {
    assert SpanIds([]) == [];
    forall s | s in tree ensures Canonical(s, spans) {}
  }

  lemma NothingVisited(spans: seq<Span>)
    ensures KidsDone(spans, {}, [], {}, [], [], |spans| + 1, DistinctIds(spans))
  {
  }

  lemma RootsDone(spans: seq<Span>, visited: set<string>, tree: seq<Span>, roots: seq<string>)
    requires roots == Roots(spans, Ids(spans))
    requires KidsDone(spans, {}, [], visited, tree, roots, |spans| + 1, DistinctIds(spans))
    ensures IsForestOrder(tree, spans) && visited == RootedIds(spans)
  {
    VisitedAreRooted(spans, visited, tree);
    ForestDone(spans, visited, tree);
  }

  // ----- Counting -----

  lemma IdsAppend(init: seq<Span>, last: Span, ids: set<string>)
    ensures Ids(init + [last]) == Ids(init) + {last.spanID}
    ensures Unshared(init + [last], ids) <==>
              Unshared(init, ids) && (last.spanID in ids ==> last.spanID !in Ids(init))
    ensures DistinctIds(init + [last]) <==> DistinctIds(init) && last.spanID !in Ids(init)
  {
    var spans := init + [last];
    if last.spanID in Ids(init) {
      var s :| s in init && s.spanID == last.spanID;
      var i :| 0 <= i < |init| && init[i] == s;
      assert spans[i].spanID == spans[|init|].spanID;
    } else {
      forall i | 0 <= i < |init| ensures spans[i].spanID != last.spanID {
        assert init[i] in init;
      }
    }
    assert forall i :: 0 <= i < |init| ==> spans[i] == init[i];
  }

  lemma {:induction false} IdCount(spans: seq<Span>)
    ensures |Ids(spans)| <= |spans|
    ensures |Ids(spans)| == |spans| <==> DistinctIds(spans)
  {
    if spans != [] {
      var init, last := spans[..|spans| - 1], spans[|spans| - 1];
      IdCount(init);
      assert spans == init + [last];
      IdsAppend(init, last, {});
    }
  }

  lemma {:induction false} SplitByIds(spans: seq<Span>, ids: set<string>)
    ensures multiset(spans) == multiset(Only(spans, ids)) + multiset(Except(spans, ids))
    ensures |spans| == |Only(spans, ids)| + |Except(spans, ids)|
  {
    if spans != [] {
      var init, last := spans[..|spans| - 1], spans[|spans| - 1];
      SplitByIds(init, ids);
      assert spans == init + [last];
    }
  }

  lemma {:induction false} OnlyFacts(spans: seq<Span>, ids: set<string>)
    ensures Ids(Only(spans, ids)) == Ids(spans) * ids
    ensures DistinctIds(Only(spans, ids)) <==> Unshared(spans, ids)
  {
    if spans != [] {
      var init, last := spans[..|spans| - 1], spans[|spans| - 1];
      OnlyFacts(init, ids);
      OnlyStep(init, last, ids);
      assert spans == init + [last];
    }
  }

  lemma OnlyStep(init: seq<Span>, last: Span, ids: set<string>)
    requires Ids(Only(init, ids)) == Ids(init) * ids
    requires DistinctIds(Only(init, ids)) <==> Unshared(init, ids)
    ensures Ids(Only(init + [last], ids)) == Ids(init + [last]) * ids
    ensures DistinctIds(Only(init + [last], ids)) <==> Unshared(init + [last], ids)
  {
    var kept := Only(init, ids);
    assert Only(init + [last], ids) == kept + if last.spanID in ids then [last] else [] by {
      assert (init + [last])[..|init|] == init;
    }
    IdsAppend(init, last, ids);
    if last.spanID in ids {
      IdsAppend(kept, last, ids);
    } else {
      assert Only(init + [last], ids) == kept;
    }
  }

  lemma {:induction false} OnlyMembers(spans: seq<Span>, ids: set<string>)
    ensures forall s :: s in Only(spans, ids) <==> s in spans && s.spanID in ids
  {
    if spans != [] {
      OnlyMembers(spans[..|spans| - 1], ids);
      assert spans == spans[..|spans| - 1] + [spans[|spans| - 1]];
    }
  }

  // ----- What callers rely on -----

  /** No span is lost exactly when no two rooted spans share an ID: byID keeps the
      last of them only, and an ID is visited once. */
  lemma CompleteIffRootedIdsDistinct(spans: seq<Span>, result: seq<Span>)
    requires IsTreeOrder(result, spans)
    ensures |result| <= |spans|
    ensures |result| == |spans| <==> Unshared(spans, RootedIds(spans))
  {
    var ids := RootedIds(spans);
    var tree := result[..|result| - |Unrooted(spans)|];
    SplitByIds(spans, ids);
    OnlyFacts(spans, ids);
    IdCount(Only(spans, ids));
    IdCount(tree);
    assert Ids(spans) * ids == ids;
  }

  /** With distinct IDs the result is a permutation of the input, on cyclic input too. */
  lemma PermutationOfDistinct(spans: seq<Span>, result: seq<Span>)
    requires DistinctIds(spans) && IsTreeOrder(result, spans)
    ensures multiset(result) == multiset(spans)
  {
    var tree := result[..|result| - |Unrooted(spans)|];
    var rooted := Only(spans, RootedIds(spans));
    SplitByIds(spans, RootedIds(spans));
    OnlyFacts(spans, RootedIds(spans));
    OnlyMembers(spans, RootedIds(spans));
    ByIDFacts(spans);
    assert Ids(spans) * RootedIds(spans) == RootedIds(spans);
    assert Unshared(spans, RootedIds(spans));
    forall s ensures s in tree <==> s in rooted {
      if s in tree {
        assert Canonical(s, spans);
        assert s.spanID in Ids(rooted);
      }
      if s in rooted {
        var t :| t in tree && t.spanID == s.spanID;
        assert Canonical(t, spans);
      }
    }
    SameMembers(tree, rooted);
  }

  /** Of two root spans with one ID the first is lost. */
  lemma DuplicateLost(result: seq<Span>)
    requires IsTreeOrder(result, [Span("a", "", "first"), Span("a", "", "second")])
    ensures result == [Span("a", "", "second")]
  {
    hide PreOrders, ParentsFirst, Roots, RootedAt, Except;
    var second := Span("a", "", "second");
    var spans := [Span("a", "", "first"), second];
    DuplicatesRooted(spans);
    CompleteIffRootedIdsDistinct(spans, result);
    assert spans[0].spanID == spans[1].spanID == "a";
    assert "a" in Ids(result);
    assert Canonical(result[0], spans);
    ByIDFacts(spans);
    assert ByID(spans)["a"] == second;
  }

  lemma DuplicatesRooted(spans: seq<Span>)
    requires |spans| == 2 && spans[0].spanID == spans[1].spanID && spans[0].parentID == spans[1].parentID == ""
    ensures spans[0].spanID in RootedIds(spans) && Unrooted(spans) == []
  {
    assert spans[1] in spans && !HasParent(spans[1], Ids(spans));
    assert RootedAt(spans, spans[0].spanID, 0);
    assert spans[..1][..0] == [] && Except(spans[..1], RootedIds(spans)) == [];
  }
}
