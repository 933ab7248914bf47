/**
 Following span links from one trace to others (internal/tracing/traces_get.go,
 extractLinkedTraceIDs and the follow loop of runGet).

 The server is a parameter: what it returned for the start trace, and a function
 giving its answer for every other trace ID.
 */
module LinkFollowing {
  import opened BreadthFirst
  import opened Sequences
  import opened Wrappers

  // A lower-case hex string; "" when the wire carried no bytes.
  type TraceId = string

  datatype Span = Span(links: seq<TraceId>, forwardLinks: Option<seq<TraceId>>)
  datatype ScopeSpans = ScopeSpans(spans: seq<Span>)
  datatype ResourceSpans = ResourceSpans(scopeSpans: seq<ScopeSpans>)
  datatype TraceGroup = TraceGroup(traceID: TraceId, resourceSpans: seq<ResourceSpans>)

  const MAX_FOLLOWED_TRACES := 20

  // ----- The link graph -----

  function SpanLinks(s: Span): seq<TraceId> {
    s.links + if s.forwardLinks.Some? then s.forwardLinks.value else []
  }

  function SpansLinks(spans: seq<Span>): seq<TraceId> {
    if spans == [] then [] else SpansLinks(spans[..|spans| - 1]) + SpanLinks(spans[|spans| - 1])
  }

  function ScopesLinks(scopes: seq<ScopeSpans>): seq<TraceId> {
    if scopes == [] then [] else ScopesLinks(scopes[..|scopes| - 1]) + SpansLinks(scopes[|scopes| - 1].spans)
  }

  /** All links of a response, in the order in which they are read. */
  function Links(rs: seq<ResourceSpans>): seq<TraceId> {
    if rs == [] then [] else Links(rs[..|rs| - 1]) + ScopesLinks(rs[|rs| - 1].scopeSpans)
  }

  predicate LinksTo(s: Span, x: TraceId) {
    x in s.links || (s.forwardLinks.Some? && x in s.forwardLinks.value)
  }

  /** Span s of scope c of resource r links to x, backwards or forwards. */
  predicate HasLink(rs: seq<ResourceSpans>, r: nat, c: nat, s: nat, x: TraceId) {
    && r < |rs| && c < |rs[r].scopeSpans| && s < |rs[r].scopeSpans[c].spans|
    && LinksTo(rs[r].scopeSpans[c].spans[s], x)
  }

  lemma {:induction false} InSpans(spans: seq<Span>, x: TraceId)
    ensures x in SpansLinks(spans) <==>
            exists s :: 0 <= s < |spans| && LinksTo(spans[s], x)
  {
    if spans != [] {
      InSpans(spans[..|spans| - 1], x);
      assert forall s :: 0 <= s < |spans| - 1 ==> spans[..|spans| - 1][s] == spans[s];
    }
  }

  lemma {:induction false} InScopes(scopes: seq<ScopeSpans>, x: TraceId)
    ensures x in ScopesLinks(scopes) <==> exists c :: 0 <= c < |scopes| && x in SpansLinks(scopes[c].spans)
  {
    if scopes != [] {
      InScopes(scopes[..|scopes| - 1], x);
      assert forall c :: 0 <= c < |scopes| - 1 ==> scopes[..|scopes| - 1][c] == scopes[c];
    }
  }

  lemma {:induction false} InResources(rs: seq<ResourceSpans>, x: TraceId)
    ensures x in Links(rs) <==> exists r :: 0 <= r < |rs| && x in ScopesLinks(rs[r].scopeSpans)
  {
    if rs != [] {
      InResources(rs[..|rs| - 1], x);
      assert forall r :: 0 <= r < |rs| - 1 ==> rs[..|rs| - 1][r] == rs[r];
    }
  }

  /** The links that are read are those of every span, in both directions. */
  lemma LinkIff(rs: seq<ResourceSpans>, x: TraceId)
    ensures x in Links(rs) <==> exists r: nat, c: nat, s: nat :: HasLink(rs, r, c, s, x)
  {
    hide Links, ScopesLinks, SpansLinks;
    InResources(rs, x);
    if r :| 0 <= r < |rs| && x in ScopesLinks(rs[r].scopeSpans) {
      InScopes(rs[r].scopeSpans, x);
      var c :| 0 <= c < |rs[r].scopeSpans| && x in SpansLinks(rs[r].scopeSpans[c].spans);
      InSpans(rs[r].scopeSpans[c].spans, x);
      var s :| 0 <= s < |rs[r].scopeSpans[c].spans| && LinksTo(rs[r].scopeSpans[c].spans[s], x);
      assert HasLink(rs, r, c, s, x);
    }
    if r: nat, c: nat, s: nat :| HasLink(rs, r, c, s, x) {
      InSpans(rs[r].scopeSpans[c].spans, x);
      InScopes(rs[r].scopeSpans, x);
    }
  }

  datatype Server = Server(start: TraceId, first: seq<ResourceSpans>, fetch: TraceId -> Result<seq<ResourceSpans>, string>)
  {
    function Response(id: TraceId): seq<ResourceSpans> {
      if id == start then first
      else match fetch(id)
           case Ok(rs) => rs
           case Err(_) => []
    }

    function Linked(id: TraceId): set<TraceId> {
      set x | x in Links(Response(id)) && x != ""
    }

    lemma LinkedIff(id: TraceId, x: TraceId)
      ensures x in Linked(id) <==> x != "" && exists r: nat, c: nat, s: nat :: HasLink(Response(id), r, c, s, x)
    {
      LinkIff(Response(id), x);
    }

    function Succ(): Graph {
      (id: TraceId) => Linked(id)
    }

    /** ids are the traces nearest to the start over links, nearest first, at most MAX_FOLLOWED_TRACES. */
    ghost predicate NearestTraces(ids: seq<TraceId>, distances: seq<nat>) {
      Nearest(Succ(), start, MAX_FOLLOWED_TRACES, ids, distances)
    }

    /** What the loop keeps: the order of discovery, of which the first k traces were read. */
    ghost predicate Discovered(order: seq<TraceId>, k: nat, levels: seq<nat>) {
      Frontier(Succ(), start, order, k, levels)
    }

    lemma Start()
      ensures Discovered([start], 0, [0])
    {
      assert AtDistance(Succ(), start, start, 0);
    }

    // Reading the links of order[k].
    lemma Read(order: seq<TraceId>, k: nat, levels: seq<nat>, found: seq<TraceId>)
      requires Discovered(order, k, levels) && k < |order|
      requires found == FreshIds(Links(Response(order[k])), Elements(order))
      ensures Discovered(order + found, k + 1, levels + Repeat(levels[k] + 1, |found|))
    {
      FreshFacts(Links(Response(order[k])), Elements(order));
      assert Succ()(order[k]) == Linked(order[k]);
      Expand(Succ(), start, order, k, levels, found);
    }
  }

  // ----- Extraction -----

  /** The links that are new: non-empty, not seen, first occurrences only. */
  function FreshIds(links: seq<TraceId>, seen: set<TraceId>): seq<TraceId> {
    if links == [] then []
    else
      var init := FreshIds(links[..|links| - 1], seen);
      var last := links[|links| - 1];
      if last != "" && last !in seen && last !in init then init + [last] else init
  }

  lemma {:induction false} FreshFacts(links: seq<TraceId>, seen: set<TraceId>)
    ensures forall x :: x in FreshIds(links, seen) <==> x in links && x != "" && x !in seen
    ensures NoRepeats(FreshIds(links, seen))
  {
    if links != [] {
      FreshFacts(links[..|links| - 1], seen);
      assert links == links[..|links| - 1] + [links[|links| - 1]];
    }
  }

  /** After reading the links in read: ids are the new ones, and seen has grown by them. */
  ghost predicate HasRead(read: seq<TraceId>, seen0: set<TraceId>, seen: set<TraceId>, ids: seq<TraceId>) {
    ids == FreshIds(read, seen0) && seen == seen0 + Elements(ids)
  }

  lemma ReadOne(read: seq<TraceId>, seen0: set<TraceId>, seen: set<TraceId>, ids: seq<TraceId>, tid: TraceId)
    requires HasRead(read, seen0, seen, ids)
    ensures tid != "" && tid !in seen ==> HasRead(read + [tid], seen0, seen + {tid}, ids + [tid])
    ensures tid == "" || tid in seen ==> HasRead(read + [tid], seen0, seen, ids)
  {
    assert (read + [tid])[..|read|] == read;
    assert Elements(ids + [tid]) == Elements(ids) + {tid};
  }

  // One more element of a list of lists.
  lemma Next<T>(xs: seq<T>, i: nat, before: seq<TraceId>, upto: seq<TraceId>, next: seq<TraceId>)
    requires i < |xs|
    ensures xs[..i + 1][..i] == xs[..i] && xs[..i + 1][i] == xs[i]
    ensures before + (upto + next) == before + upto + next
  {
  }

  method ReadLinks(links: seq<TraceId>, seen1: set<TraceId>, ids1: seq<TraceId>, ghost read: seq<TraceId>, ghost seen0: set<TraceId>)
    returns (seen: set<TraceId>, ids: seq<TraceId>)
    requires HasRead(read, seen0, seen1, ids1)
    ensures HasRead(read + links, seen0, seen, ids)
  {
    seen, ids := seen1, ids1;
    assert read + links[..0] == read;
    for i := 0 to |links|
      invariant HasRead(read + links[..i], seen0, seen, ids)
    {
      var tid := links[i];
      assert links[..i + 1] == links[..i] + [tid];
      Next(links, i, read, links[..i], [tid]);
      ReadOne(read + links[..i], seen0, seen, ids, tid);
      if tid != "" && tid !in seen {
        seen := seen + {tid};
        ids := ids + [tid];
      }
    }
    assert links[..|links|] == links;
  }

  method ReadSpans(spans: seq<Span>, seen1: set<TraceId>, ids1: seq<TraceId>, ghost read: seq<TraceId>, ghost seen0: set<TraceId>)
    returns (seen: set<TraceId>, ids: seq<TraceId>)
    requires HasRead(read, seen0, seen1, ids1)
    ensures HasRead(read + SpansLinks(spans), seen0, seen, ids)
  {
    seen, ids := seen1, ids1;
    assert read + SpansLinks(spans[..0]) == read;
    for i := 0 to |spans|
      invariant HasRead(read + SpansLinks(spans[..i]), seen0, seen, ids)
    {
      ghost var before, s := read + SpansLinks(spans[..i]), spans[i];
      Next(spans, i, read, SpansLinks(spans[..i]), SpanLinks(s));
      seen, ids := ReadLinks(spans[i].links, seen, ids, before, seen0);
      if spans[i].forwardLinks.Some? {
        Next(spans, i, before, s.links, s.forwardLinks.value);
        seen, ids := ReadLinks(spans[i].forwardLinks.value, seen, ids, before + s.links, seen0);
      } else {
        assert SpanLinks(s) == s.links;
      }
    }
    assert spans[..|spans|] == spans;
  }

  method ReadScopes(scopes: seq<ScopeSpans>, seen1: set<TraceId>, ids1: seq<TraceId>, ghost read: seq<TraceId>, ghost seen0: set<TraceId>)
    returns (seen: set<TraceId>, ids: seq<TraceId>)
    requires HasRead(read, seen0, seen1, ids1)
    ensures HasRead(read + ScopesLinks(scopes), seen0, seen, ids)
  {
    seen, ids := seen1, ids1;
    assert read + ScopesLinks(scopes[..0]) == read;
    for i := 0 to |scopes|
      invariant HasRead(read + ScopesLinks(scopes[..i]), seen0, seen, ids)
    {
      Next(scopes, i, read, ScopesLinks(scopes[..i]), SpansLinks(scopes[i].spans));
      seen, ids := ReadSpans(scopes[i].spans, seen, ids, read + ScopesLinks(scopes[..i]), seen0);
    }
    assert scopes[..|scopes|] == scopes;
  }

  /** The nested loops over resources, scopes, spans and links, one method a level. */
  method ExtractLinkedTraceIDs(resourceSpans: seq<ResourceSpans>, seen0: set<TraceId>)
    returns (newTraceIDs: seq<TraceId>, seen: set<TraceId>)
    ensures newTraceIDs == FreshIds(Links(resourceSpans), seen0)
    ensures seen == seen0 + Elements(newTraceIDs)
  {
    newTraceIDs, seen := [], seen0;
    for i := 0 to |resourceSpans|
      invariant HasRead(Links(resourceSpans[..i]), seen0, seen, newTraceIDs)
    {
      Next(resourceSpans, i, [], [], []);
      seen, newTraceIDs := ReadScopes(resourceSpans[i].scopeSpans, seen, newTraceIDs, Links(resourceSpans[..i]), seen0);
    }
    assert resourceSpans[..|resourceSpans|] == resourceSpans;
  }

  // ----- The follow loop -----

  function GroupIds(groups: seq<TraceGroup>): seq<TraceId> {
    seq(|groups|, i requires 0 <= i < |groups| => groups[i].traceID)
  }

  // Every group holds what the server returned for its trace.
  ghost predicate Faithful(server: Server, groups: seq<TraceGroup>) {
    forall g :: g in groups ==>
      && (g.traceID != server.start ==> server.fetch(g.traceID).Ok?)
      && g.resourceSpans == server.Response(g.traceID)
  }

  /** rest is what the queue still holds at the end: IDs seen but not fetched. */
  method FollowSpanLinks(server: Server)
    returns (r: Result<seq<TraceGroup>, string>, ghost distances: seq<nat>, ghost rest: seq<TraceId>)
    ensures r.Ok? ==> server.NearestTraces(GroupIds(r.value), distances) && Faithful(server, r.value)
    // The queue runs empty exactly when the results are the whole closure of the start over links.
    ensures r.Ok? ==>
              && NoRepeats(GroupIds(r.value) + rest)
              && (rest == [] <==> IsClosure(server.Succ(), server.start, GroupIds(r.value)))
              && (rest != [] ==> |r.value| == 20) && |r.value| <= 20
    // No link of a fetched trace, backwards or forwards, is passed over.
    ensures r.Ok? ==>
              forall g, i: nat, c: nat, s: nat, x :: g in r.value && HasLink(g.resourceSpans, i, c, s, x) && x != "" ==>
                x in GroupIds(r.value) || x in rest
    // A failed fetch of a reachable trace is the only failure.
    ensures r.Err? ==>
              exists id :: Reachable(server.Succ(), server.start, id) && id != server.start && server.fetch(id) == Err(r.error)
  {
    var results := [TraceGroup(server.start, server.first)];
    var seen := {server.start};
    var queue;
    queue, seen := ExtractLinkedTraceIDs(server.first, seen);
    ghost var levels := FirstTrace(server, queue);
    while |queue| > 0 && |results| < MAX_FOLLOWED_TRACES
      invariant Following(server, results, seen, queue, levels)
      decreases MAX_FOLLOWED_TRACES - |results|
    {
      ghost var queue0, seen0 := queue, seen;
      var nextTraceID := queue[0];
      queue := queue[1..];
      var fetched := server.fetch(nextTraceID);
      NotStart(server, GroupIds(results) + queue0, |results|, levels);
      if fetched.Err? {
        return Err(fetched.error), [], [];
      }
      var newLinks;
      newLinks, seen := ExtractLinkedTraceIDs(fetched.value, seen);
      levels := NextTrace(server, results, seen0, queue0, levels, fetched.value, newLinks);
      results := results + [TraceGroup(nextTraceID, fetched.value)];
      queue := queue + newLinks;
    }
    Finished(server.Succ(), server.start, MAX_FOLLOWED_TRACES, GroupIds(results) + queue, |results|, levels);
    assert (GroupIds(results) + queue)[..|results|] == GroupIds(results);
    EmptyQueueIffClosure(server.Succ(), server.start, GroupIds(results) + queue, |results|, levels);
    AllLinksSeen(server, results, seen, queue, levels);
    return Ok(results), levels[..|results|], queue;
  }

  /** The loop invariant: seen is what was fetched or is queued, and by Discovered
      these two are disjoint and free of repeats. */
  ghost predicate Following(
    server: Server, results: seq<TraceGroup>, seen: set<TraceId>, queue: seq<TraceId>, levels: seq<nat>)
  {
    && 1 <= |results| <= MAX_FOLLOWED_TRACES && Faithful(server, results)
    && seen == Elements(GroupIds(results) + queue)
    && server.Discovered(GroupIds(results) + queue, |results|, levels)
  }

  lemma AllLinksSeen(server: Server, results: seq<TraceGroup>, seen: set<TraceId>, queue: seq<TraceId>, levels: seq<nat>)
    requires Following(server, results, seen, queue, levels)
    ensures forall g, i: nat, c: nat, s: nat, x :: g in results && HasLink(g.resourceSpans, i, c, s, x) && x != "" ==>
              x in GroupIds(results) || x in queue
  {
    hide HasLink;
    var order := GroupIds(results) + queue;
    forall g, i: nat, c: nat, s: nat, x | g in results && HasLink(g.resourceSpans, i, c, s, x) && x != ""
      ensures x in GroupIds(results) || x in queue
    {
      var k :| 0 <= k < |results| && results[k] == g;
      assert order[k] == g.traceID;
      server.LinkedIff(g.traceID, x);
      assert x in server.Succ()(order[k]);
      assert x in Elements(order);
    }
  }

  lemma FirstTrace(server: Server, queue: seq<TraceId>) returns (levels: seq<nat>)
    requires queue == FreshIds(Links(server.first), {server.start})
    ensures Following(server, [TraceGroup(server.start, server.first)], {server.start} + Elements(queue), queue, levels)
  {
    var ids := GroupIds([TraceGroup(server.start, server.first)]);
    assert ids == [server.start] && Elements(ids) == {server.start};
    server.Start();
    server.Read(ids, 0, [0], queue);
    levels := [0] + Repeat(1, |queue|);
    assert Elements(ids + queue) == Elements(ids) + Elements(queue);
  }

  lemma NextTrace(
    server: Server, results: seq<TraceGroup>, seen: set<TraceId>, queue: seq<TraceId>, levels: seq<nat>,
    fetched: seq<ResourceSpans>, found: seq<TraceId>)
    returns (levels': seq<nat>)
    requires Following(server, results, seen, queue, levels) && |queue| > 0 && |results| < MAX_FOLLOWED_TRACES
    requires queue[0] != server.start && server.fetch(queue[0]) == Ok(fetched) && found == FreshIds(Links(fetched), seen)
    ensures Following(server, results + [TraceGroup(queue[0], fetched)], seen + Elements(found), queue[1..] + found, levels')
  {
    var order, k := GroupIds(results) + queue, |results|;
    var results' := results + [TraceGroup(queue[0], fetched)];
    assert order[k] == queue[0];
    server.Read(order, k, levels, found);
    levels' := levels + Repeat(levels[k] + 1, |found|);
    Shift(results, queue, fetched, found);
  }

  // Moving the head of the queue to the results leaves the order of discovery as it is.
  lemma Shift(results: seq<TraceGroup>, queue: seq<TraceId>, fetched: seq<ResourceSpans>, found: seq<TraceId>)
    requires |queue| > 0
    ensures GroupIds(results + [TraceGroup(queue[0], fetched)]) + (queue[1..] + found) == GroupIds(results) + queue + found
    ensures Elements(GroupIds(results) + queue + found) == Elements(GroupIds(results) + queue) + Elements(found)
  {
    assert GroupIds(results + [TraceGroup(queue[0], fetched)]) == GroupIds(results) + [queue[0]];
    assert queue == [queue[0]] + queue[1..];
  }

  // A queued trace is reachable, and is not the start trace.
  lemma NotStart(server: Server, order: seq<TraceId>, k: nat, levels: seq<nat>)
    requires server.Discovered(order, k, levels) && 1 <= k < |order|
    ensures order[k] != server.start && Reachable(server.Succ(), server.start, order[k])
  {
    assert AtDistance(server.Succ(), server.start, order[k], levels[k]);
  }

  // ----- Upper-case arguments -----

  function LowerChar(c: char): char {
    if 'A' <= c <= 'F' then c - 'A' + 'a' else c
  }

  /** Trace IDs name the same trace when they decode to the same bytes. */
  function Lower(id: TraceId): TraceId {
    seq(|id|, i requires 0 <= i < |id| => LowerChar(id[i]))
  }

  predicate SameTraceTwice(ids: seq<TraceId>) {
    exists i, j :: 0 <= i < j < |ids| && Lower(ids[i]) == Lower(ids[j])
  }

  // hex.EncodeToString writes lower-case digits only.
  ghost predicate LowerCaseLinks(server: Server) {
    forall id, x :: x in server.Linked(id) ==> Lower(x) == x
  }

  // A server whose start trace links to itself, in lower case as on the wire.
  function SelfLinked(start: TraceId): Server {
    Server(start, [ResourceSpans([ScopeSpans([Span([Lower(start)], None)])])], (id: TraceId) => Ok([]))
  }

  lemma LowerTwice(id: TraceId)
    ensures Lower(Lower(id)) == Lower(id)
  {
  }

  // Every trace but the start was linked to.
  lemma LinkedIsLower(server: Server, id: TraceId, d: nat)
    requires LowerCaseLinks(server) && AtDistance(server.Succ(), server.start, id, d) && id != server.start
    ensures Lower(id) == id
  {
    if d > 0 {
      var x, y :| x in Within(server.Succ(), server.start, d - 1) && y in server.Succ()(x) && y == id;
      assert id in server.Linked(x);
    }
  }

  lemma SelfLinkedLinks(start: TraceId, x: TraceId)
    ensures SelfLinked(start).Linked(x) == if x == start && start != "" then {Lower(start)} else {}
  {
    var s := Span([Lower(start)], None);
    assert SpansLinks([s]) == [Lower(start)] by {
      assert [s][..0] == [];
    }
    assert ScopesLinks([ScopeSpans([s])]) == [Lower(start)] by {
      assert [ScopeSpans([s])][..0] == [];
    }
    assert Links([ResourceSpans([ScopeSpans([s])])]) == [Lower(start)] by {
      assert [ResourceSpans([ScopeSpans([s])])][..0] == [];
    }
  }

  lemma NotConstant(ids: seq<TraceId>, id: TraceId)
    requires |ids| >= 2 && forall i :: 0 <= i < |ids| ==> ids[i] == id
    ensures !NoRepeats(ids)
  {
    assert ids[0] == ids[1];
  }

  lemma SelfLinkedFetchedTwice(start: TraceId, ids: seq<TraceId>, ds: seq<nat>)
    requires start != "" && Lower(start) != start && SelfLinked(start).NearestTraces(ids, ds)
    ensures SameTraceTwice(ids)
  {
    var succ := SelfLinked(start).Succ();
    SelfLinkedLinks(start, start);
    assert start in Within(succ, start, 0) && Lower(start) in succ(start);
    assert Lower(start) in Beyond(succ, Within(succ, start, 0));
    assert AtDistance(succ, start, Lower(start), 1);
    forall x ensures succ(x) <= {start, Lower(start)} {
      SelfLinkedLinks(start, x);
    }
    forall i | 0 <= i < |ids| ensures ids[i] == start || ids[i] == Lower(start) {
      assert AtDistance(succ, start, ids[i], ds[i]);
      WithinClosedSet(succ, start, {start, Lower(start)}, ds[i]);
    }
    if Lower(start) !in ids {
      NotConstant(ids, start);
    }
    var j :| 0 <= j < |ids| && ids[j] == Lower(start);
    LowerTwice(start);
    assert Lower(ids[0]) == Lower(ids[j]);
  }

  /** A start trace given in lower case is never fetched twice, whatever the server
      returns; one that is not can be, because seen holds it as it was typed. */
  lemma NeverTwiceIffLowerCase(start: TraceId)
    requires start != ""
    ensures Lower(start) == start ==>
              forall server: Server, ids, ds ::
                server.start == start && LowerCaseLinks(server) && server.NearestTraces(ids, ds) ==> !SameTraceTwice(ids)
    ensures Lower(start) != start ==>
              && LowerCaseLinks(SelfLinked(start))
              && forall ids, ds :: SelfLinked(start).NearestTraces(ids, ds) ==> SameTraceTwice(ids)
  {
    if Lower(start) == start {
      forall server: Server, ids, ds |
        server.start == start && LowerCaseLinks(server) && server.NearestTraces(ids, ds)
        ensures !SameTraceTwice(ids)
      {
        forall i | 0 <= i < |ids| ensures Lower(ids[i]) == ids[i] {
          assert AtDistance(server.Succ(), server.start, ids[i], ds[i]);
          if ids[i] != start {
            LinkedIsLower(server, ids[i], ds[i]);
          }
        }
      }
    } else {
      forall id, x | x in SelfLinked(start).Linked(id) ensures Lower(x) == x {
        SelfLinkedLinks(start, id);
        LowerTwice(start);
      }
      forall ids, ds | SelfLinked(start).NearestTraces(ids, ds) ensures SameTraceTwice(ids) {
        SelfLinkedFetchedTwice(start, ids, ds);
      }
    }
  }
}
