/**
 The order in which extractLinkedTraceIDs finds new trace IDs (internal/tracing/traces_get.go):
 that of their first occurrences, by resource, scope, span, direction and link.
 */
module LinkOrder {
  import opened LinkFollowing
  import opened Wrappers

  datatype Place = Place(r: nat, c: nat, s: nat, forward: bool, l: nat)

  /** The link at a place is x. */
  predicate LinkAt(rs: seq<ResourceSpans>, p: Place, x: TraceId) {
    && p.r < |rs| && p.c < |rs[p.r].scopeSpans| && p.s < |rs[p.r].scopeSpans[p.c].spans|
    && var span := rs[p.r].scopeSpans[p.c].spans[p.s];
       if p.forward then span.forwardLinks.Some? && p.l < |span.forwardLinks.value| && span.forwardLinks.value[p.l] == x
       else p.l < |span.links| && span.links[p.l] == x
  }

  predicate Earlier(p: Place, q: Place) {
    || p.r < q.r
    || (p.r == q.r && p.c < q.c)
    || (p.r == q.r && p.c == q.c && p.s < q.s)
    || (p.r == q.r && p.c == q.c && p.s == q.s && !p.forward && q.forward)
    || (p.r == q.r && p.c == q.c && p.s == q.s && p.forward == q.forward && p.l < q.l)
  }

  // ----- Positions in the flat list -----

  function SpanIndex(span: Span, forward: bool, l: nat): nat {
    if forward then |span.links| + l else l
  }

  function SpansIndex(spans: seq<Span>, s: nat, forward: bool, l: nat): nat
    requires s < |spans|
  {
    |SpansLinks(spans[..s])| + SpanIndex(spans[s], forward, l)
  }

  function ScopesIndex(scopes: seq<ScopeSpans>, c: nat, s: nat, forward: bool, l: nat): nat
    requires c < |scopes| && s < |scopes[c].spans|
  {
    |ScopesLinks(scopes[..c])| + SpansIndex(scopes[c].spans, s, forward, l)
  }

  function Index(rs: seq<ResourceSpans>, p: Place): nat
    requires p.r < |rs| && p.c < |rs[p.r].scopeSpans| && p.s < |rs[p.r].scopeSpans[p.c].spans|
  {
    |Links(rs[..p.r])| + ScopesIndex(rs[p.r].scopeSpans, p.c, p.s, p.forward, p.l)
  }

  lemma {:induction false} SpansPart(spans: seq<Span>, s: nat)
    requires s < |spans|
    ensures SpansLinks(spans[..s]) + SpanLinks(spans[s]) <= SpansLinks(spans)
  {
    var n := |spans| - 1;
    if s == n {
      assert spans[..s + 1] == spans;
    } else {
      SpansPart(spans[..n], s);
      assert spans[..n][..s] == spans[..s];
    }
  }

  lemma {:induction false} ScopesPart(scopes: seq<ScopeSpans>, c: nat)
    requires c < |scopes|
    ensures ScopesLinks(scopes[..c]) + SpansLinks(scopes[c].spans) <= ScopesLinks(scopes)
  {
    var n := |scopes| - 1;
    if c < n {
      ScopesPart(scopes[..n], c);
      assert scopes[..n][..c] == scopes[..c];
    }
  }

  lemma {:induction false} ResourcesPart(rs: seq<ResourceSpans>, r: nat)
    requires r < |rs|
    ensures Links(rs[..r]) + ScopesLinks(rs[r].scopeSpans) <= Links(rs)
  {
    var n := |rs| - 1;
    if r < n {
      ResourcesPart(rs[..n], r);
      assert rs[..n][..r] == rs[..r];
    }
  }

  /** The link at a place is read at its position. */
  lemma AtIndex(rs: seq<ResourceSpans>, p: Place, x: TraceId)
    requires LinkAt(rs, p, x)
    ensures Index(rs, p) < |Links(rs)| && Links(rs)[Index(rs, p)] == x
  {
    hide Links, ScopesLinks, SpansLinks;
    var scopes := rs[p.r].scopeSpans;
    var spans := scopes[p.c].spans;
    ResourcesPart(rs, p.r);
    ScopesPart(scopes, p.c);
    SpansPart(spans, p.s);
    var k := SpanIndex(spans[p.s], p.forward, p.l);
    assert SpanLinks(spans[p.s])[k] == x;
    assert SpansLinks(spans)[|SpansLinks(spans[..p.s])| + k] == x;
    assert ScopesLinks(scopes)[|ScopesLinks(scopes[..p.c])| + (|SpansLinks(spans[..p.s])| + k)] == x;
  }

  lemma {:induction false} SpansMonotone(spans: seq<Span>, s: nat, t: nat)
    requires s <= t <= |spans|
    ensures |SpansLinks(spans[..s])| <= |SpansLinks(spans[..t])|
    decreases t
  {
    if s < t {
      assert spans[..t][..t - 1] == spans[..t - 1];
      SpansMonotone(spans, s, t - 1);
    }
  }

  lemma {:induction false} ScopesMonotone(scopes: seq<ScopeSpans>, s: nat, t: nat)
    requires s <= t <= |scopes|
    ensures |ScopesLinks(scopes[..s])| <= |ScopesLinks(scopes[..t])|
    decreases t
  {
    if s < t {
      assert scopes[..t][..t - 1] == scopes[..t - 1];
      ScopesMonotone(scopes, s, t - 1);
    }
  }

  lemma {:induction false} ResourcesMonotone(rs: seq<ResourceSpans>, s: nat, t: nat)
    requires s <= t <= |rs|
    ensures |Links(rs[..s])| <= |Links(rs[..t])|
    decreases t
  {
    if s < t {
      assert rs[..t][..t - 1] == rs[..t - 1];
      ResourcesMonotone(rs, s, t - 1);
    }
  }

  lemma NextPrefix<T>(s: seq<T>, i: nat)
    requires i < |s|
    ensures s[..i + 1][..i] == s[..i] && s[..i + 1][i] == s[i]
  {
  }

  lemma SpansEnd(spans: seq<Span>, s: nat, forward: bool, l: nat)
    requires s < |spans| && SpanIndex(spans[s], forward, l) < |SpanLinks(spans[s])|
    ensures SpansIndex(spans, s, forward, l) < |SpansLinks(spans[..s + 1])| <= |SpansLinks(spans)|
  {
    NextPrefix(spans, s);
    SpansMonotone(spans, s + 1, |spans|);
    assert spans[..|spans|] == spans;
  }

  lemma ScopesEnd(scopes: seq<ScopeSpans>, c: nat, s: nat, forward: bool, l: nat)
    requires c < |scopes| && s < |scopes[c].spans|
    requires SpansIndex(scopes[c].spans, s, forward, l) < |SpansLinks(scopes[c].spans)|
    ensures ScopesIndex(scopes, c, s, forward, l) < |ScopesLinks(scopes[..c + 1])| <= |ScopesLinks(scopes)|
  {
    NextPrefix(scopes, c);
    ScopesMonotone(scopes, c + 1, |scopes|);
    assert scopes[..|scopes|] == scopes;
  }

  lemma ResourcesEnd(rs: seq<ResourceSpans>, p: Place)
    requires p.r < |rs| && p.c < |rs[p.r].scopeSpans| && p.s < |rs[p.r].scopeSpans[p.c].spans|
    requires ScopesIndex(rs[p.r].scopeSpans, p.c, p.s, p.forward, p.l) < |ScopesLinks(rs[p.r].scopeSpans)|
    ensures Index(rs, p) < |Links(rs[..p.r + 1])|
  {
    NextPrefix(rs, p.r);
  }

  /** Earlier places have smaller positions. */
  lemma IndexMonotone(rs: seq<ResourceSpans>, p: Place, q: Place, x: TraceId, y: TraceId)
    requires LinkAt(rs, p, x) && LinkAt(rs, q, y) && Earlier(p, q)
    ensures Index(rs, p) < Index(rs, q)
  {
    hide Links, ScopesLinks, SpansLinks;
    var scopes := rs[p.r].scopeSpans;
    var spans := scopes[p.c].spans;
    SpansEnd(spans, p.s, p.forward, p.l);
    ScopesEnd(scopes, p.c, p.s, p.forward, p.l);
    ResourcesEnd(rs, p);
    if p.r < q.r {
      ResourcesMonotone(rs, p.r + 1, q.r);
    } else if p.c < q.c {
      ScopesMonotone(scopes, p.c + 1, q.c);
    } else if p.s < q.s {
      SpansMonotone(spans, p.s + 1, q.s);
    }
  }

  // ----- Every position is that of a place -----

  lemma {:induction false} FindInSpans(spans: seq<Span>, k: nat) returns (s: nat, forward: bool, l: nat)
    requires k < |SpansLinks(spans)|
    ensures s < |spans| && SpansIndex(spans, s, forward, l) == k
    ensures if forward then spans[s].forwardLinks.Some? && l < |spans[s].forwardLinks.value| else l < |spans[s].links|
  {
    var n := |spans| - 1;
    var before := |SpansLinks(spans[..n])|;
    if k < before {
      s, forward, l := FindInSpans(spans[..n], k);
      assert spans[..n][..s] == spans[..s];
    } else {
      s, forward := n, k - before >= |spans[n].links|;
      l := if forward then k - before - |spans[n].links| else k - before;
    }
  }

  lemma {:induction false} FindInScopes(scopes: seq<ScopeSpans>, k: nat) returns (c: nat, s: nat, forward: bool, l: nat)
    requires k < |ScopesLinks(scopes)|
    ensures c < |scopes| && s < |scopes[c].spans| && ScopesIndex(scopes, c, s, forward, l) == k
    ensures var span := scopes[c].spans[s];
            if forward then span.forwardLinks.Some? && l < |span.forwardLinks.value| else l < |span.links|
  {
    var n := |scopes| - 1;
    var before := |ScopesLinks(scopes[..n])|;
    if k < before {
      c, s, forward, l := FindInScopes(scopes[..n], k);
      assert scopes[..n][..c] == scopes[..c];
    } else {
      c := n;
      s, forward, l := FindInSpans(scopes[n].spans, k - before);
    }
  }

  lemma {:induction false} FindPlace(rs: seq<ResourceSpans>, k: nat) returns (p: Place)
    requires k < |Links(rs)|
    ensures LinkAt(rs, p, Links(rs)[k]) && Index(rs, p) == k
  {
    var n := |rs| - 1;
    var before := |Links(rs[..n])|;
    if k < before {
      p := FindPlace(rs[..n], k);
      assert rs[..n][..p.r] == rs[..p.r];
    } else {
      var c, s, forward, l := FindInScopes(rs[n].scopeSpans, k - before);
      p := Place(n, c, s, forward, l);
      var span := rs[n].scopeSpans[c].spans[s];
      AtIndex(rs, p, if forward then span.forwardLinks.value[l] else span.links[l]);
    }
  }

  // ----- First occurrences -----

  lemma {:induction false} FreshInOrder(links: seq<TraceId>, seen: set<TraceId>, i: nat, j: nat) returns (k: nat)
    requires i < j < |FreshIds(links, seen)|
    ensures k < |links| && links[k] == FreshIds(links, seen)[i]
    ensures forall m :: 0 <= m < |links| && links[m] == FreshIds(links, seen)[j] ==> k < m
  {
    var n := |links| - 1;
    var init := FreshIds(links[..n], seen);
    FreshFacts(links[..n], seen);
    if j < |init| {
      k := FreshInOrder(links[..n], seen, i, j);
      assert links[n] in init || links[n] != init[j];
      if links[n] == init[j] {
        assert k < n;
      }
    } else {
      assert init[i] in init;
      k :| 0 <= k < n && links[..n][k] == init[i];
      assert links[n] !in links[..n];
      forall m | 0 <= m < n ensures links[m] != links[n] {
        assert links[m] == links[..n][m];
      }
    }
  }

  /** Some link to x stands before every link to y. */
  ghost predicate LinkedBefore(rs: seq<ResourceSpans>, x: TraceId, y: TraceId) {
    exists p :: LinkAt(rs, p, x) && forall q :: LinkAt(rs, q, y) ==> Earlier(p, q)
  }

  /** Of two new IDs the one that is linked earlier comes first. */
  lemma NewIdsInOrder(rs: seq<ResourceSpans>, seen: set<TraceId>, i: nat, j: nat)
    requires i < j < |FreshIds(Links(rs), seen)|
    ensures LinkedBefore(rs, FreshIds(Links(rs), seen)[i], FreshIds(Links(rs), seen)[j])
  {
    hide Links, FreshIds, Index, LinkAt;
    var ids := FreshIds(Links(rs), seen);
    var k := FreshInOrder(Links(rs), seen, i, j);
    var p := FindPlace(rs, k);
    forall q | LinkAt(rs, q, ids[j]) ensures Earlier(p, q) {
      AtIndex(rs, q, ids[j]);
      if Earlier(q, p) {
        IndexMonotone(rs, q, p, ids[j], ids[i]);
      }
      assert p != q;
    }
  }
}
