/**
 Decoration of telemetry batches with user-provided attributes (internal/otlp/proxy_decorator.go).

 An attribute map is an ordered list of key-value pairs. A put replaces the first pair
 with the key, or appends one. The configured attributes are a map, and are put in an
 arbitrary order.
 */
module Decorator {
  import opened Sequences
  import opened Wrappers

  // A value of any other type than string is only ever replaced, never inspected.
  datatype Value = Str(s: string) | Other(repr: string)

  datatype Attr = Attr(key: string, value: Value)

  type Attrs = seq<Attr>

  /** Index of the first pair with key k, or the length if there is none. */
  function FirstIndex(attrs: Attrs, k: string): (i: nat)
    ensures i <= |attrs|
    ensures i < |attrs| ==> attrs[i].key == k
    ensures forall j :: 0 <= j < i ==> attrs[j].key != k
  {
    if attrs == [] then 0 else if attrs[0].key == k then 0 else 1 + FirstIndex(attrs[1..], k)
  }

  function Get(attrs: Attrs, k: string): Option<Value> {
    var i := FirstIndex(attrs, k);
    if i < |attrs| then Some(attrs[i].value) else None
  }

  function PutStr(attrs: Attrs, k: string, v: string): Attrs {
    var i := FirstIndex(attrs, k);
    if i < |attrs| then attrs[i := Attr(k, Str(v))] else attrs + [Attr(k, Str(v))]
  }

  // ----- Overlaying one attribute map -----

  /** What the pair at i becomes: only the first pair of a key is overridden. */
  function Overridden(before: Attrs, src: map<string, string>, i: nat): Attr
    requires i < |before|
  {
    var k := before[i].key;
    if k in src && FirstIndex(before, k) == i then Attr(k, Str(src[k])) else before[i]
  }

  /** The old pairs stay where they are, overridden by src. */
  predicate KeepsPlaces(before: Attrs, src: map<string, string>, after: Attrs) {
    && |before| <= |after|
    && forall i :: 0 <= i < |before| ==> after[i] == Overridden(before, src, i)
  }

  /** Only missing keys of src follow, once each. */
  predicate AppendsMissing(before: Attrs, src: map<string, string>, after: Attrs) {
    && (forall i :: |before| <= i < |after| ==> IsMissing(before, src, after[i]))
    && (forall i, j :: |before| <= i < j < |after| ==> after[i].key != after[j].key)
  }

  predicate IsMissing(before: Attrs, src: map<string, string>, x: Attr) {
    x.key in src && FirstIndex(before, x.key) == |before| && x.value == Str(src[x.key])
  }

  predicate HasAll(src: map<string, string>, after: Attrs) {
    forall k :: k in src ==> FirstIndex(after, k) < |after|
  }

  /** after is before with src laid over it: pairs keep their places and exactly the
      missing keys follow, in some order. */
  predicate Overlay(before: Attrs, src: map<string, string>, after: Attrs) {
    KeepsPlaces(before, src, after) && AppendsMissing(before, src, after) && HasAll(src, after)
  }

  method UpsertMap(attrs: Attrs, src: map<string, string>) returns (result: Attrs)
    ensures Overlay(attrs, src, result)
  {
    hide *;
    result := attrs;
    var rest := src.Keys;
    ghost var done: map<string, string> := map[];
    NothingLaidOver(attrs, done);
    while rest != {}
      invariant rest <= src.Keys
      invariant done == map k | k in src && k !in rest :: src[k]
      invariant Overlay(attrs, done, result)
      decreases |rest|
    {
      var k :| k in rest;
      PutExtends(attrs, done, result, k, src[k]);
      result := PutStr(result, k, src[k]);
      rest := rest - {k};
      done := done[k := src[k]];
    }
    assert done == src;
  }

  lemma NothingLaidOver(attrs: Attrs, src: map<string, string>)
    requires |src| == 0
    ensures Overlay(attrs, src, attrs)
  {
    assert src == map[];
  }

  /** Keys stay where they are, so a key's first pair does too. */
  lemma FirstIndexKept(before: Attrs, after: Attrs, k: string)
    requires |before| <= |after| && forall i :: 0 <= i < |before| ==> after[i].key == before[i].key
    ensures FirstIndex(before, k) < |before| ==> FirstIndex(after, k) == FirstIndex(before, k)
    ensures FirstIndex(before, k) == |before| ==> FirstIndex(after, k) >= |before|
  {
  }

  lemma PutExtends(before: Attrs, done: map<string, string>, mid: Attrs, k: string, v: string)
    requires Overlay(before, done, mid) && k !in done
    ensures Overlay(before, done[k := v], PutStr(mid, k, v))
  {
    hide FirstIndex, KeepsPlaces, AppendsMissing, HasAll, PutStr;
    PutKeepsPlaces(before, done, mid, k, v);
    PutAppends(before, done, mid, k, v);
    PutHasAll(done, mid, k, v);
  }

  lemma PutKeepsPlaces(before: Attrs, done: map<string, string>, mid: Attrs, k: string, v: string)
    requires KeepsPlaces(before, done, mid) && k !in done
    ensures KeepsPlaces(before, done[k := v], PutStr(mid, k, v))
  {
    hide FirstIndex;
    FirstIndexKept(before, mid, k);
  }

  lemma PutAppends(before: Attrs, done: map<string, string>, mid: Attrs, k: string, v: string)
    requires KeepsPlaces(before, done, mid) && AppendsMissing(before, done, mid) && k !in done
    ensures AppendsMissing(before, done[k := v], PutStr(mid, k, v))
  {
    hide FirstIndex;
    FirstIndexKept(before, mid, k);
  }

  lemma PutHasAll(done: map<string, string>, mid: Attrs, k: string, v: string)
    requires HasAll(done, mid)
    ensures HasAll(done[k := v], PutStr(mid, k, v))
  {
    hide FirstIndex;
    var after := PutStr(mid, k, v);
    forall q | q in done[k := v] ensures FirstIndex(after, q) < |after| {
      FirstIndexKept(mid, after, q);
      if q == k && FirstIndex(mid, k) == |mid| {
        assert after[|mid|].key == k;
      }
    }
  }

  /** Looking a key up afterwards finds the configured value, or else what was there before. */
  lemma LookupIsOverlay(before: Attrs, src: map<string, string>, after: Attrs, k: string)
    requires Overlay(before, src, after)
    ensures Get(after, k) == if k in src then Some(Str(src[k])) else Get(before, k)
  {
    FirstIndexKept(before, after, k);
  }

  lemma GrowsOnlyIfMissing(before: Attrs, src: map<string, string>, after: Attrs)
    requires Overlay(before, src, after)
    ensures |after| > |before| <==> !HasAll(src, before)
  {
    hide FirstIndex;
    if |after| > |before| {
      assert IsMissing(before, src, after[|before|]);
    }
    forall k | k in src && FirstIndex(before, k) == |before| ensures |after| > |before| {
      FirstIndexKept(before, after, k);
    }
  }

  /** Doing it twice changes nothing the second time, whatever the orders of iteration. */
  lemma OverlayIdempotent(before: Attrs, src: map<string, string>, mid: Attrs, after: Attrs)
    requires Overlay(before, src, mid) && Overlay(mid, src, after)
    ensures after == mid
  {
    hide FirstIndex;
    GrowsOnlyIfMissing(mid, src, after);
    forall i | 0 <= i < |mid| ensures after[i] == mid[i] {
      FirstIndexKept(before, mid, mid[i].key);
    }
  }

  /** The attributes are left as they were exactly when they already carried every configured value. */
  lemma OverlayUnchangedIff(before: Attrs, src: map<string, string>, after: Attrs)
    requires Overlay(before, src, after)
    ensures after == before <==> forall k :: k in src ==> Get(before, k) == Some(Str(src[k]))
  {
    if after == before {
      forall k | k in src ensures Get(before, k) == Some(Str(src[k])) {
        LookupIsOverlay(before, src, after, k);
      }
    }
    if forall k :: k in src ==> Get(before, k) == Some(Str(src[k])) {
      if |after| > |before| {
        assert IsMissing(before, src, after[|before|]);
      }
    }
  }

  /** Any two orders of iteration give the same pairs, the old keys at the same places. */
  lemma OrderDoesNotMatter(before: Attrs, src: map<string, string>, a: Attrs, b: Attrs)
    requires Overlay(before, src, a) && Overlay(before, src, b)
    ensures a[..|before|] == b[..|before|]
    ensures |a| == |b| && multiset(a) == multiset(b)
  {
    hide FirstIndex, IsMissing, HasAll;
    var n := |before|;
    forall x ensures x in a[n..] <==> x in b[n..] {
      TailKeys(before, src, a, x);
      TailKeys(before, src, b, x);
    }
    SameMembers(a[n..], b[n..]);
    assert a == a[..n] + a[n..] && b == b[..n] + b[n..];
    assert |a| == |multiset(a)| && |b| == |multiset(b)|;
  }

  lemma TailKeys(before: Attrs, src: map<string, string>, after: Attrs, x: Attr)
    requires Overlay(before, src, after)
    ensures x in after[|before|..] <==> IsMissing(before, src, x)
  {
    hide FirstIndex;
    FirstIndexKept(before, after, x.key);
    if IsMissing(before, src, x) {
      var i := FirstIndex(after, x.key);
      assert after[i] == x && after[|before|..][i - |before|] == x;
    }
  }

  // ----- Batches -----

  // Everything about a record that decoration does not look at is its payload.
  datatype Record = Record(attrs: Attrs, payload: string)

  datatype MetricData =
    | NoData
    | Gauge(points: seq<Record>)
    | Sum(points: seq<Record>)
    | Histogram(points: seq<Record>)
    | ExponentialHistogram(points: seq<Record>)
    | Summary(points: seq<Record>)

  // A log record or a span, or a metric.
  datatype Item = Single(record: Record) | Metric(name: string, data: MetricData)

  datatype Scope = Scope(name: string, version: string, attrs: Attrs)

  datatype ScopeGroup = ScopeGroup(scope: Scope, items: seq<Item>)

  datatype ResourceGroup = ResourceGroup(resource: Attrs, scopes: seq<ScopeGroup>)

  type Source = map<string, string>

  datatype Decorator = Decorator(
    resourceAttrs: Source, scopeAttrs: Source, scopeName: string, scopeVersion: string,
    logAttrs: Source, spanAttrs: Source, metricAttrs: Source)
  {
    predicate IsEmpty() {
      && |resourceAttrs| == |scopeAttrs| == |logAttrs| == |spanAttrs| == |metricAttrs| == 0
      && scopeName == scopeVersion == ""
    }
  }

  // ----- What decoration means, level by level -----

  predicate RecordOverlaid(src: Source, x: Record, y: Record) {
    Overlay(x.attrs, src, y.attrs) && y.payload == x.payload
  }

  predicate RecordsOverlaid(src: Source, xs: seq<Record>, ys: seq<Record>) {
    |xs| == |ys| && forall i :: 0 <= i < |xs| ==> RecordOverlaid(src, xs[i], ys[i])
  }

  predicate ItemDecorated(src: Source, x: Item, y: Item) {
    match x
    case Single(r) => y.Single? && RecordOverlaid(src, r, y.record)
    case Metric(_, NoData) => y == x
    case Metric(name, data) =>
      && y.Metric? && y.name == name && !y.data.NoData?
      && y.data == data.(points := y.data.points)
      && RecordsOverlaid(src, data.points, y.data.points)
  }

  predicate ScopeDecorated(d: Decorator, x: Scope, y: Scope) {
    && y.name == (if d.scopeName == "" then x.name else d.scopeName)
    && y.version == (if d.scopeVersion == "" then x.version else d.scopeVersion)
    && Overlay(x.attrs, d.scopeAttrs, y.attrs)
  }

  predicate ScopeGroupDecorated(d: Decorator, src: Source, x: ScopeGroup, y: ScopeGroup) {
    && ScopeDecorated(d, x.scope, y.scope)
    && |x.items| == |y.items|
    && forall i :: 0 <= i < |x.items| ==> ItemDecorated(src, x.items[i], y.items[i])
  }

  predicate GroupDecorated(d: Decorator, src: Source, x: ResourceGroup, y: ResourceGroup) {
    && Overlay(x.resource, d.resourceAttrs, y.resource)
    && |x.scopes| == |y.scopes|
    && forall i :: 0 <= i < |x.scopes| ==> ScopeGroupDecorated(d, src, x.scopes[i], y.scopes[i])
  }

  /** Every resource, scope and record of the batch, src being the record attributes of its signal. */
  predicate BatchDecorated(d: Decorator, src: Source, xs: seq<ResourceGroup>, ys: seq<ResourceGroup>) {
    |xs| == |ys| && forall i :: 0 <= i < |xs| ==> GroupDecorated(d, src, xs[i], ys[i])
  }

  // ----- The operations -----

  method UpsertRecord(r: Record, src: Source) returns (out: Record)
    ensures RecordOverlaid(src, r, out)
  {
    var attrs := UpsertMap(r.attrs, src);
    out := r.(attrs := attrs);
  }

  method UpsertRecords(records: seq<Record>, src: Source) returns (out: seq<Record>)
    ensures RecordsOverlaid(src, records, out)
  {
    hide RecordOverlaid;
    out := records;
    for i := 0 to |records|
      invariant |out| == |records|
      invariant forall k :: 0 <= k < i ==> RecordOverlaid(src, records[k], out[k])
      invariant forall k :: i <= k < |records| ==> out[k] == records[k]
    {
      var r := UpsertRecord(out[i], src);
      out := out[i := r];
    }
  }

  method UpsertMetricDataPoints(data: MetricData, src: Source) returns (out: MetricData)
    ensures forall name :: ItemDecorated(src, Metric(name, data), Metric(name, out))
  {
    hide RecordsOverlaid;
    match data
    case NoData =>
      out := data;
    case Gauge(points) =>
      var ps := UpsertRecords(points, src);
      out := Gauge(ps);
    case Sum(points) =>
      var ps := UpsertRecords(points, src);
      out := Sum(ps);
    case Histogram(points) =>
      var ps := UpsertRecords(points, src);
      out := Histogram(ps);
    case ExponentialHistogram(points) =>
      var ps := UpsertRecords(points, src);
      out := ExponentialHistogram(ps);
    case Summary(points) =>
      var ps := UpsertRecords(points, src);
      out := Summary(ps);
  }

  method DecorateItems(items: seq<Item>, src: Source) returns (out: seq<Item>)
    ensures |out| == |items| && forall i :: 0 <= i < |items| ==> ItemDecorated(src, items[i], out[i])
  {
    hide RecordOverlaid, RecordsOverlaid;
    out := items;
    for i := 0 to |items|
      invariant |out| == |items|
      invariant forall k :: 0 <= k < i ==> ItemDecorated(src, items[k], out[k])
      invariant forall k :: i <= k < |items| ==> out[k] == items[k]
    {
      match out[i]
      case Single(r) =>
        var y := UpsertRecord(r, src);
        out := out[i := Single(y)];
      case Metric(name, data) =>
        var y := UpsertMetricDataPoints(data, src);
        out := out[i := Metric(name, y)];
    }
  }

  method UpsertScope(d: Decorator, scope: Scope) returns (out: Scope)
    ensures ScopeDecorated(d, scope, out)
  {
    hide Overlay;
    out := scope;
    if d.scopeName != "" {
      out := out.(name := d.scopeName);
    }
    if d.scopeVersion != "" {
      out := out.(version := d.scopeVersion);
    }
    if |d.scopeAttrs| > 0 {
      var attrs := UpsertMap(out.attrs, d.scopeAttrs);
      out := out.(attrs := attrs);
    } else {
      NothingLaidOver(scope.attrs, d.scopeAttrs);
    }
  }

  method DecorateGroup(d: Decorator, src: Source, group: ResourceGroup) returns (out: ResourceGroup)
    ensures GroupDecorated(d, src, group, out)
  {
    hide Overlay, ScopeDecorated, ItemDecorated;
    var resource := UpsertMap(group.resource, d.resourceAttrs);
    var scopes := group.scopes;
    for j := 0 to |scopes|
      invariant |scopes| == |group.scopes|
      invariant forall k :: 0 <= k < j ==> ScopeGroupDecorated(d, src, group.scopes[k], scopes[k])
      invariant forall k :: j <= k < |scopes| ==> scopes[k] == group.scopes[k]
    {
      var scope := UpsertScope(d, scopes[j].scope);
      var items := scopes[j].items;
      if |src| > 0 {
        items := DecorateItems(items, src);
      } else {
        EmptyItems(src, items);
      }
      scopes := scopes[j := ScopeGroup(scope, items)];
    }
    out := ResourceGroup(resource, scopes);
  }

  method DecorateLogs(d: Decorator, batch: array<ResourceGroup>)
    modifies batch
    ensures BatchDecorated(d, d.logAttrs, old(batch[..]), batch[..])
  {
    Decorate(d, d.logAttrs, batch);
  }

  method DecorateTraces(d: Decorator, batch: array<ResourceGroup>)
    modifies batch
    ensures BatchDecorated(d, d.spanAttrs, old(batch[..]), batch[..])
  {
    Decorate(d, d.spanAttrs, batch);
  }

  method DecorateMetrics(d: Decorator, batch: array<ResourceGroup>)
    modifies batch
    ensures BatchDecorated(d, d.metricAttrs, old(batch[..]), batch[..])
  {
    Decorate(d, d.metricAttrs, batch);
  }

  /** The loop the three signals share. */
  method Decorate(d: Decorator, src: Source, batch: array<ResourceGroup>)
    requires d.IsEmpty() ==> src == map[]
    modifies batch
    ensures BatchDecorated(d, src, old(batch[..]), batch[..])
  {
    hide GroupDecorated;
    if d.IsEmpty() {
      EmptyDecoratorIsNoOp(d, src, batch[..]);
      return;
    }
    for i := 0 to batch.Length
      invariant forall k :: 0 <= k < i ==> GroupDecorated(d, src, old(batch[k]), batch[k])
      invariant forall k :: i <= k < batch.Length ==> batch[k] == old(batch[k])
    {
      var group := DecorateGroup(d, src, batch[i]);
      batch[i] := group;
    }
  }

  // ----- Nothing configured, nothing changed -----

  lemma EmptyItems(src: Source, items: seq<Item>)
    requires |src| == 0
    ensures forall i :: 0 <= i < |items| ==> ItemDecorated(src, items[i], items[i])
  {
    hide Overlay;
    forall attrs: Attrs ensures Overlay(attrs, src, attrs) {
      NothingLaidOver(attrs, src);
    }
  }

  lemma EmptyDecoratorIsNoOp(d: Decorator, src: Source, xs: seq<ResourceGroup>)
    requires d.IsEmpty() && src == map[]
    ensures BatchDecorated(d, src, xs, xs)
  {
    hide Overlay, ItemDecorated;
    forall attrs: Attrs ensures Overlay(attrs, map[], attrs) {
      NothingLaidOver(attrs, map[]);
    }
    forall i, j | 0 <= i < |xs| && 0 <= j < |xs[i].scopes|
      ensures ScopeGroupDecorated(d, src, xs[i].scopes[j], xs[i].scopes[j])
    {
      EmptyItems(src, xs[i].scopes[j].items);
    }
  }

  // ----- Properties of decorated batches -----

  lemma RecordIdempotent(src: Source, x: Record, y: Record, z: Record)
    requires RecordOverlaid(src, x, y) && RecordOverlaid(src, y, z)
    ensures z == y
  {
    hide Overlay;
    OverlayIdempotent(x.attrs, src, y.attrs, z.attrs);
  }

  lemma ItemIdempotent(src: Source, x: Item, y: Item, z: Item)
    requires ItemDecorated(src, x, y) && ItemDecorated(src, y, z)
    ensures z == y
  {
    hide RecordOverlaid;
    match x
    case Single(r) =>
      RecordIdempotent(src, r, y.record, z.record);
    case Metric(_, NoData) =>
    case Metric(_, data) =>
      var n := |data.points|;
      forall i | 0 <= i < n ensures z.data.points[i] == y.data.points[i] {
        RecordIdempotent(src, data.points[i], y.data.points[i], z.data.points[i]);
      }
      assert z.data.points == y.data.points;
  }

  /** Decorating a decorated batch changes nothing, whatever the orders of iteration. */
  lemma BatchIdempotent(d: Decorator, src: Source, xs: seq<ResourceGroup>, ys: seq<ResourceGroup>, zs: seq<ResourceGroup>)
    requires BatchDecorated(d, src, xs, ys) && BatchDecorated(d, src, ys, zs)
    ensures zs == ys
  {
    hide GroupDecorated;
    forall i | 0 <= i < |xs| ensures zs[i] == ys[i] {
      GroupIdempotent(d, src, xs[i], ys[i], zs[i]);
    }
  }

  lemma GroupIdempotent(d: Decorator, src: Source, x: ResourceGroup, y: ResourceGroup, z: ResourceGroup)
    requires GroupDecorated(d, src, x, y) && GroupDecorated(d, src, y, z)
    ensures z == y
  {
    hide Overlay, ScopeGroupDecorated;
    OverlayIdempotent(x.resource, d.resourceAttrs, y.resource, z.resource);
    forall j | 0 <= j < |x.scopes| ensures z.scopes[j] == y.scopes[j] {
      ScopeGroupIdempotent(d, src, x.scopes[j], y.scopes[j], z.scopes[j]);
    }
    assert z.scopes == y.scopes;
  }

  lemma ScopeGroupIdempotent(d: Decorator, src: Source, x: ScopeGroup, y: ScopeGroup, z: ScopeGroup)
    requires ScopeGroupDecorated(d, src, x, y) && ScopeGroupDecorated(d, src, y, z)
    ensures z == y
  {
    hide Overlay, ItemDecorated;
    OverlayIdempotent(x.scope.attrs, d.scopeAttrs, y.scope.attrs, z.scope.attrs);
    forall k | 0 <= k < |x.items| ensures z.items[k] == y.items[k] {
      ItemIdempotent(src, x.items[k], y.items[k], z.items[k]);
    }
    assert z.items == y.items;
  }

  // ----- What can be read off a decorated batch -----

  /** The configured value of a key, or else what was there. */
  predicate ReadsAs(x: Attrs, src: Source, y: Attrs) {
    && (forall k :: k in src ==> Get(y, k) == Some(Str(src[k])))
    && (forall i :: 0 <= i < |y| && y[i].key !in src ==> Get(y, y[i].key) == Get(x, y[i].key))
    && (forall i :: 0 <= i < |x| && x[i].key !in src ==> Get(y, x[i].key) == Get(x, x[i].key))
    && |x| <= |y| && (forall i :: 0 <= i < |x| ==> y[i].key == x[i].key)
  }

  lemma OverlayReads(x: Attrs, src: Source, y: Attrs)
    requires Overlay(x, src, y)
    ensures ReadsAs(x, src, y)
  {
    hide FirstIndex;
    forall k ensures Get(y, k) == if k in src then Some(Str(src[k])) else Get(x, k) {
      LookupIsOverlay(x, src, y, k);
    }
  }

  /** Resources and scopes of a decorated batch: each has its configured attributes, name and version,
      and otherwise its own. */
  lemma ScopeReads(d: Decorator, src: Source, xs: seq<ResourceGroup>, ys: seq<ResourceGroup>, i: nat, j: nat)
    requires BatchDecorated(d, src, xs, ys) && i < |xs| && j < |xs[i].scopes|
    ensures ReadsAs(xs[i].resource, d.resourceAttrs, ys[i].resource) && |ys[i].scopes| == |xs[i].scopes|
    ensures var x, y := xs[i].scopes[j].scope, ys[i].scopes[j].scope;
            && y.name == (if d.scopeName != "" then d.scopeName else x.name)
            && y.version == (if d.scopeVersion != "" then d.scopeVersion else x.version)
            && ReadsAs(x.attrs, d.scopeAttrs, y.attrs)
  {
    hide Overlay, ReadsAs, ItemDecorated;
    assert GroupDecorated(d, src, xs[i], ys[i]) && ScopeGroupDecorated(d, src, xs[i].scopes[j], ys[i].scopes[j]);
    OverlayReads(xs[i].resource, d.resourceAttrs, ys[i].resource);
    OverlayReads(xs[i].scopes[j].scope.attrs, d.scopeAttrs, ys[i].scopes[j].scope.attrs);
  }

  /** The records of an item: itself, or the data points of a metric. */
  function RecordsOf(item: Item): seq<Record> {
    match item
    case Single(r) => [r]
    case Metric(_, NoData) => []
    case Metric(_, data) => data.points
  }

  /** Records of a decorated batch: each, data points of every flavour included, has the configured
      attributes of its signal, and otherwise its own; all else about it is as before. */
  lemma RecordReads(d: Decorator, src: Source, xs: seq<ResourceGroup>, ys: seq<ResourceGroup>, i: nat, j: nat, k: nat, n: nat)
    requires BatchDecorated(d, src, xs, ys) && i < |xs| && j < |xs[i].scopes| && k < |xs[i].scopes[j].items|
    requires n < |RecordsOf(xs[i].scopes[j].items[k])|
    ensures |ys| == |xs| && |ys[i].scopes| == |xs[i].scopes| && |ys[i].scopes[j].items| == |xs[i].scopes[j].items|
    ensures var x, y := xs[i].scopes[j].items[k], ys[i].scopes[j].items[k];
            && |RecordsOf(y)| == |RecordsOf(x)|
            && ReadsAs(RecordsOf(x)[n].attrs, src, RecordsOf(y)[n].attrs)
            && RecordsOf(y)[n].payload == RecordsOf(x)[n].payload
            && (x.Metric? ==> y.Metric? && y.name == x.name)
  {
    hide Overlay, ReadsAs;
    var x, y := xs[i].scopes[j].items[k], ys[i].scopes[j].items[k];
    assert GroupDecorated(d, src, xs[i], ys[i]) && ScopeGroupDecorated(d, src, xs[i].scopes[j], ys[i].scopes[j]);
    assert ItemDecorated(src, x, y);
    assert RecordOverlaid(src, RecordsOf(x)[n], RecordsOf(y)[n]);
    OverlayReads(RecordsOf(x)[n].attrs, src, RecordsOf(y)[n].attrs);
  }

  // ----- Counting: a worker counts a batch before it decorates it -----

  function ItemCount(item: Item): nat {
    match item
    case Single(_) => 1
    case Metric(_, NoData) => 0
    case Metric(_, data) => |data.points|
  }

  function ItemsCount(items: seq<Item>): nat {
    if items == [] then 0 else ItemCount(items[0]) + ItemsCount(items[1..])
  }

  function ScopesCount(scopes: seq<ScopeGroup>): nat {
    if scopes == [] then 0 else ItemsCount(scopes[0].items) + ScopesCount(scopes[1..])
  }

  /** LogRecordCount, SpanCount or DataPointCount of a batch. */
  function BatchCount(batch: seq<ResourceGroup>): nat {
    if batch == [] then 0 else ScopesCount(batch[0].scopes) + BatchCount(batch[1..])
  }

  lemma {:induction false} ItemsCountKept(src: Source, xs: seq<Item>, ys: seq<Item>)
    requires |xs| == |ys| && forall i :: 0 <= i < |xs| ==> ItemDecorated(src, xs[i], ys[i])
    ensures ItemsCount(ys) == ItemsCount(xs)
  {
    hide RecordOverlaid;
    if xs != [] {
      assert ItemDecorated(src, xs[0], ys[0]);
      ItemsCountKept(src, xs[1..], ys[1..]);
    }
  }

  lemma {:induction false} ScopesCountKept(d: Decorator, src: Source, xs: seq<ScopeGroup>, ys: seq<ScopeGroup>)
    requires |xs| == |ys| && forall i :: 0 <= i < |xs| ==> ScopeGroupDecorated(d, src, xs[i], ys[i])
    ensures ScopesCount(ys) == ScopesCount(xs)
  {
    hide ItemDecorated, ScopeDecorated;
    if xs != [] {
      ItemsCountKept(src, xs[0].items, ys[0].items);
      ScopesCountKept(d, src, xs[1..], ys[1..]);
    }
  }

  /** Decoration neither adds nor drops a record. */
  lemma {:induction false} CountKept(d: Decorator, src: Source, xs: seq<ResourceGroup>, ys: seq<ResourceGroup>)
    requires BatchDecorated(d, src, xs, ys)
    ensures BatchCount(ys) == BatchCount(xs)
  {
    hide ScopeGroupDecorated, Overlay;
    if xs != [] {
      ScopesCountKept(d, src, xs[0].scopes, ys[0].scopes);
      CountKept(d, src, xs[1..], ys[1..]);
    }
  }
}
