/**
 Attribute merging and lookup (internal/otlp/attributes.go).

 MergeAttributes keeps a key -> index map beside the list it builds. The
 specification has no such map: a merged list has its keys in the order in
 which they first occur in the input, and a search of it finds what a backwards
 search of the input finds.
 */
module Attributes {
  import opened Wrappers

  // The OTLP value union. A double is kept as the text it is rendered to.
  datatype AnyValue = AnyValue(
    stringValue: Option<string>,
    intValue: Option<string>,
    doubleText: Option<string>,
    boolValue: Option<bool>)

  datatype KeyValue = KeyValue(key: string, value: AnyValue)

  function AnyValueToString(v: AnyValue): string {
    if v.stringValue.Some? then v.stringValue.value
    else if v.intValue.Some? then v.intValue.value
    else if v.doubleText.Some? then v.doubleText.value
    else if v.boolValue.Some? then (if v.boolValue.value then "true" else "false")
    else ""
  }

  /** Which member of the union is shown, and how. */
  lemma TextMeans(v: AnyValue)
    ensures v.stringValue.Some? ==> AnyValueToString(v) == v.stringValue.value
    ensures v.stringValue.None? && v.intValue.Some? ==> AnyValueToString(v) == v.intValue.value
    ensures v == AnyValue(None, None, v.doubleText, v.boolValue) && v.doubleText.Some? ==>
              AnyValueToString(v) == v.doubleText.value
    ensures v == AnyValue(None, None, None, Some(true)) ==> AnyValueToString(v) == "true"
    ensures v == AnyValue(None, None, None, Some(false)) ==> AnyValueToString(v) == "false"
    ensures v == AnyValue(None, None, None, None) ==> AnyValueToString(v) == ""
  {
  }

  // ----- Reference definitions -----

  function Flatten(slices: seq<seq<KeyValue>>): seq<KeyValue> {
    if slices == [] then [] else Flatten(slices[..|slices| - 1]) + slices[|slices| - 1]
  }

  function Keys(kvs: seq<KeyValue>): seq<string> {
    seq(|kvs|, i requires 0 <= i < |kvs| => kvs[i].key)
  }

  /** Drops every occurrence of a key but the first. */
  function FirstOccurrences(keys: seq<string>): seq<string> {
    if keys == [] then []
    else
      var init := FirstOccurrences(keys[..|keys| - 1]);
      var last := keys[|keys| - 1];
      if last in init then init else init + [last]
  }

  /** Forward search: the first binding of a key. */
  function FindFirst(kvs: seq<KeyValue>, key: string): Option<KeyValue> {
    if kvs == [] then None
    else if kvs[0].key == key then Some(kvs[0])
    else FindFirst(kvs[1..], key)
  }

  /** Backward search: the last binding of a key. */
  function FindLast(kvs: seq<KeyValue>, key: string): Option<KeyValue> {
    if kvs == [] then None
    else
      var last := kvs[|kvs| - 1];
      if last.key == key then Some(last) else FindLast(kvs[..|kvs| - 1], key)
  }

  predicate UniqueKeys(kvs: seq<KeyValue>) {
    forall i, j :: 0 <= i < j < |kvs| ==> kvs[i].key != kvs[j].key
  }

  /** What a merge of the bindings in flat has to be. */
  ghost predicate IsMergeOf(merged: seq<KeyValue>, flat: seq<KeyValue>) {
    && Keys(merged) == FirstOccurrences(Keys(flat))
    && forall i :: 0 <= i < |merged| ==> FindLast(flat, merged[i].key) == Some(merged[i])
  }

  // ----- The code -----

  method MergeAttributes(slices: seq<seq<KeyValue>>) returns (result: seq<KeyValue>)
    ensures IsMergeOf(result, Flatten(slices))
  {
    hide IsMergeOf, FirstOccurrences, FindLast, UniqueKeys;
    var seen: map<string, nat> := map[];
    result := [];
    MergeOfNothing();
    ghost var flat: seq<KeyValue> := [];
    for i := 0 to |slices|
      invariant flat == Flatten(slices[..i])
      invariant IsMergeOf(result, flat) && Indexes(seen, result)
    {
      var attrs := slices[i];
      ghost var before := flat;
      for j := 0 to |attrs|
        invariant flat == before + attrs[..j]
        invariant IsMergeOf(result, flat) && Indexes(seen, result)
      {
        var kv := attrs[j];
        MergeStep(result, flat, kv);
        assert before + attrs[..j + 1] == flat + [kv];
        if kv.key in seen {
          result := result[seen[kv.key] := kv];
        } else {
          assert forall k :: 0 <= k < |result| ==> result[k].key != kv.key;
          seen := seen[kv.key := |result|];
          result := result + [kv];
        }
        flat := flat + [kv];
      }
      assert slices[..i + 1][..i] == slices[..i];
      assert attrs[..|attrs|] == attrs;
    }
    assert slices[..|slices|] == slices;
  }

  method FindAttribute(attrs: seq<KeyValue>, key: string) returns (text: string)
    ensures text == match FindFirst(attrs, key)
                    case Some(kv) => AnyValueToString(kv.value)
                    case None => ""
    ensures (forall i :: 0 <= i < |attrs| ==> attrs[i].key != key) ==> text == ""
    ensures forall i :: 0 <= i < |attrs| && attrs[i].key == key && (forall j :: 0 <= j < i ==> attrs[j].key != key) ==>
              text == AnyValueToString(attrs[i].value)
  {
    for i := 0 to |attrs|
      invariant FindFirst(attrs, key) == FindFirst(attrs[i..], key)
      invariant forall j :: 0 <= j < i ==> attrs[j].key != key
    {
      if attrs[i].key == key {
        return AnyValueToString(attrs[i].value);
      }
    }
    return "";
  }

  lemma MergeOfNothing()
    ensures IsMergeOf([], [])
  {
  }

  // seen maps exactly the keys of result to their positions.
  ghost predicate Indexes(seen: map<string, nat>, result: seq<KeyValue>) {
    && (forall k :: k in seen ==> seen[k] < |result| && result[seen[k]].key == k)
    && (forall i :: 0 <= i < |result| ==> result[i].key in seen && seen[result[i].key] == i)
  }

  // One loop step: overwrite the key's slot, or append.
  lemma MergeStep(result: seq<KeyValue>, flat: seq<KeyValue>, kv: KeyValue)
    requires IsMergeOf(result, flat)
    ensures forall p :: 0 <= p < |result| && result[p].key == kv.key && UniqueKeys(result) ==>
              IsMergeOf(result[p := kv], flat + [kv])
    ensures kv.key !in Keys(result) ==> IsMergeOf(result + [kv], flat + [kv])
    ensures UniqueKeys(result)
  {
    var ks := Keys(flat);
    MergedKeysUnique(result, flat);
    assert Keys(flat + [kv]) == ks + [kv.key];
    assert (ks + [kv.key])[..|ks|] == ks;
    assert forall k :: k != kv.key ==> FindLast(flat + [kv], k) == FindLast(flat, k) by {
      assert (flat + [kv])[..|flat|] == flat;
    }
    forall p | 0 <= p < |result| && result[p].key == kv.key && UniqueKeys(result)
      ensures IsMergeOf(result[p := kv], flat + [kv])
    {
      assert Keys(result)[p] == kv.key;
      assert Keys(result[p := kv]) == Keys(result);
    }
    if kv.key !in Keys(result) {
      assert Keys(result + [kv]) == Keys(result) + [kv.key];
      forall i | 0 <= i < |result| ensures result[i].key != kv.key {
        assert Keys(result)[i] == result[i].key;
      }
    }
  }

  lemma {:induction false} FirstOccurrencesUnique(keys: seq<string>)
    ensures forall i, j :: 0 <= i < j < |FirstOccurrences(keys)| ==>
              FirstOccurrences(keys)[i] != FirstOccurrences(keys)[j]
    ensures forall k :: k in FirstOccurrences(keys) <==> k in keys
  {
    if keys != [] {
      FirstOccurrencesUnique(keys[..|keys| - 1]);
      assert keys == keys[..|keys| - 1] + [keys[|keys| - 1]];
    }
  }

  lemma MergedKeysUnique(merged: seq<KeyValue>, flat: seq<KeyValue>)
    requires IsMergeOf(merged, flat)
    ensures UniqueKeys(merged)
  {
    FirstOccurrencesUnique(Keys(flat));
    forall i, j | 0 <= i < j < |merged| ensures merged[i].key != merged[j].key {
      assert Keys(merged)[i] == merged[i].key && Keys(merged)[j] == merged[j].key;
    }
  }

  lemma {:induction false} FindFirstAt(kvs: seq<KeyValue>, i: nat)
    requires UniqueKeys(kvs) && i < |kvs|
    ensures FindFirst(kvs, kvs[i].key) == Some(kvs[i])
  {
    if i > 0 {
      FindFirstAt(kvs[1..], i - 1);
    }
  }

  lemma {:induction false} FindMissing(kvs: seq<KeyValue>, key: string)
    ensures FindFirst(kvs, key) == None <==> key !in Keys(kvs)
    ensures FindLast(kvs, key) == None <==> key !in Keys(kvs)
  {
    if kvs != [] {
      FindMissing(kvs[1..], key);
      FindMissing(kvs[..|kvs| - 1], key);
      assert Keys(kvs) == [kvs[0].key] + Keys(kvs[1..]);
      assert Keys(kvs) == Keys(kvs[..|kvs| - 1]) + [kvs[|kvs| - 1].key];
    }
  }

  // ----- What callers rely on -----

  /** A forward search of the merged list is a backward search of the input. */
  lemma LookupIsLastBinding(merged: seq<KeyValue>, flat: seq<KeyValue>, key: string)
    requires IsMergeOf(merged, flat)
    ensures UniqueKeys(merged)
    ensures FindFirst(merged, key) == FindLast(flat, key)
  {
    MergedKeysUnique(merged, flat);
    FirstOccurrencesUnique(Keys(flat));
    if key in Keys(merged) {
      var i :| 0 <= i < |Keys(merged)| && Keys(merged)[i] == key;
      FindFirstAt(merged, i);
    } else {
      FindMissing(merged, key);
      FindMissing(flat, key);
    }
  }

  /** Every merged binding is one of the input, and none of its key follows that one. */
  lemma LastByPosition(merged: seq<KeyValue>, flat: seq<KeyValue>, i: nat)
    requires IsMergeOf(merged, flat) && i < |merged|
    ensures exists k :: 0 <= k < |flat| && flat[k] == merged[i] && forall m :: k < m < |flat| ==> flat[m].key != merged[i].key
  {
    LastAt(flat, merged[i].key);
  }

  lemma {:induction false} LastAt(flat: seq<KeyValue>, key: string)
    requires FindLast(flat, key).Some?
    ensures exists k :: 0 <= k < |flat| && flat[k] == FindLast(flat, key).value && forall m :: k < m < |flat| ==> flat[m].key != key
  {
    var n := |flat| - 1;
    if flat[n].key != key {
      LastAt(flat[..n], key);
      var k :| 0 <= k < n && flat[..n][k] == FindLast(flat, key).value && forall m :: k < m < n ==> flat[..n][m].key != key;
      assert flat[k] == flat[..n][k];
      forall m | k < m < |flat| ensures flat[m].key != key {
        if m < n {
          assert flat[m] == flat[..n][m];
        }
      }
    }
  }

  /** Of two merged keys the one that occurs earlier comes first, and every key of the input is there. */
  lemma KeysByPosition(merged: seq<KeyValue>, flat: seq<KeyValue>)
    requires IsMergeOf(merged, flat)
    ensures forall k :: 0 <= k < |flat| ==> exists i :: 0 <= i < |merged| && merged[i].key == flat[k].key
    ensures forall i, j :: 0 <= i < j < |merged| ==> OccursBefore(Keys(flat), merged[i].key, merged[j].key)
  {
    var ks := Keys(flat);
    FirstOccurrencesUnique(ks);
    forall k | 0 <= k < |flat| ensures exists i :: 0 <= i < |merged| && merged[i].key == flat[k].key {
      assert ks[k] in FirstOccurrences(ks);
      var i :| 0 <= i < |Keys(merged)| && Keys(merged)[i] == ks[k];
      assert merged[i].key == flat[k].key;
    }
    forall i, j | 0 <= i < j < |merged| ensures OccursBefore(ks, merged[i].key, merged[j].key) {
      assert Keys(merged)[i] == merged[i].key && Keys(merged)[j] == merged[j].key;
      FirstOccurrencesInOrder(ks, i, j);
    }
  }

  /** Some x stands before every y. */
  ghost predicate OccursBefore(keys: seq<string>, x: string, y: string) {
    exists k :: 0 <= k < |keys| && keys[k] == x && forall m :: 0 <= m < |keys| && keys[m] == y ==> k < m
  }

  lemma {:induction false} FirstOccurrencesInOrder(keys: seq<string>, i: nat, j: nat)
    requires i < j < |FirstOccurrences(keys)|
    ensures OccursBefore(keys, FirstOccurrences(keys)[i], FirstOccurrences(keys)[j])
  {
    var n := |keys| - 1;
    var init := keys[..n];
    FirstOccurrencesUnique(init);
    var firsts := FirstOccurrences(init);
    var x, y := FirstOccurrences(keys)[i], FirstOccurrences(keys)[j];
    if j < |firsts| {
      FirstOccurrencesInOrder(init, i, j);
      var k :| 0 <= k < n && init[k] == x && forall m :: 0 <= m < n && init[m] == y ==> k < m;
      assert keys[k] == x;
    } else {
      assert y == keys[n] && y !in init && x in init;
      var k :| 0 <= k < n && init[k] == x;
      forall m | 0 <= m < n ensures keys[m] != y {
        assert init[m] == keys[m];
      }
      assert keys[k] == x;
    }
  }

  /** The merge depends on the concatenation only, so merging slices and merging
      their concatenation give the same list. */
  lemma MergeOfSlicesIsMergeOfConcatenation(slices: seq<seq<KeyValue>>, a: seq<KeyValue>, b: seq<KeyValue>)
    requires IsMergeOf(a, Flatten(slices)) && IsMergeOf(b, Flatten([Flatten(slices)]))
    ensures a == b
  {
    var flat := Flatten(slices);
    assert Flatten([flat]) == flat by {
      assert [flat][..0] == [];
      assert Flatten([flat]) == Flatten([flat][..0]) + flat;
    }
    assert |a| == |Keys(a)| == |Keys(b)| == |b|;
    forall i | 0 <= i < |a| ensures a[i] == b[i] {
      assert Keys(a)[i] == a[i].key == Keys(b)[i] == b[i].key;
    }
  }

  lemma {:induction false} FindLastInConcat(a: seq<KeyValue>, b: seq<KeyValue>, key: string)
    ensures FindLast(a + b, key) == if FindLast(b, key).Some? then FindLast(b, key) else FindLast(a, key)
  {
    if b == [] {
      assert a + b == a;
    } else {
      assert (a + b)[..|a + b| - 1] == a + b[..|b| - 1];
      FindLastInConcat(a, b[..|b| - 1], key);
    }
  }

  /** Flattened spans merge resource, scope and span attributes in that order: the
      span's binding wins over the scope's, and the scope's over the resource's. */
  lemma SpanOverridesScopeOverridesResource(
    resource: seq<KeyValue>, scope: seq<KeyValue>, span: seq<KeyValue>, merged: seq<KeyValue>, key: string)
    requires IsMergeOf(merged, Flatten([resource, scope, span]))
    ensures FindFirst(merged, key)
         == if FindLast(span, key).Some? then FindLast(span, key)
            else if FindLast(scope, key).Some? then FindLast(scope, key)
            else FindLast(resource, key)
  {
    assert Flatten([resource, scope, span]) == resource + scope + span by {
      assert [resource, scope, span][..2] == [resource, scope];
      assert [resource, scope][..1] == [resource];
      assert [resource][..0] == [];
      assert Flatten([]) == [];
      assert Flatten([resource]) == resource;
      assert Flatten([resource, scope]) == resource + scope;
    }
    LookupIsLastBinding(merged, resource + scope + span, key);
    FindLastInConcat(resource + scope, span, key);
    FindLastInConcat(resource, scope, key);
  }
}
