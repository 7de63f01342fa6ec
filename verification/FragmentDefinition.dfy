/** PipelineFragmentDefinition::ToJson and FromJson: what the shortened form keeps of the object references. */
module FragmentDefinition {
  import opened Sequences

  datatype Option<T> = None | Some(value: T)

  datatype ObjectReference = ObjectReference(bucket: string, identifier: string, etag: string,
                                             partitions: Option<seq<int>>)

  type Objects = map<string, seq<ObjectReference>>

  datatype Definition = Definition(inputs: Objects, target: ObjectReference, format: string)

  /** An entry of the JSON array "objects". */
  datatype ObjectJson = ObjectJson(suffix: string, etag: string)

  /** The JSON object of one import identity. */
  datatype InputJson = InputJson(bucket: string, prefix: string, partitions: Option<seq<int>>, objects: seq<ObjectJson>)

  datatype DefinitionJson = DefinitionJson(inputs: map<string, InputJson>, target: ObjectReference, format: string)

  // ----- identifiers -----

  /** The position of the last '/', -1 for npos. */
  function FindLastSlash(s: string): (k: int)
    ensures -1 <= k < |s|
    ensures k >= 0 ==> s[k] == '/'
    ensures forall i :: k < i < |s| ==> s[i] != '/'
  {
    if s == [] then -1
    else if s[|s| - 1] == '/' then |s| - 1
    else FindLastSlash(s[..|s| - 1])
  }

  /** substr(0, n), where npos takes the whole string. */
  function FrontOf(s: string, n: int): string
    requires -1 <= n <= |s|
  {
    if n == -1 then s else s[..n]
  }

  function SecondToLastSlash(s: string): (k: int)
    ensures -1 <= k < |s|
  {
    FindLastSlash(FrontOf(s, FindLastSlash(s)))
  }

  function Prefix(s: string): string {
    FrontOf(s, SecondToLastSlash(s))
  }

  /** Everything after the separator; npos + 1 is 0. */
  function Suffix(s: string): string {
    s[SecondToLastSlash(s) + 1..]
  }

  ghost predicate TwoSlashes(s: string) {
    exists i, j :: 0 <= i < j < |s| && s[i] == '/' && s[j] == '/'
  }

  lemma SecondSlashAt(s: string)
    ensures var k := SecondToLastSlash(s);
            k >= 0 ==> k < FindLastSlash(s) && s[k] == '/'
  {}

  /** Two separators are found exactly when there are two. */
  lemma TwoSlashesFound(s: string)
    ensures TwoSlashes(s) <==> SecondToLastSlash(s) >= 0
  {
    SecondSlashAt(s);
    if TwoSlashes(s) {
      var i, j :| 0 <= i < j < |s| && s[i] == '/' && s[j] == '/';
      assert j <= FindLastSlash(s);
      assert FrontOf(s, FindLastSlash(s))[i] == '/';
    }
  }

  lemma SplitAtSlash(s: string)
    ensures SecondToLastSlash(s) >= 0 ==> s == Prefix(s) + "/" + Suffix(s)
    ensures SecondToLastSlash(s) < 0 ==> Prefix(s) == s && Suffix(s) == s
  {
    SecondSlashAt(s);
    var k := SecondToLastSlash(s);
    if k >= 0 {
      RemoveAt(s, k);
    }
  }

  predicate NoSlash(s: string) {
    forall k :: 0 <= k < |s| ==> s[k] != '/'
  }

  lemma LastSlashIs(s: string, k: nat)
    requires k < |s| && s[k] == '/' && forall i :: k < i < |s| ==> s[i] != '/'
    ensures FindLastSlash(s) == k
  {}

  lemma AfterSeparator(front: string, separator: string, last: string)
    requires |separator| == 1
    ensures var s := front + separator + last; |s| == |front| + 1 + |last| && s[|front|] == separator[0]
    ensures (front + separator + last)[|front| + 1..] == last
  {}

  lemma LastSlashAt(front: string, last: string)
    requires NoSlash(last)
    ensures FindLastSlash(front + "/" + last) == |front|
  {
    var s, n := front + "/" + last, |front|;
    AfterSeparator(front, "/", last);
    LastSlashBefore(s, n, last);
  }

  lemma LastSlashBefore(s: string, n: nat, last: string)
    requires n < |s| && s[n] == '/' && s[n + 1..] == last && NoSlash(last)
    ensures FindLastSlash(s) == n
  {
    forall i | n < i < |s|
      ensures s[i] != '/'
    {
      assert s[i] == last[i - n - 1];
    }
    LastSlashIs(s, n);
  }

  /** The prefix is all before the last but one '/', the suffix all after it. */
  lemma SplitExact(a: string, b: string, c: string)
    requires NoSlash(b) && NoSlash(c)
    ensures Prefix(a + "/" + b + "/" + c) == a && Suffix(a + "/" + b + "/" + c) == b + "/" + c
  {
    var front := a + "/" + b;
    var s := front + "/" + c;
    LastSlashAt(front, c);
    assert FrontOf(s, |front|) == front;
    LastSlashAt(a, b);
    assert SecondToLastSlash(s) == |a|;
    assert s[..|a|] == a && s[|a| + 1..] == b + "/" + c;
  }

  /** With fewer than two '/' both are the whole identifier. */
  lemma NothingSplit(s: string)
    ensures Prefix(s) == s && Suffix(s) == s <==> !TwoSlashes(s)
  {
    TwoSlashesFound(s);
    SplitAtSlash(s);
  }

  /** An identifier is rebuilt from another one's prefix exactly when it has two separators and the same prefix. */
  lemma RebuiltExact(first: string, s: string)
    ensures Prefix(first) + "/" + Suffix(s) == s <==> TwoSlashes(s) && Prefix(first) == Prefix(s)
  {
    TwoSlashesFound(s);
    SplitAtSlash(s);
    if TwoSlashes(s) {
      if Prefix(first) + "/" + Suffix(s) == s {
        var n := |s| - |Suffix(s)| - 1;
        assert (Prefix(first) + "/" + Suffix(s))[..n] == Prefix(first);
        assert (Prefix(s) + "/" + Suffix(s))[..n] == Prefix(s);
      }
    } else {
      assert |Prefix(first) + "/" + Suffix(s)| > |s|;
    }
  }

  // ----- one import identity -----

  function ObjectsToJson(objects: seq<ObjectReference>): (r: seq<ObjectJson>) {
    Map((o: ObjectReference) => ObjectJson(Suffix(o.identifier), o.etag), objects)
  }

  function Rebuild(json: InputJson): ObjectJson -> ObjectReference {
    (o: ObjectJson) => ObjectReference(json.bucket, json.prefix + "/" + o.suffix, o.etag, json.partitions)
  }

  /** What FromJson reads for one identity. */
  function ObjectsFromJson(json: InputJson): seq<ObjectReference> {
    Map(Rebuild(json), json.objects)
  }

  function InputToJson(objects: seq<ObjectReference>): InputJson
    requires objects != []
  {
    InputJson(objects[0].bucket, Prefix(objects[0].identifier), objects[0].partitions, ObjectsToJson(objects))
  }

  /** The objects of one identity may be shortened without loss. */
  ghost predicate Shares(objects: seq<ObjectReference>) {
    objects != [] &&
    forall o :: o in objects ==>
      && o.bucket == objects[0].bucket && o.partitions == objects[0].partitions
      && TwoSlashes(o.identifier) && Prefix(o.identifier) == Prefix(objects[0].identifier)
  }

  lemma ObjectRebuilt(objects: seq<ObjectReference>, k: nat)
    requires k < |objects|
    ensures ObjectsFromJson(InputToJson(objects))[k] == objects[k] <==>
            && objects[k].bucket == objects[0].bucket && objects[k].partitions == objects[0].partitions
            && TwoSlashes(objects[k].identifier) && Prefix(objects[k].identifier) == Prefix(objects[0].identifier)
  {
    RebuiltExact(objects[0].identifier, objects[k].identifier);
  }

  lemma InputRoundTrip(objects: seq<ObjectReference>)
    requires objects != []
    ensures ObjectsFromJson(InputToJson(objects)) == objects <==> Shares(objects)
  {
    var back := ObjectsFromJson(InputToJson(objects));
    if Shares(objects) {
      forall k | 0 <= k < |objects|
        ensures back[k] == objects[k]
      {
        assert objects[k] in objects;
        ObjectRebuilt(objects, k);
      }
    }
    if back == objects {
      forall o | o in objects
        ensures o.bucket == objects[0].bucket && o.partitions == objects[0].partitions
        ensures TwoSlashes(o.identifier) && Prefix(o.identifier) == Prefix(objects[0].identifier)
      {
        var k :| 0 <= k < |objects| && objects[k] == o;
        ObjectRebuilt(objects, k);
      }
    }
  }

  // ----- the loops -----

  /** The order in which an unordered map is traversed. */
  ghost predicate Traverses<V>(ids: seq<string>, m: map<string, V>) {
    NoDup(ids) && forall id :: id in ids <==> id in m
  }

  /** An identity without objects keeps whatever bucket and prefix the loop saw last. */
  ghost predicate Written(objects: seq<ObjectReference>, json: InputJson) {
    if objects == [] then json.objects == [] else json == InputToJson(objects)
  }

  method ToJson(d: Definition, ids: seq<string>) returns (json: DefinitionJson)
    requires Traverses(ids, d.inputs)
    ensures json.target == d.target && json.format == d.format
    ensures json.inputs.Keys == d.inputs.Keys
    ensures forall id :: id in d.inputs ==> Written(d.inputs[id], json.inputs[id])
  {
    var bucket, prefix := "", "";
    var partitions: Option<seq<int>> := None;
    var inputs: map<string, InputJson> := map[];
    for k := 0 to |ids|
      invariant forall id :: id in inputs <==> id in ids[..k]
      invariant forall id :: id in inputs ==> id in d.inputs && Written(d.inputs[id], inputs[id])
    {
      assert ids[k] in ids;
      TakeNext(ids, k);
      var objects := d.inputs[ids[k]];
      var entries: seq<ObjectJson> := [];
      for i := 0 to |objects|
        invariant entries == ObjectsToJson(objects[..i])
        invariant i > 0 ==> bucket == objects[0].bucket && prefix == Prefix(objects[0].identifier)
        invariant i > 0 ==> partitions == objects[0].partitions
      {
        TakeNext(objects, i);
        if i == 0 {
          bucket, prefix, partitions := objects[i].bucket, Prefix(objects[i].identifier), objects[i].partitions;
        }
        entries := entries + [ObjectJson(Suffix(objects[i].identifier), objects[i].etag)];
      }
      TakeAll(objects);
      inputs := inputs[ids[k] := InputJson(bucket, prefix, partitions, entries)];
    }
    TakeAll(ids);
    json := DefinitionJson(inputs, d.target, d.format);
  }

  method FromJson(json: DefinitionJson, ids: seq<string>) returns (d: Definition)
    requires Traverses(ids, json.inputs)
    ensures d.target == json.target && d.format == json.format
    ensures forall id :: id in d.inputs <==> id in json.inputs && json.inputs[id].objects != []
    ensures forall id :: id in d.inputs ==> d.inputs[id] == ObjectsFromJson(json.inputs[id])
  {
    var inputs: Objects := map[];
    for k := 0 to |ids|
      invariant forall id :: id in inputs <==> id in ids[..k] && id in json.inputs && json.inputs[id].objects != []
      invariant forall id :: id in inputs ==> inputs[id] == ObjectsFromJson(json.inputs[id])
    {
      assert ids[k] in ids && ids[k] !in ids[..k];
      TakeNext(ids, k);
      inputs := AppendObjects(inputs, ids[k], json.inputs[ids[k]]);
    }
    TakeAll(ids);
    d := Definition(inputs, json.target, json.format);
  }

  /** The inner loop: the first object creates the entry, so without objects there is none. */
  method AppendObjects(before: Objects, id: string, json: InputJson) returns (inputs: Objects)
    requires id !in before
    ensures inputs == if json.objects == [] then before else before[id := ObjectsFromJson(json)]
  {
    inputs := before;
    for i := 0 to |json.objects|
      invariant inputs == if i == 0 then before else before[id := Map(Rebuild(json), json.objects[..i])]
    {
      var o := json.objects[i];
      var objects := if id in inputs then inputs[id] else [];
      TakeNext(json.objects, i);
      MapAppend(Rebuild(json), json.objects[..i], [o]);
      assert i == 0 ==> objects == Map(Rebuild(json), json.objects[..i]);
      assert Map(Rebuild(json), [o]) == [Rebuild(json)(o)];
      var reference := ObjectReference(json.bucket, json.prefix + "/" + o.suffix, o.etag, json.partitions);
      inputs := inputs[id := objects + [reference]];
    }
    TakeAll(json.objects);
  }

  // ----- the round trip -----

  ghost predicate AllShare(inputs: Objects) {
    forall id :: id in inputs ==> Shares(inputs[id])
  }

  /** One identity of the result, if it is there, and of the definition. */
  ghost predicate Restored(inputs: Objects, id: string, objects: seq<ObjectReference>) {
    id in inputs && inputs[id] == objects
  }

  ghost predicate ReadBack(json: map<string, InputJson>, back: Objects, id: string) {
    id in json && (if json[id].objects == [] then id !in back else Restored(back, id, ObjectsFromJson(json[id])))
  }

  lemma InputRestored(objects: seq<ObjectReference>, json: map<string, InputJson>, back: Objects, id: string)
    requires id in json && Written(objects, json[id]) && ReadBack(json, back, id)
    ensures Restored(back, id, objects) <==> Shares(objects)
  {
    if objects != [] {
      InputRoundTrip(objects);
    }
  }

  lemma SameMap(a: Objects, b: Objects)
    requires a.Keys <= b.Keys
    ensures a == b <==> forall id :: id in b ==> Restored(a, id, b[id])
  {
    if forall id :: id in b ==> Restored(a, id, b[id]) {
      assert a.Keys == b.Keys;
    }
  }

  lemma InputsRestored(inputs: Objects, json: map<string, InputJson>, back: Objects)
    requires json.Keys == inputs.Keys && back.Keys <= inputs.Keys
    requires forall id :: id in inputs ==> Written(inputs[id], json[id])
    requires forall id :: id in inputs ==> ReadBack(json, back, id)
    ensures back == inputs <==> AllShare(inputs)
  {
    SameMap(back, inputs);
    forall id | id in inputs
      ensures Restored(back, id, inputs[id]) <==> Shares(inputs[id])
    {
      InputRestored(inputs[id], json, back, id);
    }
  }

  /** FromJson(ToJson(d)) is d exactly when every identity has objects and all of them can be shortened alike. */
  method RoundTrip(d: Definition, ids: seq<string>, jsonIds: seq<string>) returns (back: Definition)
    requires Traverses(ids, d.inputs) && Traverses(jsonIds, d.inputs)
    ensures back == d <==> AllShare(d.inputs)
  {
    var json := ToJson(d, ids);
    assert forall id :: id in json.inputs <==> id in json.inputs.Keys;
    assert Traverses(jsonIds, json.inputs);
    back := FromJson(json, jsonIds);
    forall id | id in d.inputs
      ensures ReadBack(json.inputs, back.inputs, id)
    {}
    InputsRestored(d.inputs, json.inputs, back.inputs);
  }
}
