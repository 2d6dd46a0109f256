/** The template/attribute engine shared by world classes and character
    categories: instantiating attributes from a template, renaming and
    removing template fields, propagating a rename or removal to instance
    attributes by key string, and the non-destructive merge used when an
    instance switches class. */
module Templates {
  import opened Text
  import opened Ids
  import opened Types
  import opened Collections

  // ---------------------------------------------------------------------------
  // Looking up classes and fields

  /** `classes.find(c => c.id === id)`. */
  function FindClass(classes: seq<EntityClass>, id: string): (r: Option<EntityClass>)
    ensures r.None? <==> forall i :: 0 <= i < |classes| ==> classes[i].id != id
    ensures r.Some? ==> r.value.id == id &&
                        exists k :: 0 <= k < |classes| && classes[k] == r.value &&
                                    forall j :: 0 <= j < k ==> classes[j].id != id
  {
    var k := IndexOf(classes, id, ClassId);
    if k == -1 then None else Some(classes[k])
  }

  /** `c => c.id !== id`, the filter that deletes a class. */
  function OtherClass(id: string): EntityClass -> bool
  {
    (c: EntityClass) => c.id != id
  }

  /** `template.find(t => t.id === fieldId)?.key`: the key of the first field with that id. */
  function FieldKey(template: seq<AttributeTemplate>, fieldId: string): (r: Option<string>)
    ensures r.None? <==> forall i :: 0 <= i < |template| ==> template[i].id != fieldId
    ensures r.Some? ==> exists k :: 0 <= k < |template| && template[k].id == fieldId &&
                                    template[k].key == r.value &&
                                    forall j :: 0 <= j < k ==> template[j].id != fieldId
  {
    if template == [] then None
    else if template[0].id == fieldId then Some(template[0].key)
    else
      var r := FieldKey(template[1..], fieldId);
      if r.Some? then
        ghost var k :| 0 <= k < |template[1..]| && template[1..][k].id == fieldId &&
                       template[1..][k].key == r.value &&
                       forall j :: 0 <= j < k ==> template[1..][j].id != fieldId;
        assert template[k + 1].id == fieldId && template[k + 1].key == r.value;
        r
      else r
  }

  // ---------------------------------------------------------------------------
  // Instantiating

  /** `template.map(t => ({ id: generateId(), key: t.key, value: "" }))`:
      one empty attribute per field, in template order, with fresh ids. */
  function InstantiateAttributes(template: seq<AttributeTemplate>, seed: nat): (r: seq<KeyValue>)
    ensures |r| == |template|
    ensures forall i :: 0 <= i < |r| ==> r[i].key == template[i].key && r[i].value == ""
    ensures forall i :: 0 <= i < |r| ==> r[i].id == MakeId(seed + i)
  {
    seq(|template|, i requires 0 <= i < |template| => KeyValue(MakeId(seed + i), template[i].key, ""))
  }

  /** Instantiated attributes never share an id. */
  lemma InstantiatedIdsDistinct(template: seq<AttributeTemplate>, seed: nat)
    ensures forall i, j :: 0 <= i < j < |template| ==>
              InstantiateAttributes(template, seed)[i].id != InstantiateAttributes(template, seed)[j].id
  {
    forall i, j | 0 <= i < j < |template|
      ensures InstantiateAttributes(template, seed)[i].id != InstantiateAttributes(template, seed)[j].id
    {
      MakeIdInjective(seed + i, seed + j);
    }
  }

  // ---------------------------------------------------------------------------
  // Attribute-level propagation

  /** Some attribute carries the key. */
  predicate HasKey(attrs: seq<KeyValue>, key: string)
  {
    exists i :: 0 <= i < |attrs| && attrs[i].key == key
  }

  /** `attrs.map(a => a.key === oldKey ? { ...a, key: newKey } : a)`. */
  function RenameKey(attrs: seq<KeyValue>, oldKey: string, newKey: string): (r: seq<KeyValue>)
    ensures |r| == |attrs|
    ensures forall i :: 0 <= i < |r| ==> r[i].id == attrs[i].id && r[i].value == attrs[i].value
    ensures forall i :: 0 <= i < |r| && attrs[i].key == oldKey ==> r[i].key == newKey
    ensures forall i :: 0 <= i < |r| && attrs[i].key != oldKey ==> r[i] == attrs[i]
  {
    UpdateWhere(attrs, (a: KeyValue) => a.key == oldKey, (a: KeyValue) => a.(key := newKey))
  }

  /** After a rename to a different key, no attribute keeps the old key. */
  lemma RenameKeyRemovesOldKey(attrs: seq<KeyValue>, oldKey: string, newKey: string)
    requires oldKey != newKey
    ensures !HasKey(RenameKey(attrs, oldKey, newKey), oldKey)
    ensures HasKey(attrs, oldKey) ==> HasKey(RenameKey(attrs, oldKey, newKey), newKey)
  {
    var r := RenameKey(attrs, oldKey, newKey);
    if HasKey(attrs, oldKey) {
      var i :| 0 <= i < |attrs| && attrs[i].key == oldKey;
      assert r[i].key == newKey;
    }
  }

  /** Renaming back undoes a rename, provided the new key was not in use. */
  lemma RenameKeyRoundTrip(attrs: seq<KeyValue>, oldKey: string, newKey: string)
    requires !HasKey(attrs, newKey)
    ensures RenameKey(RenameKey(attrs, oldKey, newKey), newKey, oldKey) == attrs
  {
    var r := RenameKey(RenameKey(attrs, oldKey, newKey), newKey, oldKey);
    forall i | 0 <= i < |attrs| ensures r[i] == attrs[i] {
      assert attrs[i].key != newKey;
    }
  }

  /** `attrs.filter(a => a.key !== key)`. */
  function RemoveKey(attrs: seq<KeyValue>, key: string): (r: seq<KeyValue>)
    ensures !HasKey(r, key)
    ensures forall i :: 0 <= i < |r| ==> r[i] in attrs
    ensures forall i :: 0 <= i < |attrs| && attrs[i].key != key ==> attrs[i] in r
    ensures |r| == |attrs| - CountWhere(attrs, (a: KeyValue) => a.key == key)
    ensures r == Filter(attrs, (a: KeyValue) => a.key != key)
  {
    KeyCountSplit(attrs, key);
    Filter(attrs, (a: KeyValue) => a.key != key)
  }

  lemma {:induction false} KeyCountSplit(attrs: seq<KeyValue>, key: string)
    ensures CountWhere(attrs, (a: KeyValue) => a.key != key) + CountWhere(attrs, (a: KeyValue) => a.key == key) == |attrs|
  {
    if attrs != [] {
      KeyCountSplit(attrs[1..], key);
    }
  }

  /** Removing a key that no attribute carries changes nothing. */
  lemma RemoveAbsentKey(attrs: seq<KeyValue>, key: string)
    requires !HasKey(attrs, key)
    ensures RemoveKey(attrs, key) == attrs
  {
    FilterAll(attrs, (a: KeyValue) => a.key != key);
  }

  // ---------------------------------------------------------------------------
  // Template-level edits

  /** `template.map(t => t.id === fieldId ? { ...t, key: newKey } : t)`. */
  function RenameField(template: seq<AttributeTemplate>, fieldId: string, newKey: string): (r: seq<AttributeTemplate>)
    ensures |r| == |template|
    ensures forall i :: 0 <= i < |r| ==> r[i].id == template[i].id
    ensures forall i :: 0 <= i < |r| && template[i].id == fieldId ==> r[i].key == newKey
    ensures forall i :: 0 <= i < |r| && template[i].id != fieldId ==> r[i] == template[i]
  {
    UpdateWhere(template, (t: AttributeTemplate) => t.id == fieldId, (t: AttributeTemplate) => t.(key := newKey))
  }

  /** `template.filter(t => t.id !== fieldId)`. */
  function RemoveField(template: seq<AttributeTemplate>, fieldId: string): (r: seq<AttributeTemplate>)
    ensures forall i :: 0 <= i < |r| ==> r[i] in template && r[i].id != fieldId
    ensures forall i :: 0 <= i < |template| && template[i].id != fieldId ==> template[i] in r
    ensures r == Filter(template, (t: AttributeTemplate) => t.id != fieldId)
  {
    Filter(template, (t: AttributeTemplate) => t.id != fieldId)
  }

  /** After a rename, looking the field up by id gives the new key. */
  lemma RenameFieldKey(template: seq<AttributeTemplate>, fieldId: string, newKey: string)
    requires FieldKey(template, fieldId).Some?
    ensures FieldKey(RenameField(template, fieldId, newKey), fieldId) == Some(newKey)
  {
    var r := RenameField(template, fieldId, newKey);
    var k :| 0 <= k < |template| && template[k].id == fieldId && forall j :: 0 <= j < k ==> template[j].id != fieldId;
    var k' :| 0 <= k' < |r| && r[k'].id == fieldId && r[k'].key == FieldKey(r, fieldId).value &&
              forall j :: 0 <= j < k' ==> r[j].id != fieldId;
    assert r[k].id == fieldId;
    assert k' == k;
  }

  /** Applies a template edit to every class with the given id, leaving the others alone. */
  function EditClasses(classes: seq<EntityClass>, classId: string, edit: seq<AttributeTemplate> -> seq<AttributeTemplate>): (r: seq<EntityClass>)
    ensures |r| == |classes|
    ensures forall i :: 0 <= i < |r| ==> r[i].id == classes[i].id && r[i].name == classes[i].name
    ensures forall i :: 0 <= i < |r| && classes[i].id == classId ==> r[i].template == edit(classes[i].template)
    ensures forall i :: 0 <= i < |r| && classes[i].id != classId ==> r[i] == classes[i]
  {
    UpdateWhere(classes, (c: EntityClass) => c.id == classId, (c: EntityClass) => c.(template := edit(c.template)))
  }

  // ---------------------------------------------------------------------------
  // Switching class: the non-destructive merge

  /** The merge of `changeCharacterCategory` as a left fold over the template:
      for each field whose key is not yet present in the list built so far,
      append an empty attribute with the next fresh id. Returns the list and
      the next unused counter value. */
  function MergeTemplate(attrs: seq<KeyValue>, template: seq<AttributeTemplate>, seed: nat): (r: (seq<KeyValue>, nat))
    ensures |r.0| >= |attrs| && r.1 >= seed
    decreases |template|
  {
    if template == [] then (attrs, seed)
    else
      var (m, s) := MergeTemplate(attrs, template[..|template| - 1], seed);
      var t := template[|template| - 1];
      if HasKey(m, t.key) then (m, s) else (m + [KeyValue(MakeId(s), t.key, "")], s + 1)
  }

  /** The merge keeps every existing attribute, in place and in order. */
  lemma {:induction false} MergeKeepsExisting(attrs: seq<KeyValue>, template: seq<AttributeTemplate>, seed: nat)
    ensures MergeTemplate(attrs, template, seed).0[..|attrs|] == attrs
    decreases |template|
  {
    if template != [] {
      MergeKeepsExisting(attrs, template[..|template| - 1], seed);
    }
  }

  /** After the merge every template key is present. */
  lemma {:induction false} MergeCoversTemplate(attrs: seq<KeyValue>, template: seq<AttributeTemplate>, seed: nat)
    ensures forall j :: 0 <= j < |template| ==> HasKey(MergeTemplate(attrs, template, seed).0, template[j].key)
    decreases |template|
  {
    if template != [] {
      var init := template[..|template| - 1];
      MergeCoversTemplate(attrs, init, seed);
      var (m, s) := MergeTemplate(attrs, init, seed);
      var r := MergeTemplate(attrs, template, seed).0;
      assert r[..|m|] == m;
      forall j | 0 <= j < |template| ensures HasKey(r, template[j].key) {
        if j < |template| - 1 {
          assert template[j] == init[j];
          var i :| 0 <= i < |m| && m[i].key == template[j].key;
          assert r[i] == m[i];
        } else if !HasKey(m, template[j].key) {
          assert r[|m|].key == template[j].key;
        }
      }
    }
  }

  /** Everything the merge adds is an empty attribute for a template key that
      was missing before, with a fresh id from the supply; no key is added twice. */
  lemma {:induction false} MergeAddsOnlyMissing(attrs: seq<KeyValue>, template: seq<AttributeTemplate>, seed: nat)
    ensures var (m, s) := MergeTemplate(attrs, template, seed);
            s - seed == |m| - |attrs| &&
            (forall i :: |attrs| <= i < |m| ==>
               m[i].value == "" && m[i].id == MakeId(seed + i - |attrs|) && !HasKey(attrs, m[i].key) &&
               exists j :: 0 <= j < |template| && template[j].key == m[i].key) &&
            (forall i, i' :: |attrs| <= i < i' < |m| ==> m[i].key != m[i'].key)
    decreases |template|
  {
    if template != [] {
      var init := template[..|template| - 1];
      MergeAddsOnlyMissing(attrs, init, seed);
      MergeKeepsExisting(attrs, init, seed);
      var (m, s) := MergeTemplate(attrs, init, seed);
      var t := template[|template| - 1];
      forall i | |attrs| <= i < |m| ensures exists j :: 0 <= j < |template| && template[j].key == m[i].key {
        var j :| 0 <= j < |init| && init[j].key == m[i].key;
        assert template[j] == init[j];
      }
      if !HasKey(m, t.key) {
        var m' := m + [KeyValue(MakeId(s), t.key, "")];
        assert m'[..|attrs|] == attrs by { assert m[..|attrs|] == attrs; }
        forall i, i' | |attrs| <= i < i' < |m'| ensures m'[i].key != m'[i'].key {
          if i' == |m| {
            assert m'[i] == m[i];
          }
        }
        assert template[|template| - 1].key == m'[|m|].key;
      }
    }
  }

  /** Merging the same template a second time adds nothing. */
  lemma MergeIdempotent(attrs: seq<KeyValue>, template: seq<AttributeTemplate>, seed: nat, seed': nat)
    ensures var m := MergeTemplate(attrs, template, seed).0;
            MergeTemplate(m, template, seed') == (m, seed')
  {
    var m := MergeTemplate(attrs, template, seed).0;
    MergeCoversTemplate(attrs, template, seed);
    MergeOfCovered(m, template, seed');
  }

  /** When every template key is already present the merge is the identity. */
  lemma {:induction false} MergeOfCovered(attrs: seq<KeyValue>, template: seq<AttributeTemplate>, seed: nat)
    requires forall j :: 0 <= j < |template| ==> HasKey(attrs, template[j].key)
    ensures MergeTemplate(attrs, template, seed) == (attrs, seed)
    decreases |template|
  {
    if template != [] {
      var init := template[..|template| - 1];
      assert forall j :: 0 <= j < |init| ==> init[j] == template[j];
      MergeOfCovered(attrs, init, seed);
      assert HasKey(attrs, template[|template| - 1].key);
    }
  }

  /** The imperative merge: copy the attributes, then push an empty attribute
      for each template field whose key the list built so far lacks. */
  method MergeTemplateInto(attrs: seq<KeyValue>, template: seq<AttributeTemplate>, seed: nat)
    returns (merged: seq<KeyValue>, next: nat)
    ensures (merged, next) == MergeTemplate(attrs, template, seed)
  {
    merged, next := attrs, seed;
    var i := 0;
    while i < |template|
      invariant 0 <= i <= |template|
      invariant (merged, next) == MergeTemplate(attrs, template[..i], seed)
    {
      var t := template[i];
      assert template[..i + 1][..i] == template[..i];
      var present := false;
      var j := 0;
      while j < |merged|
        invariant 0 <= j <= |merged|
        invariant present <==> exists k :: 0 <= k < j && merged[k].key == t.key
      {
        if merged[j].key == t.key {
          present := true;
        }
        j := j + 1;
      }
      if !present {
        merged := merged + [KeyValue(MakeId(next), t.key, "")];
        next := next + 1;
      }
      i := i + 1;
    }
    assert template[..|template|] == template;
  }
}
