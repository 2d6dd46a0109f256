/** The world-building handlers of the bible editor: each takes the previous
    document and returns the next one. Classes own templates; items hold
    attributes whose keys are kept in step with their class's template by
    key-string propagation. */
module World {
  import opened Text
  import opened Ids
  import opened Types
  import opened Collections
  import opened Templates

  const NewClassName := "New Class (e.g. History)"
  const NewFieldKey := "New Field"
  const NewItemName := "New Entry"

  /** `i => i.classId === classId`: membership of an item in a class. */
  function InClass(classId: string): WorldItem -> bool
  {
    (i: WorldItem) => i.classId == Some(classId)
  }

  /** `i => i.classId !== classId`. */
  function OutsideClass(classId: string): WorldItem -> bool
  {
    (i: WorldItem) => i.classId != Some(classId)
  }

  /** `addWorldClass`: appends an empty class with a fresh id. */
  function AddWorldClass(prev: StoryBible, seed: nat): (r: StoryBible)
    ensures r == prev.(worldClasses := r.worldClasses)
    ensures |r.worldClasses| == |prev.worldClasses| + 1
    ensures r.worldClasses[..|prev.worldClasses|] == prev.worldClasses
    ensures r.worldClasses[|prev.worldClasses|] == EntityClass(MakeId(seed), NewClassName, [])
  {
    prev.(worldClasses := prev.worldClasses + [EntityClass(MakeId(seed), NewClassName, [])])
  }

  /** `moveWorldClass`: the class list is its own view; the move keeps every
      class and changes nothing else in the document. */
  function MoveWorldClass(prev: StoryBible, id: string, dir: Direction): (r: StoryBible)
    ensures r == prev.(worldClasses := r.worldClasses)
    ensures r.worldClasses == MoveItemInArray(prev.worldClasses, prev.worldClasses, id, dir, ClassId)
    ensures |r.worldClasses| == |prev.worldClasses|
    ensures multiset(r.worldClasses) == multiset(prev.worldClasses)
    ensures r.worldClasses == prev.worldClasses ||
            exists a, b :: 0 <= a < |prev.worldClasses| && 0 <= b < |prev.worldClasses| &&
                           r.worldClasses == Swap(prev.worldClasses, a, b)
  {
    var moved := MoveItemInArray(prev.worldClasses, prev.worldClasses, id, dir, ClassId);
    ghost var plan := MovePositions(prev.worldClasses, prev.worldClasses, id, dir, ClassId);
    assert plan.Some? ==> moved == Swap(prev.worldClasses, plan.value.0, plan.value.1);
    prev.(worldClasses := moved)
  }

  /** With distinct class ids, a move that is not at the end exchanges the class
      with its direct neighbour. */
  lemma MoveWorldClassSwapsNeighbour(prev: StoryBible, id: string, dir: Direction)
    requires DistinctIds(prev.worldClasses, ClassId)
    requires var k := IndexOf(prev.worldClasses, id, ClassId);
             0 <= k && (if dir == Up then 0 < k else k + 1 < |prev.worldClasses|)
    ensures var k := IndexOf(prev.worldClasses, id, ClassId);
            MoveWorldClass(prev, id, dir).worldClasses == Swap(prev.worldClasses, k, if dir == Up then k - 1 else k + 1)
  {
    FlatMoveIsNeighbourSwap(prev.worldClasses, id, dir, ClassId);
  }

  /** Moving a class up and then down again restores the document (ids distinct). */
  lemma MoveWorldClassRoundTrip(prev: StoryBible, id: string)
    requires DistinctIds(prev.worldClasses, ClassId)
    requires IndexOf(prev.worldClasses, id, ClassId) > 0
    ensures MoveWorldClass(MoveWorldClass(prev, id, Up), id, Down) == prev
  {
    MoveUpThenDownRestores(prev.worldClasses, id, ClassId);
  }

  /** `updateWorldClass`: patches every class with the id; nothing else changes. */
  function UpdateWorldClass(prev: StoryBible, id: string, u: ClassPatch): (r: StoryBible)
    ensures r == prev.(worldClasses := r.worldClasses)
    ensures |r.worldClasses| == |prev.worldClasses|
    ensures forall i :: 0 <= i < |r.worldClasses| ==>
              r.worldClasses[i] == if prev.worldClasses[i].id == id
                                   then ApplyClassPatch(prev.worldClasses[i], u)
                                   else prev.worldClasses[i]
  {
    prev.(worldClasses := UpdateWhere(prev.worldClasses, (c: EntityClass) => c.id == id,
                                      (c: EntityClass) => ApplyClassPatch(c, u)))
  }

  /** `deleteWorldClass`. `confirmed` is the answer to whichever dialog is shown
      (or `skipConfirm`). On confirmation the class and exactly the items bound
      to it go; a declined dialog leaves the document as it was. */
  function DeleteWorldClass(prev: StoryBible, id: string, confirmed: bool): (r: StoryBible)
    ensures !confirmed ==> r == prev
    ensures confirmed ==> r == prev.(worldClasses := Filter(prev.worldClasses, OtherClass(id)),
                                     worldItems := Filter(prev.worldItems, OutsideClass(id)))
    ensures confirmed ==> |r.worldItems| == |prev.worldItems| - CountWhere(prev.worldItems, InClass(id))
  {
    CountSplit(prev.worldItems, id);
    if CountWhere(prev.worldItems, InClass(id)) > 0 then
      if !confirmed then prev
      else prev.(worldClasses := Filter(prev.worldClasses, OtherClass(id)),
                 worldItems := Filter(prev.worldItems, OutsideClass(id)))
    else
      CountWhereNone(prev.worldItems, InClass(id));
      FilterAll(prev.worldItems, OutsideClass(id));
      if !confirmed then prev
      else prev.(worldClasses := Filter(prev.worldClasses, OtherClass(id)))
  }

  lemma {:induction false} CountSplit(items: seq<WorldItem>, id: string)
    ensures CountWhere(items, OutsideClass(id)) + CountWhere(items, InClass(id)) == |items|
  {
    if items != [] {
      CountSplit(items[1..], id);
    }
  }

  /** The cascade of a confirmed class deletion, element by element: an item
      survives exactly when it is not bound to the class, and a class survives
      exactly when it has another id. */
  lemma DeleteWorldClassExact(prev: StoryBible, id: string)
    ensures var r := DeleteWorldClass(prev, id, true);
            (forall k :: 0 <= k < |r.worldItems| ==> r.worldItems[k] in prev.worldItems && r.worldItems[k].classId != Some(id)) &&
            (forall k :: 0 <= k < |prev.worldItems| && prev.worldItems[k].classId != Some(id) ==> prev.worldItems[k] in r.worldItems) &&
            (forall k :: 0 <= k < |r.worldClasses| ==> r.worldClasses[k] in prev.worldClasses && r.worldClasses[k].id != id) &&
            (forall k :: 0 <= k < |prev.worldClasses| && prev.worldClasses[k].id != id ==> prev.worldClasses[k] in r.worldClasses)
  {
  }

  /** `addWorldTemplateField`: appends a "New Field" slot to the class's
      template; existing items are not touched. */
  function AddWorldTemplateField(prev: StoryBible, classId: string, seed: nat): (r: StoryBible)
    ensures r == prev.(worldClasses := r.worldClasses)
    ensures |r.worldClasses| == |prev.worldClasses|
    ensures forall i :: 0 <= i < |r.worldClasses| ==>
              r.worldClasses[i] == if prev.worldClasses[i].id == classId
                                   then prev.worldClasses[i].(template := prev.worldClasses[i].template + [AttributeTemplate(MakeId(seed), NewFieldKey)])
                                   else prev.worldClasses[i]
  {
    prev.(worldClasses := EditClasses(prev.worldClasses, classId,
                                      (t: seq<AttributeTemplate>) => t + [AttributeTemplate(MakeId(seed), NewFieldKey)]))
  }

  /** `updateWorldTemplateField`: renames a template field and propagates the
      rename, by the key captured before the edit, to the items of that class. */
  function UpdateWorldTemplateField(prev: StoryBible, classId: string, fieldId: string, newKey: string): (r: StoryBible)
    ensures r == prev.(worldClasses := r.worldClasses, worldItems := r.worldItems)
    ensures FindClass(prev.worldClasses, classId).None? ==> r == prev
    ensures FindClass(prev.worldClasses, classId).Some? ==>
              var oldKey := FieldKey(FindClass(prev.worldClasses, classId).value.template, fieldId);
              |r.worldClasses| == |prev.worldClasses| &&
              |r.worldItems| == |prev.worldItems| &&
              (forall i :: 0 <= i < |r.worldClasses| ==>
                 r.worldClasses[i] == if prev.worldClasses[i].id == classId
                                      then prev.worldClasses[i].(template := RenameField(prev.worldClasses[i].template, fieldId, newKey))
                                      else prev.worldClasses[i]) &&
              (forall i :: 0 <= i < |r.worldItems| ==>
                 r.worldItems[i] == if prev.worldItems[i].classId == Some(classId) && Truthy(oldKey)
                                    then prev.worldItems[i].(attributes := RenameKey(prev.worldItems[i].attributes, oldKey.value, newKey))
                                    else prev.worldItems[i])
  {
    match FindClass(prev.worldClasses, classId)
    case None => prev
    case Some(cls) =>
      var oldKey := FieldKey(cls.template, fieldId);
      var classes := EditClasses(prev.worldClasses, classId, (t: seq<AttributeTemplate>) => RenameField(t, fieldId, newKey));
      var items := if Truthy(oldKey)
                   then UpdateWhere(prev.worldItems, InClass(classId),
                                    (i: WorldItem) => i.(attributes := RenameKey(i.attributes, oldKey.value, newKey)))
                   else prev.worldItems;
      prev.(worldClasses := classes, worldItems := items)
  }

  /** Renaming a field and then renaming it back restores the document, when
      the class and field ids are unique, both keys are non-empty and no item
      of the class already used the new key. */
  lemma RenameWorldFieldRoundTrip(prev: StoryBible, classId: string, fieldId: string, newKey: string)
    requires DistinctIds(prev.worldClasses, ClassId)
    requires FindClass(prev.worldClasses, classId).Some?
    requires DistinctIds(FindClass(prev.worldClasses, classId).value.template, (t: AttributeTemplate) => t.id)
    requires Truthy(FieldKey(FindClass(prev.worldClasses, classId).value.template, fieldId))
    requires newKey != ""
    requires forall i :: 0 <= i < |prev.worldItems| && prev.worldItems[i].classId == Some(classId) ==>
               !HasKey(prev.worldItems[i].attributes, newKey)
    ensures var oldKey := FieldKey(FindClass(prev.worldClasses, classId).value.template, fieldId).value;
            UpdateWorldTemplateField(UpdateWorldTemplateField(prev, classId, fieldId, newKey), classId, fieldId, oldKey) == prev
  {
    RenameBackClasses(prev, classId, fieldId, newKey);
    RenameBackItems(prev, classId, fieldId, newKey);
  }

  /** The class half of the round trip. */
  lemma RenameBackClasses(prev: StoryBible, classId: string, fieldId: string, newKey: string)
    requires DistinctIds(prev.worldClasses, ClassId)
    requires FindClass(prev.worldClasses, classId).Some?
    requires DistinctIds(FindClass(prev.worldClasses, classId).value.template, (t: AttributeTemplate) => t.id)
    requires FieldKey(FindClass(prev.worldClasses, classId).value.template, fieldId).Some?
    ensures var oldKey := FieldKey(FindClass(prev.worldClasses, classId).value.template, fieldId).value;
            UpdateWorldTemplateField(UpdateWorldTemplateField(prev, classId, fieldId, newKey), classId, fieldId, oldKey).worldClasses
              == prev.worldClasses
  {
    var cls := FindClass(prev.worldClasses, classId).value;
    var oldKey := FieldKey(cls.template, fieldId).value;
    var mid := UpdateWorldTemplateField(prev, classId, fieldId, newKey);
    RenamedClassFound(prev, classId, fieldId, newKey);
    var fin := UpdateWorldTemplateField(mid, classId, fieldId, oldKey);
    forall i | 0 <= i < |prev.worldClasses| ensures fin.worldClasses[i] == prev.worldClasses[i] {
      if prev.worldClasses[i].id == classId {
        var k :| 0 <= k < |prev.worldClasses| && prev.worldClasses[k] == cls;
        assert i == k;
        RenameFieldRoundTrip(cls.template, fieldId, oldKey, newKey);
      }
    }
  }

  /** The item half of the round trip. */
  lemma RenameBackItems(prev: StoryBible, classId: string, fieldId: string, newKey: string)
    requires FindClass(prev.worldClasses, classId).Some?
    requires Truthy(FieldKey(FindClass(prev.worldClasses, classId).value.template, fieldId))
    requires newKey != ""
    requires forall i :: 0 <= i < |prev.worldItems| && prev.worldItems[i].classId == Some(classId) ==>
               !HasKey(prev.worldItems[i].attributes, newKey)
    ensures var oldKey := FieldKey(FindClass(prev.worldClasses, classId).value.template, fieldId).value;
            UpdateWorldTemplateField(UpdateWorldTemplateField(prev, classId, fieldId, newKey), classId, fieldId, oldKey).worldItems
              == prev.worldItems
  {
    var oldKey := FieldKey(FindClass(prev.worldClasses, classId).value.template, fieldId).value;
    var mid := UpdateWorldTemplateField(prev, classId, fieldId, newKey);
    RenamedClassFound(prev, classId, fieldId, newKey);
    var fin := UpdateWorldTemplateField(mid, classId, fieldId, oldKey);
    forall i | 0 <= i < |prev.worldItems| ensures fin.worldItems[i] == prev.worldItems[i] {
      if prev.worldItems[i].classId == Some(classId) {
        RenameKeyRoundTrip(prev.worldItems[i].attributes, oldKey, newKey);
      }
    }
  }

  /** After a rename the class is still found, with the renamed template, and
      the field now carries the new key. */
  lemma RenamedClassFound(prev: StoryBible, classId: string, fieldId: string, newKey: string)
    requires FindClass(prev.worldClasses, classId).Some?
    requires FieldKey(FindClass(prev.worldClasses, classId).value.template, fieldId).Some?
    ensures var cls := FindClass(prev.worldClasses, classId).value;
            var mid := UpdateWorldTemplateField(prev, classId, fieldId, newKey);
            FindClass(mid.worldClasses, classId) == Some(cls.(template := RenameField(cls.template, fieldId, newKey))) &&
            FieldKey(RenameField(cls.template, fieldId, newKey), fieldId) == Some(newKey)
  {
    var classes := UpdateWorldTemplateField(prev, classId, fieldId, newKey).worldClasses;
    IndexOfSameIds(prev.worldClasses, classes, classId, ClassId);
    var k := IndexOf(prev.worldClasses, classId, ClassId);
    assert IndexOf(classes, classId, ClassId) == k;
    RenameFieldKey(FindClass(prev.worldClasses, classId).value.template, fieldId, newKey);
  }

  /** With unique field ids, renaming a field back restores the template. */
  lemma RenameFieldRoundTrip(template: seq<AttributeTemplate>, fieldId: string, oldKey: string, newKey: string)
    requires DistinctIds(template, (t: AttributeTemplate) => t.id)
    requires FieldKey(template, fieldId) == Some(oldKey)
    ensures RenameField(RenameField(template, fieldId, newKey), fieldId, oldKey) == template
  {
    var r := RenameField(RenameField(template, fieldId, newKey), fieldId, oldKey);
    var k :| 0 <= k < |template| && template[k].id == fieldId && template[k].key == oldKey;
    forall i | 0 <= i < |template| ensures r[i] == template[i] {
      if template[i].id == fieldId {
        assert i == k;
      }
    }
  }

  /** Clearing a field's key cuts the field off from the class's items: they
      keep the cleared key "", and renaming the field back no longer reaches
      them, since the rename propagates only from a non-empty key. */
  lemma ClearedKeyStrandsItems(prev: StoryBible, classId: string, fieldId: string)
    requires FindClass(prev.worldClasses, classId).Some?
    requires Truthy(FieldKey(FindClass(prev.worldClasses, classId).value.template, fieldId))
    ensures var oldKey := FieldKey(FindClass(prev.worldClasses, classId).value.template, fieldId).value;
            var mid := UpdateWorldTemplateField(prev, classId, fieldId, "");
            var fin := UpdateWorldTemplateField(mid, classId, fieldId, oldKey);
            fin.worldItems == mid.worldItems &&
            forall i :: 0 <= i < |prev.worldItems| && prev.worldItems[i].classId == Some(classId) ==>
              fin.worldItems[i].attributes == RenameKey(prev.worldItems[i].attributes, oldKey, "") &&
              !HasKey(fin.worldItems[i].attributes, oldKey)
  {
    var oldKey := FieldKey(FindClass(prev.worldClasses, classId).value.template, fieldId).value;
    RenamedClassFound(prev, classId, fieldId, "");
    forall i | 0 <= i < |prev.worldItems| && prev.worldItems[i].classId == Some(classId)
      ensures !HasKey(RenameKey(prev.worldItems[i].attributes, oldKey, ""), oldKey)
    {
      RenameKeyRemovesOldKey(prev.worldItems[i].attributes, oldKey, "");
    }
  }

  /** `deleteWorldTemplateField`: after confirmation removes the field from the
      class's template and every attribute with its key from the class's items. */
  function DeleteWorldTemplateField(prev: StoryBible, classId: string, fieldId: string, confirmed: bool): (r: StoryBible)
    ensures r == prev.(worldClasses := r.worldClasses, worldItems := r.worldItems)
    ensures FindClass(prev.worldClasses, classId).None? || !confirmed ==> r == prev
    ensures FindClass(prev.worldClasses, classId).Some? && confirmed ==>
              var key := FieldKey(FindClass(prev.worldClasses, classId).value.template, fieldId);
              |r.worldClasses| == |prev.worldClasses| &&
              |r.worldItems| == |prev.worldItems| &&
              (forall i :: 0 <= i < |r.worldClasses| ==>
                 r.worldClasses[i] == if prev.worldClasses[i].id == classId
                                      then prev.worldClasses[i].(template := RemoveField(prev.worldClasses[i].template, fieldId))
                                      else prev.worldClasses[i]) &&
              (forall i :: 0 <= i < |r.worldItems| ==>
                 r.worldItems[i] == if prev.worldItems[i].classId == Some(classId) && Truthy(key)
                                    then prev.worldItems[i].(attributes := RemoveKey(prev.worldItems[i].attributes, key.value))
                                    else prev.worldItems[i])
  {
    match FindClass(prev.worldClasses, classId)
    case None => prev
    case Some(cls) =>
      var key := FieldKey(cls.template, fieldId);
      if !confirmed then prev
      else
        var classes := EditClasses(prev.worldClasses, classId, (t: seq<AttributeTemplate>) => RemoveField(t, fieldId));
        var items := if Truthy(key)
                     then UpdateWhere(prev.worldItems, InClass(classId),
                                      (i: WorldItem) => i.(attributes := RemoveKey(i.attributes, key.value)))
                     else prev.worldItems;
        prev.(worldClasses := classes, worldItems := items)
  }

  /** The delete propagation, attribute by attribute: in an item of the class
      no attribute with the field's key is left and every other attribute is
      kept; items of other classes are unchanged. */
  lemma DeleteWorldFieldPropagates(prev: StoryBible, classId: string, fieldId: string, i: nat)
    requires FindClass(prev.worldClasses, classId).Some?
    requires Truthy(FieldKey(FindClass(prev.worldClasses, classId).value.template, fieldId))
    requires i < |prev.worldItems|
    ensures var key := FieldKey(FindClass(prev.worldClasses, classId).value.template, fieldId).value;
            var before := prev.worldItems[i].attributes;
            var after := DeleteWorldTemplateField(prev, classId, fieldId, true).worldItems[i].attributes;
            (prev.worldItems[i].classId == Some(classId) ==>
               !HasKey(after, key) &&
               (forall j :: 0 <= j < |before| && before[j].key != key ==> before[j] in after) &&
               (forall j :: 0 <= j < |after| ==> after[j] in before)) &&
            (prev.worldItems[i].classId != Some(classId) ==> after == before)
  {
  }

  /** `addWorldItem`: prepends a "New Entry" item bound to the class, with one
      empty attribute per template field (none when the class is missing). The
      attribute ids are drawn first, then the item's. */
  function AddWorldItem(prev: StoryBible, classId: string, seed: nat): (r: StoryBible)
    ensures r == prev.(worldItems := r.worldItems)
    ensures |r.worldItems| == |prev.worldItems| + 1 && r.worldItems[1..] == prev.worldItems
    ensures var item := r.worldItems[0];
            item.classId == Some(classId) && item.name == NewItemName && item.description == "" &&
            match FindClass(prev.worldClasses, classId)
            case None => item.attributes == [] && item.id == MakeId(seed)
            case Some(cls) =>
              item.attributes == InstantiateAttributes(cls.template, seed) &&
              |item.attributes| == |cls.template| && item.id == MakeId(seed + |cls.template|) &&
              forall j :: 0 <= j < |cls.template| ==>
                item.attributes[j].key == cls.template[j].key && item.attributes[j].value == ""
  {
    var attrs := match FindClass(prev.worldClasses, classId)
                 case None => []
                 case Some(cls) => InstantiateAttributes(cls.template, seed);
    var item := WorldItem(MakeId(seed + |attrs|), Some(classId), NewItemName, "", attrs);
    prev.(worldItems := [item] + prev.worldItems)
  }

  /** The attribute ids of a new world item are pairwise distinct and none of
      them is the item's own id. */
  lemma NewWorldItemIdsFresh(prev: StoryBible, classId: string, seed: nat)
    ensures var item := AddWorldItem(prev, classId, seed).worldItems[0];
            (forall i, j :: 0 <= i < j < |item.attributes| ==> item.attributes[i].id != item.attributes[j].id) &&
            (forall i :: 0 <= i < |item.attributes| ==> item.attributes[i].id != item.id)
  {
    var item := AddWorldItem(prev, classId, seed).worldItems[0];
    match FindClass(prev.worldClasses, classId)
    case None =>
    case Some(cls) =>
      InstantiatedIdsDistinct(cls.template, seed);
      forall i | 0 <= i < |item.attributes| ensures item.attributes[i].id != item.id {
        MakeIdInjective(seed + i, seed + |cls.template|);
      }
  }

  /** `moveWorldItem`: the view is the item list filtered by class; the move
      keeps every item and changes nothing else in the document. */
  function MoveWorldItem(prev: StoryBible, id: string, classId: string, dir: Direction): (r: StoryBible)
    ensures r == prev.(worldItems := r.worldItems)
    ensures |r.worldItems| == |prev.worldItems|
    ensures multiset(r.worldItems) == multiset(prev.worldItems)
    ensures r.worldItems == MoveItemInArray(prev.worldItems, Filter(prev.worldItems, InClass(classId)), id, dir, ItemId)
  {
    prev.(worldItems := MoveItemInArray(prev.worldItems, Filter(prev.worldItems, InClass(classId)), id, dir, ItemId))
  }

  /** A move in a class's view exchanges two items of that class: with unique
      item ids, every item of another class keeps its global position. */
  lemma MoveWorldItemKeepsOthers(prev: StoryBible, id: string, classId: string, dir: Direction)
    requires DistinctIds(prev.worldItems, ItemId)
    ensures var r := MoveWorldItem(prev, id, classId, dir);
            forall k :: 0 <= k < |prev.worldItems| && prev.worldItems[k].classId != Some(classId) ==>
              r.worldItems[k] == prev.worldItems[k]
  {
    var view := Filter(prev.worldItems, InClass(classId));
    assert forall i :: 0 <= i < |view| ==> view[i] in prev.worldItems && !OutsideClass(classId)(view[i]);
    MoveKeepsOutside(prev.worldItems, view, id, dir, ItemId, OutsideClass(classId));
  }

  /** `updateWorldItem`: patches every item with the id; nothing else changes. */
  function UpdateWorldItem(prev: StoryBible, itemId: string, u: ItemPatch): (r: StoryBible)
    ensures r == prev.(worldItems := r.worldItems)
    ensures |r.worldItems| == |prev.worldItems|
    ensures forall i :: 0 <= i < |r.worldItems| ==>
              r.worldItems[i] == if prev.worldItems[i].id == itemId
                                 then ApplyItemPatch(prev.worldItems[i], u)
                                 else prev.worldItems[i]
  {
    prev.(worldItems := UpdateWhere(prev.worldItems, (i: WorldItem) => i.id == itemId,
                                    (i: WorldItem) => ApplyItemPatch(i, u)))
  }

  /** `deleteWorldItem`: after confirmation removes exactly the items with the id. */
  function DeleteWorldItem(prev: StoryBible, itemId: string, confirmed: bool): (r: StoryBible)
    ensures !confirmed ==> r == prev
    ensures confirmed ==> r == prev.(worldItems := Filter(prev.worldItems, (i: WorldItem) => i.id != itemId))
    ensures confirmed ==> (forall k :: 0 <= k < |r.worldItems| ==> r.worldItems[k] in prev.worldItems && r.worldItems[k].id != itemId) &&
                          (forall k :: 0 <= k < |prev.worldItems| && prev.worldItems[k].id != itemId ==> prev.worldItems[k] in r.worldItems)
  {
    if !confirmed then prev
    else prev.(worldItems := Filter(prev.worldItems, (i: WorldItem) => i.id != itemId))
  }

  /** `updateItemAttribute`: sets the value of the attribute with `attrId` in the
      item with `itemId`, keeping its id and key. The attribute list is computed
      from the first item with the id and given to every item with that id. */
  function UpdateItemAttribute(prev: StoryBible, itemId: string, attrId: string, value: string): (r: StoryBible)
    ensures r == prev.(worldItems := r.worldItems)
    ensures |r.worldItems| == |prev.worldItems|
    ensures (forall k :: 0 <= k < |prev.worldItems| ==> prev.worldItems[k].id != itemId) ==> r == prev
    ensures forall k :: 0 <= k < |r.worldItems| && prev.worldItems[k].id != itemId ==> r.worldItems[k] == prev.worldItems[k]
    ensures forall k :: 0 <= k < |r.worldItems| && prev.worldItems[k].id == itemId ==>
              var first := prev.worldItems[IndexOf(prev.worldItems, itemId, ItemId)];
              r.worldItems[k] == prev.worldItems[k].(attributes := r.worldItems[k].attributes) &&
              |r.worldItems[k].attributes| == |first.attributes| &&
              forall j :: 0 <= j < |first.attributes| ==>
                r.worldItems[k].attributes[j] ==
                  if first.attributes[j].id == attrId then first.attributes[j].(value := value) else first.attributes[j]
  {
    var k := IndexOf(prev.worldItems, itemId, ItemId);
    if k == -1 then prev
    else
      var attrs := UpdateWhere(prev.worldItems[k].attributes, (a: KeyValue) => a.id == attrId,
                               (a: KeyValue) => a.(value := value));
      prev.(worldItems := UpdateWhere(prev.worldItems, (i: WorldItem) => i.id == itemId,
                                      (i: WorldItem) => i.(attributes := attrs)))
  }
}
