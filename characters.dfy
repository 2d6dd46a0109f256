/** The character handlers of the bible editor: the roster, the character
    categories ("classes") with their templates, and the non-destructive
    category switch. */
module Characters {
  import opened Text
  import opened Ids
  import opened Types
  import opened Collections
  import opened Templates

  const NewCharacterName := "New Character"
  const NewCharacterRole := "Role"
  const NewCategoryName := "New Class"
  const NewStatKey := "Stat"

  /** `c => c.categoryId === id`. */
  function InCategory(id: string): Character -> bool
  {
    (c: Character) => c.categoryId == Some(id)
  }

  /** `c => c.categoryId !== id`. */
  function OutsideCategory(id: string): Character -> bool
  {
    (c: Character) => c.categoryId != Some(id)
  }

  /** The character `addCharacter` creates from an optional default category. */
  function NewCharacter(category: Option<CharacterCategory>, seed: nat): (c: Character)
    ensures c.name == NewCharacterName && c.role == NewCharacterRole
    ensures c.description == "" && c.personality == "" && c.appearance == "" && c.dialogueExamples == ""
    ensures c.traits == [] && c.relationships == []
    ensures category.None? ==> c.categoryId == None && c.attributes == [] && c.id == MakeId(seed)
    ensures category.Some? ==>
              c.categoryId == Some(category.value.id) &&
              c.attributes == InstantiateAttributes(category.value.template, seed) &&
              c.id == MakeId(seed + |category.value.template|)
  {
    var attrs := match category
                 case None => []
                 case Some(cat) => InstantiateAttributes(cat.template, seed);
    var catId := match category
                 case None => None
                 case Some(cat) => Some(cat.id);
    Character(MakeId(seed + |attrs|), NewCharacterName, NewCharacterRole, catId, "", "", "", "", [], [], attrs)
  }

  /** `addCharacter`: appends a character of the first category (if any), with
      one empty attribute per field of that category's template. */
  function AddCharacter(prev: StoryBible, seed: nat): (r: StoryBible)
    ensures r == prev.(characters := r.characters)
    ensures |r.characters| == |prev.characters| + 1
    ensures r.characters[..|prev.characters|] == prev.characters
    ensures r.characters[|prev.characters|] ==
              NewCharacter(if prev.characterCategories == [] then None else Some(prev.characterCategories[0]), seed)
  {
    var cat := if prev.characterCategories == [] then None else Some(prev.characterCategories[0]);
    prev.(characters := prev.characters + [NewCharacter(cat, seed)])
  }

  /** The attribute ids of a new character are pairwise distinct and none of
      them is the character's own id. */
  lemma NewCharacterIdsFresh(category: Option<CharacterCategory>, seed: nat)
    ensures var c := NewCharacter(category, seed);
            (forall i, j :: 0 <= i < j < |c.attributes| ==> c.attributes[i].id != c.attributes[j].id) &&
            (forall i :: 0 <= i < |c.attributes| ==> c.attributes[i].id != c.id)
  {
    if category.Some? {
      var t := category.value.template;
      var c := NewCharacter(category, seed);
      InstantiatedIdsDistinct(t, seed);
      forall i | 0 <= i < |c.attributes| ensures c.attributes[i].id != c.id {
        MakeIdInjective(seed + i, seed + |t|);
      }
    }
  }

  /** `moveCharacter`: the roster is its own view. */
  function MoveCharacter(prev: StoryBible, id: string, dir: Direction): (r: StoryBible)
    ensures r == prev.(characters := r.characters)
    ensures |r.characters| == |prev.characters|
    ensures multiset(r.characters) == multiset(prev.characters)
    ensures r.characters == MoveItemInArray(prev.characters, prev.characters, id, dir, CharacterId)
  {
    prev.(characters := MoveItemInArray(prev.characters, prev.characters, id, dir, CharacterId))
  }

  /** Moving a character down and back up restores the roster (ids distinct). */
  lemma MoveCharacterRoundTrip(prev: StoryBible, id: string)
    requires DistinctIds(prev.characters, CharacterId)
    requires 0 <= IndexOf(prev.characters, id, CharacterId) < |prev.characters| - 1
    ensures MoveCharacter(MoveCharacter(prev, id, Down), id, Up) == prev
  {
    MoveDownThenUpRestores(prev.characters, id, CharacterId);
  }

  /** `updateCharacter`: patches every character with the id. */
  function UpdateCharacter(prev: StoryBible, id: string, u: CharacterPatch): (r: StoryBible)
    ensures r == prev.(characters := r.characters)
    ensures |r.characters| == |prev.characters|
    ensures forall i :: 0 <= i < |r.characters| ==>
              r.characters[i] == if prev.characters[i].id == id
                                 then ApplyCharacterPatch(prev.characters[i], u)
                                 else prev.characters[i]
  {
    prev.(characters := UpdateWhere(prev.characters, (c: Character) => c.id == id,
                                    (c: Character) => ApplyCharacterPatch(c, u)))
  }

  /** `deleteCharacter`: after confirmation removes exactly the characters with the id. */
  function DeleteCharacter(prev: StoryBible, id: string, confirmed: bool): (r: StoryBible)
    ensures !confirmed ==> r == prev
    ensures confirmed ==> r == prev.(characters := Filter(prev.characters, (c: Character) => c.id != id))
    ensures confirmed ==> (forall k :: 0 <= k < |r.characters| ==> r.characters[k] in prev.characters && r.characters[k].id != id) &&
                          (forall k :: 0 <= k < |prev.characters| && prev.characters[k].id != id ==> prev.characters[k] in r.characters)
  {
    if !confirmed then prev
    else prev.(characters := Filter(prev.characters, (c: Character) => c.id != id))
  }

  /** What `changeCharacterCategory` computes: when both the character and the
      category exist, every character with the id is moved to the category and
      given its first occurrence's attributes merged with the category's
      template; the second component is the next unused id counter. */
  function CategoryChanged(prev: StoryBible, charId: string, catId: string, seed: nat): (r: (StoryBible, nat))
    ensures r.1 >= seed
    ensures r.0 == prev.(characters := r.0.characters)
    ensures |r.0.characters| == |prev.characters|
    ensures var k := IndexOf(prev.characters, charId, CharacterId);
            var cat := FindClass(prev.characterCategories, catId);
            (k == -1 || cat.None? ==> r == (prev, seed)) &&
            (k != -1 && cat.Some? ==>
               var merged := MergeTemplate(prev.characters[k].attributes, cat.value.template, seed);
               r.1 == merged.1 &&
               forall i :: 0 <= i < |prev.characters| ==>
                 r.0.characters[i] == if prev.characters[i].id == charId
                                      then prev.characters[i].(categoryId := Some(catId), attributes := merged.0)
                                      else prev.characters[i])
  {
    var k := IndexOf(prev.characters, charId, CharacterId);
    var cat := FindClass(prev.characterCategories, catId);
    if k == -1 || cat.None? then (prev, seed)
    else
      var (merged, next) := MergeTemplate(prev.characters[k].attributes, cat.value.template, seed);
      (prev.(characters := UpdateWhere(prev.characters, (c: Character) => c.id == charId,
                                       (c: Character) => c.(categoryId := Some(catId), attributes := merged))),
       next)
  }

  /** `changeCharacterCategory`: copies the character's attributes and pushes an
      empty attribute for each field of the new category whose key is missing. */
  method ChangeCharacterCategory(prev: StoryBible, charId: string, catId: string, seed: nat)
    returns (r: StoryBible, next: nat)
    ensures (r, next) == CategoryChanged(prev, charId, catId, seed)
  {
    var k := IndexOf(prev.characters, charId, CharacterId);
    var cat := FindClass(prev.characterCategories, catId);
    if k == -1 || cat.None? {
      return prev, seed;
    }
    var merged;
    merged, next := MergeTemplateInto(prev.characters[k].attributes, cat.value.template, seed);
    r := prev.(characters := UpdateWhere(prev.characters, (c: Character) => c.id == charId,
                                         (c: Character) => c.(categoryId := Some(catId), attributes := merged)));
  }

  /** A category switch loses nothing: the character's old attributes stay, in
      order and with their values, every key of the new template is present
      afterwards, the added attributes are empty, and only the character with
      the id changes. A missing character or category leaves the document as it was. */
  lemma CategoryChangePreserves(prev: StoryBible, charId: string, catId: string, seed: nat)
    ensures var k := IndexOf(prev.characters, charId, CharacterId);
            var cat := FindClass(prev.characterCategories, catId);
            var (r, next) := CategoryChanged(prev, charId, catId, seed);
            (k == -1 || cat.None? ==> r == prev && next == seed) &&
            (k != -1 && cat.Some? ==>
               var before := prev.characters[k].attributes;
               var after := r.characters[k].attributes;
               r.characters[k] == prev.characters[k].(categoryId := Some(catId), attributes := after) &&
               after[..|before|] == before &&
               (forall j :: 0 <= j < |cat.value.template| ==> HasKey(after, cat.value.template[j].key)) &&
               (forall i :: |before| <= i < |after| ==> after[i].value == "" && !HasKey(before, after[i].key)) &&
               next - seed == |after| - |before| &&
               (forall i :: 0 <= i < |prev.characters| && prev.characters[i].id != charId ==>
                  r.characters[i] == prev.characters[i]))
  {
    var k := IndexOf(prev.characters, charId, CharacterId);
    var cat := FindClass(prev.characterCategories, catId);
    if k != -1 && cat.Some? {
      var before := prev.characters[k].attributes;
      MergeKeepsExisting(before, cat.value.template, seed);
      MergeCoversTemplate(before, cat.value.template, seed);
      MergeAddsOnlyMissing(before, cat.value.template, seed);
    }
  }

  /** Switching a character to the category it was just switched to adds no
      attribute and draws no id. */
  lemma CategoryChangeIdempotent(prev: StoryBible, charId: string, catId: string, seed: nat, seed': nat)
    ensures var (r, next) := CategoryChanged(prev, charId, catId, seed);
            CategoryChanged(r, charId, catId, seed') == (r, seed')
  {
    var k := IndexOf(prev.characters, charId, CharacterId);
    var cat := FindClass(prev.characterCategories, catId);
    if k != -1 && cat.Some? {
      var r := CategoryChanged(prev, charId, catId, seed).0;
      var merged := MergeTemplate(prev.characters[k].attributes, cat.value.template, seed).0;
      assert forall i :: 0 <= i < |r.characters| ==> r.characters[i].id == prev.characters[i].id;
      assert IndexOf(r.characters, charId, CharacterId) == k;
      assert r.characters[k].attributes == merged;
      MergeIdempotent(prev.characters[k].attributes, cat.value.template, seed, seed');
      assert MergeTemplate(r.characters[k].attributes, cat.value.template, seed') == (merged, seed');
      var r2 := CategoryChanged(r, charId, catId, seed');
      assert r2.1 == seed';
      forall i | 0 <= i < |r.characters| ensures r2.0.characters[i] == r.characters[i] {
      }
      assert r2.0.characters == r.characters;
    }
  }

  /** `updateCharAttr`: sets the value of one attribute of the character,
      computed from the first character with the id. */
  function UpdateCharAttr(prev: StoryBible, charId: string, attrId: string, value: string): (r: StoryBible)
    ensures r == prev.(characters := r.characters)
    ensures |r.characters| == |prev.characters|
    ensures (forall k :: 0 <= k < |prev.characters| ==> prev.characters[k].id != charId) ==> r == prev
    ensures forall k :: 0 <= k < |r.characters| && prev.characters[k].id != charId ==> r.characters[k] == prev.characters[k]
    ensures forall k :: 0 <= k < |r.characters| && prev.characters[k].id == charId ==>
              var first := prev.characters[IndexOf(prev.characters, charId, CharacterId)];
              r.characters[k] == prev.characters[k].(attributes := r.characters[k].attributes) &&
              |r.characters[k].attributes| == |first.attributes| &&
              forall j :: 0 <= j < |first.attributes| ==>
                r.characters[k].attributes[j] ==
                  if first.attributes[j].id == attrId then first.attributes[j].(value := value) else first.attributes[j]
  {
    var k := IndexOf(prev.characters, charId, CharacterId);
    if k == -1 then prev
    else
      var attrs := UpdateWhere(prev.characters[k].attributes, (a: KeyValue) => a.id == attrId,
                               (a: KeyValue) => a.(value := value));
      prev.(characters := UpdateWhere(prev.characters, (c: Character) => c.id == charId,
                                      (c: Character) => c.(attributes := attrs)))
  }

  /** `addCharClass`: appends an empty category. */
  function AddCharClass(prev: StoryBible, seed: nat): (r: StoryBible)
    ensures r == prev.(characterCategories := r.characterCategories)
    ensures r.characterCategories == prev.characterCategories + [EntityClass(MakeId(seed), NewCategoryName, [])]
  {
    prev.(characterCategories := prev.characterCategories + [EntityClass(MakeId(seed), NewCategoryName, [])])
  }

  /** `moveCharClass`: the category list is its own view. */
  function MoveCharClass(prev: StoryBible, id: string, dir: Direction): (r: StoryBible)
    ensures r == prev.(characterCategories := r.characterCategories)
    ensures multiset(r.characterCategories) == multiset(prev.characterCategories)
    ensures r.characterCategories == MoveItemInArray(prev.characterCategories, prev.characterCategories, id, dir, ClassId)
  {
    prev.(characterCategories := MoveItemInArray(prev.characterCategories, prev.characterCategories, id, dir, ClassId))
  }

  /** `updateCharClass`: patches every category with the id. */
  function UpdateCharClass(prev: StoryBible, id: string, u: ClassPatch): (r: StoryBible)
    ensures r == prev.(characterCategories := r.characterCategories)
    ensures |r.characterCategories| == |prev.characterCategories|
    ensures forall i :: 0 <= i < |r.characterCategories| ==>
              r.characterCategories[i] == if prev.characterCategories[i].id == id
                                          then ApplyClassPatch(prev.characterCategories[i], u)
                                          else prev.characterCategories[i]
  {
    prev.(characterCategories := UpdateWhere(prev.characterCategories, (c: EntityClass) => c.id == id,
                                             (c: EntityClass) => ApplyClassPatch(c, u)))
  }

  /** `deleteCharClass`. A category with members asks first and then removes
      the category and its members; an empty one is removed without asking. */
  function DeleteCharClass(prev: StoryBible, id: string, confirmed: bool): (r: StoryBible)
    ensures CountWhere(prev.characters, InCategory(id)) > 0 && !confirmed ==> r == prev
    ensures CountWhere(prev.characters, InCategory(id)) == 0 || confirmed ==>
              r == prev.(characterCategories := Filter(prev.characterCategories, OtherClass(id)),
                         characters := Filter(prev.characters, OutsideCategory(id)))
  {
    if CountWhere(prev.characters, InCategory(id)) > 0 then
      if !confirmed then prev
      else prev.(characterCategories := Filter(prev.characterCategories, OtherClass(id)),
                 characters := Filter(prev.characters, OutsideCategory(id)))
    else
      CountWhereNone(prev.characters, InCategory(id));
      FilterAll(prev.characters, OutsideCategory(id));
      prev.(characterCategories := Filter(prev.characterCategories, OtherClass(id)))
  }

  /** Deleting a category never leaves a character pointing at it, unless the
      dialog was declined; and no character of another category is lost. */
  lemma DeleteCharClassLeavesNoOrphans(prev: StoryBible, id: string, confirmed: bool)
    ensures var r := DeleteCharClass(prev, id, confirmed);
            r == prev ||
            ((forall k :: 0 <= k < |r.characters| ==> r.characters[k].categoryId != Some(id)) &&
             (forall k :: 0 <= k < |r.characterCategories| ==> r.characterCategories[k].id != id) &&
             (forall k :: 0 <= k < |prev.characters| && prev.characters[k].categoryId != Some(id) ==>
                prev.characters[k] in r.characters))
  {
  }

  /** `addCharTemplate`: appends a "Stat" field to the category's template. */
  function AddCharTemplate(prev: StoryBible, id: string, seed: nat): (r: StoryBible)
    ensures r == prev.(characterCategories := r.characterCategories)
    ensures |r.characterCategories| == |prev.characterCategories|
    ensures forall i :: 0 <= i < |r.characterCategories| ==>
              r.characterCategories[i] == if prev.characterCategories[i].id == id
                                          then prev.characterCategories[i].(template := prev.characterCategories[i].template + [AttributeTemplate(MakeId(seed), NewStatKey)])
                                          else prev.characterCategories[i]
  {
    prev.(characterCategories := EditClasses(prev.characterCategories, id,
                                             (t: seq<AttributeTemplate>) => t + [AttributeTemplate(MakeId(seed), NewStatKey)]))
  }

  /** `updateCharTemplate`: renames a field and propagates the rename, by the
      key captured before the edit, to the characters of that category. */
  function UpdateCharTemplate(prev: StoryBible, cid: string, tid: string, k: string): (r: StoryBible)
    ensures r == prev.(characterCategories := r.characterCategories, characters := r.characters)
    ensures FindClass(prev.characterCategories, cid).None? ==> r == prev
    ensures FindClass(prev.characterCategories, cid).Some? ==>
              var oldKey := FieldKey(FindClass(prev.characterCategories, cid).value.template, tid);
              |r.characterCategories| == |prev.characterCategories| &&
              |r.characters| == |prev.characters| &&
              (forall i :: 0 <= i < |r.characterCategories| ==>
                 r.characterCategories[i] == if prev.characterCategories[i].id == cid
                                             then prev.characterCategories[i].(template := RenameField(prev.characterCategories[i].template, tid, k))
                                             else prev.characterCategories[i]) &&
              (forall i :: 0 <= i < |r.characters| ==>
                 r.characters[i] == if prev.characters[i].categoryId == Some(cid) && Truthy(oldKey)
                                    then prev.characters[i].(attributes := RenameKey(prev.characters[i].attributes, oldKey.value, k))
                                    else prev.characters[i])
  {
    match FindClass(prev.characterCategories, cid)
    case None => prev
    case Some(c) =>
      var oldKey := FieldKey(c.template, tid);
      var cats := EditClasses(prev.characterCategories, cid, (t: seq<AttributeTemplate>) => RenameField(t, tid, k));
      var chars := if Truthy(oldKey)
                   then UpdateWhere(prev.characters, InCategory(cid),
                                    (ch: Character) => ch.(attributes := RenameKey(ch.attributes, oldKey.value, k)))
                   else prev.characters;
      prev.(characterCategories := cats, characters := chars)
  }

  /** After a rename to a different key, no character of the category keeps
      an attribute under the old key, and one that had it now has the new key. */
  lemma CharRenamePropagates(prev: StoryBible, cid: string, tid: string, k: string, i: nat)
    requires FindClass(prev.characterCategories, cid).Some?
    requires Truthy(FieldKey(FindClass(prev.characterCategories, cid).value.template, tid))
    requires FieldKey(FindClass(prev.characterCategories, cid).value.template, tid).value != k
    requires i < |prev.characters| && prev.characters[i].categoryId == Some(cid)
    ensures var oldKey := FieldKey(FindClass(prev.characterCategories, cid).value.template, tid).value;
            var after := UpdateCharTemplate(prev, cid, tid, k).characters[i].attributes;
            !HasKey(after, oldKey) &&
            (HasKey(prev.characters[i].attributes, oldKey) ==> HasKey(after, k))
  {
    var oldKey := FieldKey(FindClass(prev.characterCategories, cid).value.template, tid).value;
    RenameKeyRemovesOldKey(prev.characters[i].attributes, oldKey, k);
  }

  /** After a rename the category is still found, with the renamed template,
      and the field now carries the new key. */
  lemma RenamedCategoryFound(prev: StoryBible, cid: string, tid: string, k: string)
    requires FindClass(prev.characterCategories, cid).Some?
    requires FieldKey(FindClass(prev.characterCategories, cid).value.template, tid).Some?
    ensures var c := FindClass(prev.characterCategories, cid).value;
            var mid := UpdateCharTemplate(prev, cid, tid, k);
            FindClass(mid.characterCategories, cid) == Some(c.(template := RenameField(c.template, tid, k))) &&
            FieldKey(RenameField(c.template, tid, k), tid) == Some(k)
  {
    var cats := UpdateCharTemplate(prev, cid, tid, k).characterCategories;
    IndexOfSameIds(prev.characterCategories, cats, cid, ClassId);
    var j := IndexOf(prev.characterCategories, cid, ClassId);
    assert IndexOf(cats, cid, ClassId) == j;
    RenameFieldKey(FindClass(prev.characterCategories, cid).value.template, tid, k);
  }

  /** Clearing a field's key cuts the field off from the category's
      characters: they keep the cleared key "", and renaming the field back no
      longer reaches them, since the rename propagates only from a non-empty key. */
  lemma ClearedKeyStrandsCharacters(prev: StoryBible, cid: string, tid: string)
    requires FindClass(prev.characterCategories, cid).Some?
    requires Truthy(FieldKey(FindClass(prev.characterCategories, cid).value.template, tid))
    ensures var oldKey := FieldKey(FindClass(prev.characterCategories, cid).value.template, tid).value;
            var mid := UpdateCharTemplate(prev, cid, tid, "");
            var fin := UpdateCharTemplate(mid, cid, tid, oldKey);
            fin.characters == mid.characters &&
            forall i :: 0 <= i < |prev.characters| && prev.characters[i].categoryId == Some(cid) ==>
              fin.characters[i].attributes == RenameKey(prev.characters[i].attributes, oldKey, "") &&
              !HasKey(fin.characters[i].attributes, oldKey)
  {
    var oldKey := FieldKey(FindClass(prev.characterCategories, cid).value.template, tid).value;
    RenamedCategoryFound(prev, cid, tid, "");
    forall i | 0 <= i < |prev.characters| && prev.characters[i].categoryId == Some(cid)
      ensures !HasKey(RenameKey(prev.characters[i].attributes, oldKey, ""), oldKey)
    {
      RenameKeyRemovesOldKey(prev.characters[i].attributes, oldKey, "");
    }
  }

  /** `deleteCharTemplate`: after confirmation removes the field from the
      category and every attribute with its key from the category's characters. */
  function DeleteCharTemplate(prev: StoryBible, cid: string, tid: string, confirmed: bool): (r: StoryBible)
    ensures r == prev.(characterCategories := r.characterCategories, characters := r.characters)
    ensures FindClass(prev.characterCategories, cid).None? || !confirmed ==> r == prev
    ensures FindClass(prev.characterCategories, cid).Some? && confirmed ==>
              var key := FieldKey(FindClass(prev.characterCategories, cid).value.template, tid);
              |r.characterCategories| == |prev.characterCategories| &&
              |r.characters| == |prev.characters| &&
              (forall i :: 0 <= i < |r.characterCategories| ==>
                 r.characterCategories[i] == if prev.characterCategories[i].id == cid
                                             then prev.characterCategories[i].(template := RemoveField(prev.characterCategories[i].template, tid))
                                             else prev.characterCategories[i]) &&
              (forall i :: 0 <= i < |r.characters| ==>
                 r.characters[i] == if prev.characters[i].categoryId == Some(cid) && Truthy(key)
                                    then prev.characters[i].(attributes := RemoveKey(prev.characters[i].attributes, key.value))
                                    else prev.characters[i])
  {
    match FindClass(prev.characterCategories, cid)
    case None => prev
    case Some(c) =>
      var key := FieldKey(c.template, tid);
      if !confirmed then prev
      else
        var cats := EditClasses(prev.characterCategories, cid, (t: seq<AttributeTemplate>) => RemoveField(t, tid));
        var chars := if Truthy(key)
                     then UpdateWhere(prev.characters, InCategory(cid),
                                      (ch: Character) => ch.(attributes := RemoveKey(ch.attributes, key.value)))
                     else prev.characters;
        prev.(characterCategories := cats, characters := chars)
  }

  /** Deleting a field whose key no character of the category carries leaves
      every character as it was. */
  lemma DeleteUnusedCharField(prev: StoryBible, cid: string, tid: string)
    requires FindClass(prev.characterCategories, cid).Some?
    requires var key := FieldKey(FindClass(prev.characterCategories, cid).value.template, tid);
             key.Some? ==> forall i :: 0 <= i < |prev.characters| ==> !HasKey(prev.characters[i].attributes, key.value)
    ensures DeleteCharTemplate(prev, cid, tid, true).characters == prev.characters
  {
    var key := FieldKey(FindClass(prev.characterCategories, cid).value.template, tid);
    var r := DeleteCharTemplate(prev, cid, tid, true);
    forall i | 0 <= i < |prev.characters| ensures r.characters[i] == prev.characters[i] {
      if prev.characters[i].categoryId == Some(cid) && Truthy(key) {
        RemoveAbsentKey(prev.characters[i].attributes, key.value);
      }
    }
  }
}
