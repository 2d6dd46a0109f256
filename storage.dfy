/** Loading the stored document: the two legacy migrations (world categories
    into classes and items, plots into a saga with one arc per plot) and the
    integrity pass that repairs missing collections and fields. Reading the
    browser's storage and parsing JSON are not modelled: the stored value
    arrives already classified as a `Stored` value. */
module Storage {
  import opened Text
  import opened Ids
  import opened Types
  import opened Collections
  import World

  const DefaultTitle := "Untitled World Project"
  const DefaultGenre := "High Fantasy"
  const DefaultTone := "Epic, Detailed, Mythological"
  const SagaTitle := "Main Saga"
  const SagaDescription := "Imported from legacy plots"

  /** `DEFAULT_BIBLE`. The field ids of the world templates are drawn once,
      when the module is loaded, from the counters 0 to 6. Distinct counters
      give distinct ids; freshness against ids drawn later is not modelled. */
  const DefaultBible: StoryBible :=
    StoryBible(
      DefaultTitle, DefaultGenre, DefaultTone,
      [EntityClass("class_human", "Human",
                   [AttributeTemplate("attr_age", "Age"), AttributeTemplate("attr_occupation", "Occupation")])],
      [],
      [EntityClass("class_location", "Location",
                   [AttributeTemplate(MakeId(0), "Climate"), AttributeTemplate(MakeId(1), "Population"),
                    AttributeTemplate(MakeId(2), "Key Resources")]),
       EntityClass("class_rules", "World Rules & Laws",
                   [AttributeTemplate(MakeId(3), "Type"), AttributeTemplate(MakeId(4), "Penalty")]),
       EntityClass("class_glossary", "Glossary & Terminology",
                   [AttributeTemplate(MakeId(5), "Category"), AttributeTemplate(MakeId(6), "Synonyms")])],
      [], [], [], [],
      Array([]), Array([]))

  // ---------------------------------------------------------------------------
  // The stored document as JavaScript sees it after parsing

  /** A stored character; the three fields added in a later version may be missing. */
  datatype RawCharacter = RawCharacter(
    id: string,
    name: string,
    role: string,
    categoryId: Option<string>,
    description: string,
    personality: Option<string>,
    appearance: Option<string>,
    dialogueExamples: Option<string>,
    traits: seq<string>,
    relationships: seq<string>,
    attributes: seq<KeyValue>)

  /** A parsed object: any field may be missing or of the wrong shape. */
  datatype RawDoc = RawDoc(
    title: Option<string>,
    genre: Option<string>,
    tone: Option<string>,
    characterCategories: RawList<CharacterCategory>,
    characters: RawList<RawCharacter>,
    worldClasses: RawList<WorldClass>,
    worldItems: RawList<WorldItem>,
    timeline: RawList<TimelineEvent>,
    architectHistory: RawList<ChatMessage>,
    roleplayHistory: RawList<ChatMessage>,
    worldCategories: RawList<WorldCategory>,
    plots: RawList<PlotPoint>)

  /** What the storage slot holds: nothing, text that is not JSON, JSON that
      is not an object (reading or writing its fields fails), or an object. */
  datatype Stored = NoData | Unparseable | NotAnObject | Parsed(doc: RawDoc)

  /** `x && x.length > 0`. */
  predicate HasItems<T>(l: RawList<T>)
  {
    l.NonEmptyText? || (l.Array? && |l.items| > 0)
  }

  /** `!x || x.length === 0`. */
  predicate Vacant<T>(l: RawList<T>)
  {
    l.Absent? || (l.Array? && |l.items| == 0)
  }

  /** A present value without `forEach`: iterating it throws. */
  predicate NotIterable<T>(l: RawList<T>)
  {
    l.Opaque? || l.NonEmptyText?
  }

  predicate WorldMigrationDue(doc: RawDoc)
  {
    HasItems(doc.worldCategories) && Vacant(doc.worldClasses)
  }

  predicate PlotMigrationDue(doc: RawDoc)
  {
    HasItems(doc.plots) && Vacant(doc.timeline)
  }

  // ---------------------------------------------------------------------------
  // Migration of legacy world categories

  /** A category's entries as a list: absent entries are none. */
  function EntriesOf(l: RawList<WorldEntry>): seq<WorldEntry>
  {
    if l.Array? then l.items else []
  }

  /** `item` is the item made from `entry` for class `classId`. */
  predicate ItemFrom(item: WorldItem, entry: WorldEntry, classId: string)
  {
    item.classId == Some(classId) && item.name == entry.name && item.description == entry.description &&
    item.attributes == (if entry.attributes.Some? then entry.attributes.value else []) &&
    (Truthy(entry.id) ==> item.id == entry.id.value)
  }

  /** `items` are the items made from `entries`, in order, for class `classId`. */
  predicate MadeFrom(items: seq<WorldItem>, entries: seq<WorldEntry>, classId: string)
    decreases |items|
  {
    |items| == |entries| &&
    (items == [] ||
     (MadeFrom(items[..|items| - 1], entries[..|entries| - 1], classId) &&
      ItemFrom(items[|items| - 1], entries[|entries| - 1], classId)))
  }

  /** MadeFrom read position by position. */
  lemma {:induction false} MadeFromPointwise(items: seq<WorldItem>, entries: seq<WorldEntry>, classId: string)
    ensures MadeFrom(items, entries, classId) <==>
              |items| == |entries| && forall j :: 0 <= j < |items| ==> ItemFrom(items[j], entries[j], classId)
    decreases |items|
  {
    if items != [] && |items| == |entries| {
      var n := |items| - 1;
      MadeFromPointwise(items[..n], entries[..n], classId);
      assert forall j :: 0 <= j < n ==> items[..n][j] == items[j] && entries[..n][j] == entries[j];
    }
  }

  /** The items made from one category's entries, in order, all bound to
      `classId`; an entry keeps a truthy id and otherwise draws a fresh one. */
  function EntryItems(entries: seq<WorldEntry>, classId: string, seed: nat): (r: (seq<WorldItem>, nat))
    ensures |r.0| == |entries| && r.1 >= seed
    ensures forall j :: 0 <= j < |entries| ==> ItemFrom(r.0[j], entries[j], classId)
    decreases |entries|
  {
    if entries == [] then ([], seed)
    else
      var (items, next) := EntryItems(entries[..|entries| - 1], classId, seed);
      var e := entries[|entries| - 1];
      var attrs := if e.attributes.Some? then e.attributes.value else [];
      var item := WorldItem(if Truthy(e.id) then e.id.value else MakeId(next), Some(classId), e.name, e.description, attrs);
      assert (items + [item])[..|items|] == items;
      (items + [item], if Truthy(e.id) then next else next + 1)
  }

  /** Entries of the categories that hold an array of them. */
  function EntryCount(cats: seq<WorldCategory>): nat
    decreases |cats|
  {
    if cats == [] then 0
    else
      var last := cats[|cats| - 1].entries;
      EntryCount(cats[..|cats| - 1]) + (if last.Array? then |last.items| else 0)
  }

  /** `v` has one class per category (its name, an empty template), one item
      per entry, each item bound to one of the classes, and a counter no
      lower than `seed`. */
  predicate ClassesFor(cats: seq<WorldCategory>, seed: nat, v: (seq<WorldClass>, seq<WorldItem>, nat))
  {
    var (classes, items, next) := v;
    |classes| == |cats| && |items| == EntryCount(cats) && next >= seed &&
    (forall k :: 0 <= k < |cats| ==> classes[k].name == cats[k].name && classes[k].template == []) &&
    (forall i :: 0 <= i < |items| ==>
       items[i].classId.Some? && exists k :: 0 <= k < |classes| && classes[k].id == items[i].classId.value)
  }

  /** One class per category (its name, an empty template, a fresh id) and
      one item per entry; `None` when some category's entries cannot be
      iterated, which makes the load fail. */
  function CategoryClasses(cats: seq<WorldCategory>, seed: nat): (r: Option<(seq<WorldClass>, seq<WorldItem>, nat)>)
    ensures r.None? <==> exists k :: 0 <= k < |cats| && NotIterable(cats[k].entries)
    ensures r.Some? ==> ClassesFor(cats, seed, r.value)
    decreases |cats|
  {
    if cats == [] then Some(([], [], seed))
    else
      SomeNotIterableSnoc(cats[..|cats| - 1], cats);
      match CategoryClasses(cats[..|cats| - 1], seed)
      case None => None
      case Some(acc) =>
        var r := AddCategory(acc, cats[|cats| - 1]);
        AddCategoryExtends(acc, cats, seed);
        r
  }

  /** Some category of a non-empty list cannot be iterated iff one of the
      others cannot, or the last one cannot. */
  lemma SomeNotIterableSnoc(init: seq<WorldCategory>, cats: seq<WorldCategory>)
    requires cats != [] && init == cats[..|cats| - 1]
    ensures (exists k :: 0 <= k < |cats| && NotIterable(cats[k].entries)) <==>
              (exists k :: 0 <= k < |init| && NotIterable(init[k].entries)) || NotIterable(cats[|cats| - 1].entries)
  {
    forall k | 0 <= k < |init| ensures init[k] == cats[k] {}
  }

  /** Adding the last category to a result for the others gives a result
      for all of them. */
  lemma AddCategoryExtends(acc: (seq<WorldClass>, seq<WorldItem>, nat), cats: seq<WorldCategory>, seed: nat)
    requires cats != [] && ClassesFor(cats[..|cats| - 1], seed, acc)
    ensures AddCategory(acc, cats[|cats| - 1]).Some? ==> ClassesFor(cats, seed, AddCategory(acc, cats[|cats| - 1]).value)
  {
    if AddCategory(acc, cats[|cats| - 1]).Some? {
      AddCategoryNames(acc, cats);
      AddCategoryItemsBelong(acc, cats[|cats| - 1]);
    }
  }

  /** The class the last category adds carries its name and an empty template. */
  lemma AddCategoryNames(acc: (seq<WorldClass>, seq<WorldItem>, nat), cats: seq<WorldCategory>)
    requires cats != [] && |acc.0| == |cats| - 1 && AddCategory(acc, cats[|cats| - 1]).Some?
    requires forall k :: 0 <= k < |cats| - 1 ==> acc.0[k].name == cats[k].name && acc.0[k].template == []
    ensures var r := AddCategory(acc, cats[|cats| - 1]).value;
            |r.0| == |cats| && forall k :: 0 <= k < |cats| ==> r.0[k].name == cats[k].name && r.0[k].template == []
  {
    var cat := cats[|cats| - 1];
    var r := AddCategory(acc, cat).value;
    assert r.0 == acc.0 + [EntityClass(MakeId(acc.2), cat.name, [])];
    forall k | 0 <= k < |cats| ensures r.0[k].name == cats[k].name && r.0[k].template == [] {
      if k < |cats| - 1 {
        assert r.0[k] == acc.0[k];
      }
    }
  }

  /** Every item after a category is added is bound to one of the classes. */
  lemma AddCategoryItemsBelong(acc: (seq<WorldClass>, seq<WorldItem>, nat), cat: WorldCategory)
    requires AddCategory(acc, cat).Some?
    requires forall i :: 0 <= i < |acc.1| ==>
               acc.1[i].classId.Some? && exists k :: 0 <= k < |acc.0| && acc.0[k].id == acc.1[i].classId.value
    ensures var r := AddCategory(acc, cat).value;
            |r.1| == |acc.1| + |EntriesOf(cat.entries)| && r.2 >= acc.2 &&
            forall i :: 0 <= i < |r.1| ==>
              r.1[i].classId.Some? && exists k :: 0 <= k < |r.0| && r.0[k].id == r.1[i].classId.value
  {
    var r := AddCategory(acc, cat).value;
    var d := MakeId(acc.2);
    var added := EntryItems(EntriesOf(cat.entries), d, acc.2 + 1).0;
    assert r.0 == acc.0 + [EntityClass(d, cat.name, [])] && r.1 == acc.1 + added;
    forall i | 0 <= i < |r.1|
      ensures r.1[i].classId.Some? && exists k :: 0 <= k < |r.0| && r.0[k].id == r.1[i].classId.value
    {
      if i < |acc.1| {
        var k :| 0 <= k < |acc.0| && acc.0[k].id == acc.1[i].classId.value;
        assert r.0[k] == acc.0[k] && r.1[i] == acc.1[i];
      } else {
        assert ItemFrom(added[i - |acc.1|], EntriesOf(cat.entries)[i - |acc.1|], d);
        assert r.0[|acc.0|].id == d;
      }
    }
  }

  /** One step of the category `forEach`: a class drawn at the next counter,
      and the items made from the category's entries; None when the entries
      cannot be iterated. */
  function AddCategory(acc: (seq<WorldClass>, seq<WorldItem>, nat), cat: WorldCategory): (r: Option<(seq<WorldClass>, seq<WorldItem>, nat)>)
    ensures r.None? <==> NotIterable(cat.entries)
    ensures r.Some? ==>
              var more := EntryItems(EntriesOf(cat.entries), MakeId(acc.2), acc.2 + 1);
              r.value == (acc.0 + [EntityClass(MakeId(acc.2), cat.name, [])], acc.1 + more.0, more.1)
    ensures r.Some? ==> forall i :: |acc.1| <= i < |r.value.1| ==> r.value.1[i].classId == Some(MakeId(acc.2))
  {
    var cls := EntityClass(MakeId(acc.2), cat.name, []);
    match cat.entries
    case Absent =>
      assert acc.1 + EntryItems([], cls.id, acc.2 + 1).0 == acc.1;
      Some((acc.0 + [cls], acc.1, acc.2 + 1))
    case Array(es) =>
      var (more, next) := EntryItems(es, cls.id, acc.2 + 1);
      Some((acc.0 + [cls], acc.1 + more, next))
    case Opaque => None
    case NonEmptyText => None
  }

  /** A category whose entries cannot be iterated fails every longer list. */
  lemma {:induction false} CategoryFailureExtends(cats: seq<WorldCategory>, k: nat, seed: nat)
    requires k <= |cats| && CategoryClasses(cats[..k], seed).None?
    ensures CategoryClasses(cats, seed).None?
  {
    var j :| 0 <= j < k && NotIterable(cats[..k][j].entries);
    assert cats[j] == cats[..k][j];
  }

  /** Every migrated class id is drawn from the counters the migration used. */
  lemma {:induction false} CategoryClassRange(cats: seq<WorldCategory>, seed: nat)
    ensures CategoryClasses(cats, seed).Some? ==>
              var (classes, items, next) := CategoryClasses(cats, seed).value;
              forall k :: 0 <= k < |classes| ==> seed <= ParseId(classes[k].id) < next
    decreases |cats|
  {
    if cats != [] && CategoryClasses(cats, seed).Some? {
      var init := cats[..|cats| - 1];
      LastCategoryAdds(cats, seed);
      CategoryClassRange(init, seed);
      var (classes, items, next) := CategoryClasses(init, seed).value;
      ParseMakeId(next);
      var all := CategoryClasses(cats, seed).value;
      assert all.0 == classes + [EntityClass(MakeId(next), cats[|cats| - 1].name, [])];
      assert all.2 >= next + 1;
    }
  }

  /** One class id per category, each drawn at its own counter, so no two
      classes share an id. */
  lemma {:induction false} CategoryClassIds(cats: seq<WorldCategory>, seed: nat)
    ensures CategoryClasses(cats, seed).Some? ==>
              var (classes, items, next) := CategoryClasses(cats, seed).value;
              DistinctIds(classes, ClassId) &&
              forall k :: 0 <= k < |classes| ==> seed <= ParseId(classes[k].id) < next
    decreases |cats|
  {
    CategoryClassRange(cats, seed);
    if cats != [] && CategoryClasses(cats, seed).Some? {
      var init := cats[..|cats| - 1];
      LastCategoryAdds(cats, seed);
      CategoryClassIds(init, seed);
      var (classes, items, next) := CategoryClasses(init, seed).value;
      var cls := EntityClass(MakeId(next), cats[|cats| - 1].name, []);
      ParseMakeId(next);
      assert CategoryClasses(cats, seed).value.0 == classes + [cls];
    }
  }

  /** Items bound to a class nobody in `items` is bound to are filtered out. */
  lemma NoneBound(items: seq<WorldItem>, classId: string)
    requires forall i :: 0 <= i < |items| ==> items[i].classId != Some(classId)
    ensures Filter(items, World.InClass(classId)) == []
  {
    CountWhereNone(items, World.InClass(classId));
  }

  /** Appending items of another class leaves a class's filter as it was. */
  lemma OtherClassAppended(items: seq<WorldItem>, more: seq<WorldItem>, c: string, d: string)
    requires c != d && forall i :: 0 <= i < |more| ==> more[i].classId == Some(d)
    ensures Filter(items + more, World.InClass(c)) == Filter(items, World.InClass(c))
  {
    FilterAppend(items, more, World.InClass(c));
    NoneBound(more, c);
    assert Filter(items, World.InClass(c)) + [] == Filter(items, World.InClass(c));
  }

  /** Appending the only items of a new class makes them that class's filter. */
  lemma NewClassAppended(items: seq<WorldItem>, more: seq<WorldItem>, d: string)
    requires forall i :: 0 <= i < |items| ==> items[i].classId != Some(d)
    requires forall i :: 0 <= i < |more| ==> more[i].classId == Some(d)
    ensures Filter(items + more, World.InClass(d)) == more
  {
    FilterAppend(items, more, World.InClass(d));
    NoneBound(items, d);
    FilterAll(more, World.InClass(d));
    assert [] + more == more;
  }

  /** The last category adds one class drawn at the counter left by the
      others, and the items made from its entries. */
  lemma LastCategoryAdds(cats: seq<WorldCategory>, seed: nat)
    requires cats != [] && CategoryClasses(cats, seed).Some?
    ensures CategoryClasses(cats[..|cats| - 1], seed).Some?
    ensures var pre := CategoryClasses(cats[..|cats| - 1], seed).value;
            CategoryClasses(cats, seed) == AddCategory(pre, cats[|cats| - 1])
  {
  }

  /** Class k of `v` holds exactly the items made from category k's entries,
      in the entries' order. */
  predicate EntriesBound(cats: seq<WorldCategory>, v: (seq<WorldClass>, seq<WorldItem>, nat))
  {
    |v.0| == |cats| &&
    forall k :: 0 <= k < |cats| ==>
      MadeFrom(Filter(v.1, World.InClass(v.0[k].id)), EntriesOf(cats[k].entries), v.0[k].id)
  }

  /** Each new class holds exactly the items made from its own category's
      entries, in the entries' order. */
  lemma {:induction false} CategoryItemsBound(cats: seq<WorldCategory>, seed: nat)
    ensures CategoryClasses(cats, seed).Some? ==> EntriesBound(cats, CategoryClasses(cats, seed).value)
    decreases |cats|
  {
    if cats != [] && CategoryClasses(cats, seed).Some? {
      LastCategoryAdds(cats, seed);
      var init := cats[..|cats| - 1];
      var pre := CategoryClasses(init, seed).value;
      CategoryItemsBound(init, seed);
      CategoryClassRange(init, seed);
      AddCategoryBound(pre, cats, seed);
    }
  }

  /** Adding the last category keeps every class bound to its own category's
      entries. */
  lemma AddCategoryBound(pre: (seq<WorldClass>, seq<WorldItem>, nat), cats: seq<WorldCategory>, seed: nat)
    requires cats != [] && ClassesFor(cats[..|cats| - 1], seed, pre) && EntriesBound(cats[..|cats| - 1], pre)
    requires AddCategory(pre, cats[|cats| - 1]).Some?
    requires forall j :: 0 <= j < |pre.0| ==> ParseId(pre.0[j].id) < pre.2
    ensures EntriesBound(cats, AddCategory(pre, cats[|cats| - 1]).value)
  {
    var init := cats[..|cats| - 1];
    var cat := cats[|cats| - 1];
    var r := AddCategory(pre, cat).value;
    AddCategoryBinds(pre, cat);
    forall k | 0 <= k < |cats|
      ensures MadeFrom(Filter(r.1, World.InClass(r.0[k].id)), EntriesOf(cats[k].entries), r.0[k].id)
    {
      if k < |init| {
        AddCategoryKeeps(pre, cat, k);
        assert cats[k] == init[k];
      } else {
        assert k == |pre.0| && cats[k] == cat;
      }
    }
  }

  /** Adding a category leaves an earlier class and its items as they were. */
  lemma AddCategoryKeeps(pre: (seq<WorldClass>, seq<WorldItem>, nat), cat: WorldCategory, k: nat)
    requires AddCategory(pre, cat).Some? && k < |pre.0|
    requires forall j :: 0 <= j < |pre.0| ==> ParseId(pre.0[j].id) < pre.2
    ensures var r := AddCategory(pre, cat).value;
            r.0[k] == pre.0[k] &&
            Filter(r.1, World.InClass(r.0[k].id)) == Filter(pre.1, World.InClass(pre.0[k].id))
  {
    var r := AddCategory(pre, cat).value;
    var d := MakeId(pre.2);
    ParseMakeId(pre.2);
    assert r.0[k] == pre.0[k];
    assert pre.0[k].id != d;
    var added := r.1[|pre.1|..];
    assert r.1 == pre.1 + added;
    OtherClassAppended(pre.1, added, pre.0[k].id, d);
  }

  /** The class a category adds holds exactly the items made from its entries. */
  lemma AddCategoryBinds(pre: (seq<WorldClass>, seq<WorldItem>, nat), cat: WorldCategory)
    requires AddCategory(pre, cat).Some?
    requires forall j :: 0 <= j < |pre.0| ==> ParseId(pre.0[j].id) < pre.2
    requires forall i :: 0 <= i < |pre.1| ==>
               pre.1[i].classId.Some? && exists j :: 0 <= j < |pre.0| && pre.0[j].id == pre.1[i].classId.value
    ensures var r := AddCategory(pre, cat).value;
            |r.0| == |pre.0| + 1 &&
            MadeFrom(Filter(r.1, World.InClass(r.0[|pre.0|].id)), EntriesOf(cat.entries), r.0[|pre.0|].id)
  {
    var d := MakeId(pre.2);
    var added := EntryItems(EntriesOf(cat.entries), d, pre.2 + 1).0;
    var r := AddCategory(pre, cat).value;
    assert r.0 == pre.0 + [EntityClass(d, cat.name, [])] && r.1 == pre.1 + added;
    ParseMakeId(pre.2);
    forall i | 0 <= i < |added| ensures added[i].classId == Some(d) {
      assert ItemFrom(added[i], EntriesOf(cat.entries)[i], d);
    }
    NewClassBound(pre.0, pre.1, pre.2, d, added);
    MadeFromPointwise(added, EntriesOf(cat.entries), d);
  }

  /** Items pushed for a class drawn at a fresh counter are exactly its items. */
  lemma NewClassBound(classes: seq<WorldClass>, items: seq<WorldItem>, next: nat, d: string, added: seq<WorldItem>)
    requires ParseId(d) == next
    requires forall k :: 0 <= k < |classes| ==> ParseId(classes[k].id) < next
    requires forall i :: 0 <= i < |items| ==>
               items[i].classId.Some? && exists k :: 0 <= k < |classes| && classes[k].id == items[i].classId.value
    requires forall i :: 0 <= i < |added| ==> added[i].classId == Some(d)
    ensures Filter(items + added, World.InClass(d)) == added
  {
    forall i | 0 <= i < |items| ensures items[i].classId != Some(d) {
      var j :| 0 <= j < |classes| && classes[j].id == items[i].classId.value;
    }
    NewClassAppended(items, added, d);
  }

  /** The world migration's promise: distinct new class ids, and each new
      class holding exactly its category's entries as items. */
  lemma WorldMigrationBindsEntries(doc: RawDoc, seed: nat)
    requires WorldMigrationDue(doc) && MigrateWorld(doc, seed).Some?
    ensures var cats := doc.worldCategories.items;
            var d := MigrateWorld(doc, seed).value.0;
            d.worldClasses.Array? && d.worldItems.Array? && |d.worldClasses.items| == |cats| &&
            DistinctIds(d.worldClasses.items, ClassId) &&
            forall k :: 0 <= k < |cats| ==>
              d.worldClasses.items[k].name == cats[k].name &&
              MadeFrom(Filter(d.worldItems.items, World.InClass(d.worldClasses.items[k].id)),
                       EntriesOf(cats[k].entries), d.worldClasses.items[k].id)
  {
    CategoryClassIds(doc.worldCategories.items, seed);
    CategoryItemsBound(doc.worldCategories.items, seed);
  }

  function MigrateWorld(doc: RawDoc, seed: nat): (r: Option<(RawDoc, nat)>)
    ensures !WorldMigrationDue(doc) ==> r == Some((doc, seed))
    ensures WorldMigrationDue(doc) && r.Some? ==>
              doc.worldCategories.Array? && CategoryClasses(doc.worldCategories.items, seed).Some? &&
              var (classes, items, next) := CategoryClasses(doc.worldCategories.items, seed).value;
              r.value == (doc.(worldClasses := Array(classes), worldItems := Array(items), worldCategories := Absent), next)
    ensures WorldMigrationDue(doc) && r.None? ==>
              doc.worldCategories.NonEmptyText? || CategoryClasses(doc.worldCategories.items, seed).None?
  {
    if !WorldMigrationDue(doc) then Some((doc, seed))
    else if !doc.worldCategories.Array? then None
    else
      match CategoryClasses(doc.worldCategories.items, seed)
      case None => None
      case Some((classes, items, next)) =>
        Some((doc.(worldClasses := Array(classes), worldItems := Array(items), worldCategories := Absent), next))
  }

  // ---------------------------------------------------------------------------
  // Migration of legacy plots

  /** One arc per plot under the saga, ordered by the plot's position. */
  function PlotArcs(plots: seq<PlotPoint>, sagaId: string, seed: nat): (r: (seq<TimelineEvent>, nat))
    ensures |r.0| == |plots| && r.1 >= seed
    ensures forall i :: 0 <= i < |plots| ==>
              r.0[i].level == Arc && r.0[i].title == plots[i].title && r.0[i].description == plots[i].description &&
              r.0[i].parentId == Some(sagaId) && r.0[i].order == i &&
              (Truthy(plots[i].id) ==> r.0[i].id == plots[i].id.value)
    decreases |plots|
  {
    if plots == [] then ([], seed)
    else
      var (arcs, next) := PlotArcs(plots[..|plots| - 1], sagaId, seed);
      var p := plots[|plots| - 1];
      var index := |plots| - 1;
      if Truthy(p.id) then (arcs + [TimelineEvent(p.id.value, Arc, p.title, p.description, Some(sagaId), index)], next)
      else (arcs + [TimelineEvent(MakeId(next), Arc, p.title, p.description, Some(sagaId), index)], next + 1)
  }

  function MigratePlots(doc: RawDoc, seed: nat): (r: Option<(RawDoc, nat)>)
    ensures !PlotMigrationDue(doc) ==> r == Some((doc, seed))
    ensures PlotMigrationDue(doc) && doc.plots.NonEmptyText? ==> r.None?
    ensures PlotMigrationDue(doc) && doc.plots.Array? ==>
              r.Some? && r.value.0 == doc.(timeline := r.value.0.timeline, plots := Absent) &&
              var tl := r.value.0.timeline;
              tl.Array? && |tl.items| == |doc.plots.items| + 1 &&
              tl.items[0] == TimelineEvent(MakeId(seed), Saga, SagaTitle, SagaDescription, None, 0) &&
              tl.items[1..] == PlotArcs(doc.plots.items, MakeId(seed), seed + 1).0 &&
              r.value.1 == PlotArcs(doc.plots.items, MakeId(seed), seed + 1).1
  {
    if !PlotMigrationDue(doc) then Some((doc, seed))
    else if !doc.plots.Array? then None
    else
      var saga := TimelineEvent(MakeId(seed), Saga, SagaTitle, SagaDescription, None, 0);
      var (arcs, next) := PlotArcs(doc.plots.items, saga.id, seed + 1);
      Some((doc.(timeline := Array([saga] + arcs), plots := Absent), next))
  }

  // ---------------------------------------------------------------------------
  // Integrity pass

  function ArrayOr<T>(l: RawList<T>, fallback: seq<T>): (r: seq<T>)
    ensures l.Array? ==> r == l.items
    ensures !l.Array? ==> r == fallback
  {
    if l.Array? then l.items else fallback
  }

  /** A stored character with the later fields defaulted to "". */
  function RepairCharacter(c: RawCharacter): (r: Character)
    ensures r.personality == OrElse(c.personality, "") && r.appearance == OrElse(c.appearance, "") &&
            r.dialogueExamples == OrElse(c.dialogueExamples, "")
    ensures r.id == c.id && r.name == c.name && r.role == c.role && r.categoryId == c.categoryId &&
            r.description == c.description && r.traits == c.traits && r.relationships == c.relationships &&
            r.attributes == c.attributes
  {
    Character(c.id, c.name, c.role, c.categoryId, c.description, OrElse(c.personality, ""),
              OrElse(c.appearance, ""), OrElse(c.dialogueExamples, ""), c.traits, c.relationships, c.attributes)
  }

  function RepairCharacters(l: RawList<RawCharacter>): (r: seq<Character>)
    ensures !l.Array? ==> r == []
    ensures l.Array? ==> |r| == |l.items| && forall i :: 0 <= i < |r| ==> r[i] == RepairCharacter(l.items[i])
  {
    if l.Array? then seq(|l.items|, i requires 0 <= i < |l.items| => RepairCharacter(l.items[i])) else []
  }

  /** The integrity pass: non-array collections fall back to the defaults
      (classes and categories) or to empty lists, falsy metadata to the
      default strings; the legacy fields stay as they are. */
  function Repair(doc: RawDoc): (b: StoryBible)
    ensures b.title == OrElse(doc.title, DefaultTitle) && b.genre == OrElse(doc.genre, DefaultGenre) &&
            b.tone == OrElse(doc.tone, DefaultTone)
    ensures b.characterCategories == ArrayOr(doc.characterCategories, DefaultBible.characterCategories)
    ensures b.worldClasses == ArrayOr(doc.worldClasses, DefaultBible.worldClasses)
    ensures b.worldItems == ArrayOr(doc.worldItems, []) && b.timeline == ArrayOr(doc.timeline, [])
    ensures b.architectHistory == ArrayOr(doc.architectHistory, []) && b.roleplayHistory == ArrayOr(doc.roleplayHistory, [])
    ensures b.characters == RepairCharacters(doc.characters)
    ensures b.worldCategories == doc.worldCategories && b.plots == doc.plots
  {
    StoryBible(OrElse(doc.title, DefaultTitle), OrElse(doc.genre, DefaultGenre), OrElse(doc.tone, DefaultTone),
               ArrayOr(doc.characterCategories, DefaultBible.characterCategories),
               RepairCharacters(doc.characters),
               ArrayOr(doc.worldClasses, DefaultBible.worldClasses),
               ArrayOr(doc.worldItems, []),
               ArrayOr(doc.timeline, []),
               ArrayOr(doc.architectHistory, []),
               ArrayOr(doc.roleplayHistory, []),
               doc.worldCategories, doc.plots)
  }

  // ---------------------------------------------------------------------------
  // loadBible

  /** What `loadBible` returns, with the next unused id seed: the default
      document when nothing is stored or any step fails, else the migrated
      and repaired document. */
  function Load(stored: Stored, seed: nat): (r: (StoryBible, nat))
    ensures !stored.Parsed? ==> r == (DefaultBible, seed)
    ensures stored.Parsed? && MigrateWorld(stored.doc, seed).None? ==> r == (DefaultBible, seed)
    ensures stored.Parsed? && MigrateWorld(stored.doc, seed).Some? &&
            MigratePlots(MigrateWorld(stored.doc, seed).value.0, MigrateWorld(stored.doc, seed).value.1).None? ==>
              r == (DefaultBible, seed)
    ensures r.1 >= seed
  {
    match stored
    case Parsed(doc) =>
      (match MigrateWorld(doc, seed)
       case None => (DefaultBible, seed)
       case Some((d1, s1)) =>
         match MigratePlots(d1, s1)
         case None => (DefaultBible, seed)
         case Some((d2, s2)) => (Repair(d2), s2))
    case _ => (DefaultBible, seed)
  }

  /** The inner `forEach` of the category migration: pushes one item per entry. */
  method PushEntryItems(items: seq<WorldItem>, es: seq<WorldEntry>, classId: string, seed: nat)
    returns (items': seq<WorldItem>, next: nat)
    ensures items' == items + EntryItems(es, classId, seed).0 && next == EntryItems(es, classId, seed).1
  {
    items' := items;
    next := seed;
    for j := 0 to |es|
      invariant items' == items + EntryItems(es[..j], classId, seed).0
      invariant next == EntryItems(es[..j], classId, seed).1
    {
      EntryItemsSnoc(es, j, classId, seed);
      var e := es[j];
      var id := "";
      if Truthy(e.id) {
        id := e.id.value;
      } else {
        id := MakeId(next);
        next := next + 1;
      }
      items' := items' + [WorldItem(id, Some(classId), e.name, e.description,
                                    if e.attributes.Some? then e.attributes.value else [])];
    }
    assert es[..|es|] == es;
  }

  /** One more entry adds one item: the entry's truthy id, or the next fresh one. */
  lemma EntryItemsSnoc(es: seq<WorldEntry>, j: nat, classId: string, seed: nat)
    requires j < |es|
    ensures var (items, next) := EntryItems(es[..j], classId, seed);
            var e := es[j];
            var attrs := if e.attributes.Some? then e.attributes.value else [];
            EntryItems(es[..j + 1], classId, seed) ==
              if Truthy(e.id) then (items + [WorldItem(e.id.value, Some(classId), e.name, e.description, attrs)], next)
              else (items + [WorldItem(MakeId(next), Some(classId), e.name, e.description, attrs)], next + 1)
  {
    assert es[..j + 1][..j] == es[..j];
  }

  /** The outer `forEach` of the category migration; `ok` is false when it throws. */
  method PushCategoryClasses(cats: seq<WorldCategory>, seed: nat)
    returns (ok: bool, classes: seq<WorldClass>, items: seq<WorldItem>, next: nat)
    ensures ok <==> CategoryClasses(cats, seed).Some?
    ensures ok ==> CategoryClasses(cats, seed) == Some((classes, items, next))
  {
    classes, items, next := [], [], seed;
    for k := 0 to |cats|
      invariant CategoryClasses(cats[..k], seed) == Some((classes, items, next))
    {
      assert cats[..k + 1][..k] == cats[..k];
      var cat := cats[k];
      var classId := MakeId(next);
      next := next + 1;
      classes := classes + [EntityClass(classId, cat.name, [])];
      match cat.entries {
        case Absent =>
        case Array(es) =>
          items, next := PushEntryItems(items, es, classId, next);
        case Opaque =>
          CategoryFailureExtends(cats, k + 1, seed);
          return false, [], [], seed;
        case NonEmptyText =>
          CategoryFailureExtends(cats, k + 1, seed);
          return false, [], [], seed;
      }
    }
    assert cats[..|cats|] == cats;
    ok := true;
  }

  /** The `forEach` of the plot migration: pushes one arc per plot after the saga. */
  method PushPlotArcs(saga: TimelineEvent, plots: seq<PlotPoint>, seed: nat)
    returns (timeline: seq<TimelineEvent>, next: nat)
    ensures timeline == [saga] + PlotArcs(plots, saga.id, seed).0 && next == PlotArcs(plots, saga.id, seed).1
  {
    timeline := [saga];
    next := seed;
    for index := 0 to |plots|
      invariant timeline == [saga] + PlotArcs(plots[..index], saga.id, seed).0
      invariant next == PlotArcs(plots[..index], saga.id, seed).1
    {
      assert plots[..index + 1][..index] == plots[..index];
      var p := plots[index];
      var id := "";
      if Truthy(p.id) {
        id := p.id.value;
      } else {
        id := MakeId(next);
        next := next + 1;
      }
      timeline := timeline + [TimelineEvent(id, Arc, p.title, p.description, Some(saga.id), index)];
    }
    assert plots[..|plots|] == plots;
  }

  /** `loadBible`, updating the parsed object in place as the source does. */
  method LoadBible(stored: Stored, seed: nat) returns (r: StoryBible, next: nat)
    ensures (r, next) == Load(stored, seed)
  {
    if !stored.Parsed? {
      return DefaultBible, seed;
    }
    var parsed := stored.doc;
    next := seed;
    if WorldMigrationDue(parsed) {
      if !parsed.worldCategories.Array? {
        return DefaultBible, seed;
      }
      var ok, classes, items;
      ok, classes, items, next := PushCategoryClasses(parsed.worldCategories.items, next);
      if !ok {
        return DefaultBible, seed;
      }
      parsed := parsed.(worldClasses := Array(classes), worldItems := Array(items), worldCategories := Absent);
    }
    assert MigrateWorld(stored.doc, seed) == Some((parsed, next));
    ghost var afterWorld := (parsed, next);
    if PlotMigrationDue(parsed) {
      if !parsed.plots.Array? {
        return DefaultBible, seed;
      }
      var saga := TimelineEvent(MakeId(next), Saga, SagaTitle, SagaDescription, None, 0);
      var timeline;
      timeline, next := PushPlotArcs(saga, parsed.plots.items, next + 1);
      parsed := parsed.(timeline := Array(timeline), plots := Absent);
    }
    assert MigratePlots(afterWorld.0, afterWorld.1) == Some((parsed, next));
    r := Repair(parsed);
  }

  // ---------------------------------------------------------------------------
  // Saving and loading again

  /** A stored character as `JSON.stringify` writes it. */
  function RawOf(c: Character): RawCharacter
  {
    RawCharacter(c.id, c.name, c.role, c.categoryId, c.description, Some(c.personality), Some(c.appearance),
                 Some(c.dialogueExamples), c.traits, c.relationships, c.attributes)
  }

  /** `saveBible` followed by parsing: every field comes back as it was written. */
  function Saved(b: StoryBible): RawDoc
  {
    RawDoc(Some(b.title), Some(b.genre), Some(b.tone), Array(b.characterCategories),
           Array(seq(|b.characters|, i requires 0 <= i < |b.characters| => RawOf(b.characters[i]))),
           Array(b.worldClasses), Array(b.worldItems), Array(b.timeline), Array(b.architectHistory),
           Array(b.roleplayHistory), b.worldCategories, b.plots)
  }

  /** A document that a load leaves alone: non-empty metadata and no legacy
      data waiting to be migrated. */
  predicate Settled(b: StoryBible)
  {
    b.title != "" && b.genre != "" && b.tone != "" &&
    !WorldMigrationDue(Saved(b)) && !PlotMigrationDue(Saved(b))
  }

  /** Saving a settled document and loading it back gives the same document
      and draws no ids. */
  lemma SavedLoadsBack(b: StoryBible, seed: nat)
    requires Settled(b)
    ensures Load(Parsed(Saved(b)), seed) == (b, seed)
  {
    var doc := Saved(b);
    var cs := RepairCharacters(doc.characters);
    assert forall i :: 0 <= i < |cs| ==> cs[i] == b.characters[i];
    assert cs == b.characters;
  }

  /** What a load returns is settled, except when legacy plots sit next to a
      timeline that is present but not an array: the integrity pass then
      empties the timeline and leaves the plots, so the next load migrates
      them. */
  lemma LoadedIsSettled(stored: Stored, seed: nat)
    requires stored.Parsed? && HasItems(stored.doc.plots) ==> !NotIterable(stored.doc.timeline)
    ensures Settled(Load(stored, seed).0)
  {
    var b := Load(stored, seed).0;
    if stored.Parsed? && b != DefaultBible {
      var doc := stored.doc;
      var (d1, s1) := MigrateWorld(doc, seed).value;
      var (d2, s2) := MigratePlots(d1, s1).value;
      assert b == Repair(d2);
      assert d2.timeline == d1.timeline || d2.plots.Absent?;
    }
  }

  /** Loading is idempotent through a save: a second load returns the first
      load's document. */
  lemma LoadSaveLoad(stored: Stored, seed: nat, seed': nat)
    requires stored.Parsed? && HasItems(stored.doc.plots) ==> !NotIterable(stored.doc.timeline)
    ensures Load(Parsed(Saved(Load(stored, seed).0)), seed') == (Load(stored, seed).0, seed')
  {
    LoadedIsSettled(stored, seed);
    SavedLoadsBack(Load(stored, seed).0, seed');
  }

  /** The exception: plots beside a non-array timeline survive the first
      load, and the second load turns them into a saga. */
  lemma CorruptTimelineDefersPlots(doc: RawDoc, p: PlotPoint, seed: nat)
    requires doc.plots == Array([p]) && doc.timeline == Opaque && !WorldMigrationDue(doc)
    requires Truthy(doc.title) && Truthy(doc.genre) && Truthy(doc.tone)
    ensures var (b, s) := Load(Parsed(doc), seed);
            b.timeline == [] && b.plots == Array([p]) &&
            |Load(Parsed(Saved(b)), s).0.timeline| == 2
  {
    var (b, s) := Load(Parsed(doc), seed);
    assert b == Repair(doc);
    var d := Saved(b);
    assert PlotMigrationDue(d);
    assert !WorldMigrationDue(d);
  }

  /** The default document is settled: once saved (as a reset does), it loads
      back unchanged. */
  lemma DefaultReloads(seed: nat)
    ensures Load(Parsed(Saved(DefaultBible)), seed) == (DefaultBible, seed)
  {
    SavedLoadsBack(DefaultBible, seed);
  }
}
