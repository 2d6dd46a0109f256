/** The executors behind the assistant's tool calls. Each one is built from the
    document as it was when the assistant's turn began (`snapshot`: the name
    conflict checks and every name resolution read it) and writes through the
    latest document (`prev`); it returns the status string handed back to the
    language model, the new document, and the next unused id seed. */
module ToolBridge {
  import opened Text
  import opened Ids
  import opened Types
  import opened Collections
  import opened Templates

  /** What an executor returns: the status for the model, the document, the next seed. */
  datatype Outcome = Outcome(status: string, bible: StoryBible, seed: nat)

  // Argument bags. An absent or non-string argument is `None`.
  datatype MetadataArgs = MetadataArgs(genre: Option<string>, tone: Option<string>, title: Option<string>)
  datatype CharacterArgs = CharacterArgs(
    name: Option<string>,
    role: Option<string>,
    description: Option<string>,
    personality: Option<string>,
    appearance: Option<string>,
    dialogueExamples: Option<string>,
    categoryName: Option<string>)
  datatype ItemArgs = ItemArgs(name: Option<string>, className: Option<string>, description: Option<string>)
  datatype EventArgs = EventArgs(
    title: Option<string>,
    level: Option<TimelineLevel>,
    description: Option<string>,
    parentTitle: Option<string>)
  /** The update tools declare their target as a required string argument. */
  datatype CharacterEdit = CharacterEdit(
    targetName: string,
    newName: Option<string>,
    role: Option<string>,
    description: Option<string>,
    personality: Option<string>,
    appearance: Option<string>,
    dialogueExamples: Option<string>)
  datatype ItemEdit = ItemEdit(targetName: string, newName: Option<string>, description: Option<string>)
  datatype EventEdit = EventEdit(targetTitle: string, newTitle: Option<string>, description: Option<string>)

  const NoMetadataChange := "No changes made to metadata."
  const UnnamedName := "Unnamed"
  const UnknownRole := "Unknown"
  const NewEventTitle := "New Event"
  const DefaultClassLabel := "Default"

  /** The rejection of a create whose name already exists. */
  function ConflictStatus(kind: string, name: Option<string>): string
  {
    "FAILED: " + kind + " '" + Show(name) + "' already exists. Ask the user if they want to update it."
  }

  // ---------------------------------------------------------------------------
  // Case-insensitive matching

  /** `c.name.toLowerCase() === (name || '').toLowerCase()`. */
  function CharacterNamed(name: Option<string>): Character -> bool
  {
    (c: Character) => SameFolded(c.name, OrElse(name, ""))
  }

  function ItemNamed(name: Option<string>): WorldItem -> bool
  {
    (i: WorldItem) => SameFolded(i.name, OrElse(name, ""))
  }

  function EventTitled(title: Option<string>): TimelineEvent -> bool
  {
    (t: TimelineEvent) => SameFolded(t.title, OrElse(title, ""))
  }

  /** `c.name.toLowerCase().includes((hint || '').toLowerCase())`. */
  function NameIncludes(hint: Option<string>): EntityClass -> bool
  {
    (c: EntityClass) => Contains(Lower(c.name), Lower(OrElse(hint, "")))
  }

  /** `t.title.toLowerCase().includes(hint.toLowerCase())`. */
  function TitleIncludes(hint: string): TimelineEvent -> bool
  {
    (t: TimelineEvent) => Contains(Lower(t.title), Lower(hint))
  }

  /** The category a new character joins: the first whose name contains the
      hint, else the first category, else none. */
  function ResolveCategory(cats: seq<CharacterCategory>, hint: Option<string>): (r: Option<CharacterCategory>)
    ensures r.None? <==> cats == []
    ensures AnyWhere(cats, NameIncludes(hint)) ==>
              r == Some(cats[FirstIndex(cats, NameIncludes(hint))]) && NameIncludes(hint)(r.value)
    ensures !AnyWhere(cats, NameIncludes(hint)) && cats != [] ==> r == Some(cats[0])
  {
    match Find(cats, NameIncludes(hint))
    case Some(c) => Some(c)
    case None => if cats == [] then None else Some(cats[0])
  }

  /** A missing hint is the empty string, which every name contains: the first category wins. */
  lemma MissingHintPicksFirst(cats: seq<CharacterCategory>)
    ensures ResolveCategory(cats, None) == if cats == [] then None else Some(cats[0])
  {
    if cats != [] {
      ContainsEmpty(Lower(cats[0].name));
      assert NameIncludes(None)(cats[0]);
      assert FirstIndex(cats, NameIncludes(None)) == 0;
    }
  }

  /** Resolution ignores the hint's ASCII case: a hint resolves like its
      lower-cased form, for every category list. */
  lemma ResolveCaseInsensitive(cats: seq<CharacterCategory>, h: string)
    ensures ResolveCategory(cats, Some(h)) == ResolveCategory(cats, Some(Lower(h)))
  {
    LowerIdempotent(h);
    var p := NameIncludes(Some(h));
    var q := NameIncludes(Some(Lower(h)));
    assert forall i :: 0 <= i < |cats| ==> p(cats[i]) == q(cats[i]);
    FirstIndexSameTest(cats, p, q);
  }

  /** Resolution ignores ASCII case: "HUMAN" finds the category "Human" after "Elf". */
  lemma ResolveIgnoresCase(elf: CharacterCategory, human: CharacterCategory)
    requires elf.name == "Elf" && human.name == "Human"
    ensures ResolveCategory([elf, human], Some("HUMAN")) == Some(human)
  {
    assert Lower("HUMAN") == "human";
    assert Lower("Human") == "human";
    assert Lower("Elf") == "elf";
    assert !Contains("elf", "human");
    assert Contains("human", "human");
    assert !NameIncludes(Some("HUMAN"))(elf);
    assert NameIncludes(Some("HUMAN"))(human);
    assert FirstIndex([elf, human], NameIncludes(Some("HUMAN"))) == 1;
  }

  // ---------------------------------------------------------------------------
  // updateStoryMetadata

  /** Only a truthy argument becomes part of an update. */
  function Given(o: Option<string>): (r: Option<string>)
    ensures r.Some? <==> Truthy(o)
    ensures r.Some? ==> r == o
  {
    if Truthy(o) then o else None
  }

  /** Merges the truthy title, genre and tone into the document; with none of
      them it reports that nothing changed. The summary quotes the snapshot
      for the fields that were not given. */
  method UpdateStoryMetadata(snapshot: StoryBible, prev: StoryBible, args: MetadataArgs) returns (status: string, r: StoryBible)
    ensures r == UpdateBible(prev, BiblePatch(Given(args.title), Given(args.genre), Given(args.tone)))
    ensures r.title == OrElse(args.title, prev.title) && r.genre == OrElse(args.genre, prev.genre) &&
            r.tone == OrElse(args.tone, prev.tone)
    ensures !(Truthy(args.genre) || Truthy(args.tone) || Truthy(args.title)) ==>
              status == NoMetadataChange && r == prev
    ensures Truthy(args.genre) || Truthy(args.tone) || Truthy(args.title) ==>
              status == "Success: Story Metadata updated. Current State -> Title: " + OrElse(args.title, snapshot.title) +
                        ", Genre: " + OrElse(args.genre, snapshot.genre) + ", Tone: " + OrElse(args.tone, snapshot.tone)
  {
    var updates := BiblePatch(None, None, None);
    var keys := 0;
    if Truthy(args.genre) {
      updates := updates.(genre := args.genre);
      keys := keys + 1;
    }
    if Truthy(args.tone) {
      updates := updates.(tone := args.tone);
      keys := keys + 1;
    }
    if Truthy(args.title) {
      updates := updates.(title := args.title);
      keys := keys + 1;
    }
    assert updates == BiblePatch(Given(args.title), Given(args.genre), Given(args.tone));
    r := UpdateBible(prev, updates);
    if keys > 0 {
      status := "Success: Story Metadata updated. Current State -> Title: " + OrElse(args.title, snapshot.title) +
                ", Genre: " + OrElse(args.genre, snapshot.genre) + ", Tone: " + OrElse(args.tone, snapshot.tone);
    } else {
      status := NoMetadataChange;
    }
  }

  /** Repeating a metadata update changes nothing more. */
  lemma MetadataUpdateIdempotent(prev: StoryBible, args: MetadataArgs)
    ensures var u := BiblePatch(Given(args.title), Given(args.genre), Given(args.tone));
            UpdateBible(UpdateBible(prev, u), u) == UpdateBible(prev, u)
  {
  }

  // ---------------------------------------------------------------------------
  // createCharacter

  /** The character an agent creates, joining `cat` (if any) with one empty
      attribute per field of its template. */
  function AgentCharacter(args: CharacterArgs, cat: Option<CharacterCategory>, seed: nat): (c: Character)
    ensures c.name == OrElse(args.name, UnnamedName) && c.role == OrElse(args.role, UnknownRole)
    ensures c.description == OrElse(args.description, "") && c.personality == OrElse(args.personality, "")
    ensures c.appearance == OrElse(args.appearance, "") && c.dialogueExamples == OrElse(args.dialogueExamples, "")
    ensures c.traits == [] && c.relationships == []
    ensures cat.None? ==> c.categoryId == None && c.attributes == [] && c.id == MakeId(seed)
    ensures cat.Some? ==>
              c.categoryId == Some(cat.value.id) &&
              c.attributes == InstantiateAttributes(cat.value.template, seed) &&
              c.id == MakeId(seed + |cat.value.template|)
  {
    var template := if cat.Some? then cat.value.template else [];
    Character(MakeId(seed + |template|), OrElse(args.name, UnnamedName), OrElse(args.role, UnknownRole),
              if cat.Some? then Some(cat.value.id) else None,
              OrElse(args.description, ""), OrElse(args.personality, ""), OrElse(args.appearance, ""),
              OrElse(args.dialogueExamples, ""), [], [], InstantiateAttributes(template, seed))
  }

  /** Number of ids a character creation draws: one per attribute and one for the character. */
  function TemplateSize(cat: Option<EntityClass>): nat
  {
    if cat.Some? then |cat.value.template| else 0
  }

  /** `createCharacter`: rejects a name already on the snapshot's roster
      (ignoring case) and otherwise appends the new character to `prev`. */
  function CreateCharacter(snapshot: StoryBible, prev: StoryBible, args: CharacterArgs, seed: nat): (o: Outcome)
    ensures AnyWhere(snapshot.characters, CharacterNamed(args.name)) ==>
              o == Outcome(ConflictStatus("Character", args.name), prev, seed)
    ensures !AnyWhere(snapshot.characters, CharacterNamed(args.name)) ==>
              var cat := ResolveCategory(snapshot.characterCategories, args.categoryName);
              var c := AgentCharacter(args, cat, seed);
              o.bible == prev.(characters := prev.characters + [c]) &&
              o.seed == seed + TemplateSize(cat) + 1 &&
              o.status == "Success: Character '" + c.name + "' created."
  {
    if AnyWhere(snapshot.characters, CharacterNamed(args.name)) then
      Outcome(ConflictStatus("Character", args.name), prev, seed)
    else
      var cat := ResolveCategory(snapshot.characterCategories, args.categoryName);
      var c := AgentCharacter(args, cat, seed);
      Outcome("Success: Character '" + c.name + "' created.",
              prev.(characters := prev.characters + [c]), seed + TemplateSize(cat) + 1)
  }

  /** Once a created character is on the snapshot, creating the same truthy
      name again is rejected and changes nothing. */
  lemma CreateCharacterThenConflict(prev: StoryBible, args: CharacterArgs, seed: nat)
    requires !AnyWhere(prev.characters, CharacterNamed(args.name))
    requires Truthy(args.name)
    ensures var o := CreateCharacter(prev, prev, args, seed);
            CreateCharacter(o.bible, o.bible, args, o.seed) ==
              Outcome(ConflictStatus("Character", args.name), o.bible, o.seed)
  {
    var o := CreateCharacter(prev, prev, args, seed);
    var k := |prev.characters|;
    assert o.bible.characters[k].name == args.name.value;
    assert CharacterNamed(args.name)(o.bible.characters[k]);
  }

  /** Within one batch the conflict check reads the snapshot from before the
      batch, so the same create issued twice succeeds twice and the roster
      ends with two characters of the same name. */
  lemma BatchCreatesDuplicate(snapshot: StoryBible, args: CharacterArgs, seed: nat)
    requires !AnyWhere(snapshot.characters, CharacterNamed(args.name))
    ensures var o1 := CreateCharacter(snapshot, snapshot, args, seed);
            var o2 := CreateCharacter(snapshot, o1.bible, args, o1.seed);
            var n := |snapshot.characters|;
            o2.status == o1.status && |o2.bible.characters| == n + 2 &&
            o2.bible.characters[n].name == o2.bible.characters[n + 1].name == OrElse(args.name, UnnamedName) &&
            o2.bible.characters[n].id != o2.bible.characters[n + 1].id
  {
    var o1 := CreateCharacter(snapshot, snapshot, args, seed);
    var cat := ResolveCategory(snapshot.characterCategories, args.categoryName);
    MakeIdInjective(seed + TemplateSize(cat), o1.seed + TemplateSize(cat));
  }

  // ---------------------------------------------------------------------------
  // createWorldItem

  /** `createWorldItem`: the same conflict rule against the snapshot's items.
      The class is the first whose name contains the hint; with no match the
      item still takes the first class's id but gets no attributes. The new
      item is prepended to `prev`. */
  function CreateWorldItem(snapshot: StoryBible, prev: StoryBible, args: ItemArgs, seed: nat): (o: Outcome)
    ensures AnyWhere(snapshot.worldItems, ItemNamed(args.name)) ==>
              o == Outcome(ConflictStatus("World Item", args.name), prev, seed)
    ensures !AnyWhere(snapshot.worldItems, ItemNamed(args.name)) ==> |o.bible.worldItems| == |prev.worldItems| + 1
    ensures !AnyWhere(snapshot.worldItems, ItemNamed(args.name)) ==>
              var classes := snapshot.worldClasses;
              var found := Find(classes, NameIncludes(args.className));
              var template := if found.Some? then found.value.template else [];
              var shown := if found.Some? && found.value.name != "" then found.value.name else DefaultClassLabel;
              var item := o.bible.worldItems[0];
              o.bible == prev.(worldItems := [item] + prev.worldItems) &&
              item.classId == (if found.Some? then Some(found.value.id)
                               else if classes == [] then None else Some(classes[0].id)) &&
              item.attributes == InstantiateAttributes(template, seed) &&
              item.id == MakeId(seed + |template|) && o.seed == seed + |template| + 1 &&
              item.name == OrElse(args.name, UnnamedName) && item.description == OrElse(args.description, "") &&
              o.status == "Success: '" + item.name + "' created in class '" + shown + "'."
  {
    if AnyWhere(snapshot.worldItems, ItemNamed(args.name)) then
      Outcome(ConflictStatus("World Item", args.name), prev, seed)
    else
      var classes := snapshot.worldClasses;
      var found := Find(classes, NameIncludes(args.className));
      var classId := match found
                     case Some(c) => Some(c.id)
                     case None => if classes == [] then None else Some(classes[0].id);
      var template := if found.Some? then found.value.template else [];
      var item := WorldItem(MakeId(seed + |template|), classId, OrElse(args.name, UnnamedName),
                            OrElse(args.description, ""), InstantiateAttributes(template, seed));
      var shown := if found.Some? && found.value.name != "" then found.value.name else DefaultClassLabel;
      Outcome("Success: '" + item.name + "' created in class '" + shown + "'.",
              prev.(worldItems := [item] + prev.worldItems), seed + |template| + 1)
  }

  /** An unmatched class hint falls back to the first class's id with no
      attributes, which differs from the character rule that also takes the
      fallback's template. */
  lemma UnmatchedClassHasNoAttributes(snapshot: StoryBible, args: ItemArgs, seed: nat)
    requires !AnyWhere(snapshot.worldItems, ItemNamed(args.name))
    requires snapshot.worldClasses != [] && !AnyWhere(snapshot.worldClasses, NameIncludes(args.className))
    ensures var item := CreateWorldItem(snapshot, snapshot, args, seed).bible.worldItems[0];
            item.classId == Some(snapshot.worldClasses[0].id) && item.attributes == [] && item.id == MakeId(seed)
  {
  }

  // ---------------------------------------------------------------------------
  // createTimelineEvent

  /** The parent an agent names: the first snapshot event whose title
      contains the truthy hint; no hint or no match leaves the event a root. */
  function ResolveParent(timeline: seq<TimelineEvent>, hint: Option<string>): (r: Option<string>)
    ensures !Truthy(hint) ==> r == None
    ensures Truthy(hint) && !AnyWhere(timeline, TitleIncludes(hint.value)) ==> r == None
    ensures Truthy(hint) && AnyWhere(timeline, TitleIncludes(hint.value)) ==>
              var k := FirstIndex(timeline, TitleIncludes(hint.value));
              r == Some(timeline[k].id) && TitleIncludes(hint.value)(timeline[k])
  {
    if Truthy(hint) then
      match Find(timeline, TitleIncludes(hint.value))
      case Some(t) => Some(t.id)
      case None => None
    else None
  }

  /** `createTimelineEvent`: rejects a title already on the snapshot's
      timeline and otherwise appends an event (an Episode unless a level is
      given) whose order is the length of the snapshot's whole timeline. */
  function CreateTimelineEvent(snapshot: StoryBible, prev: StoryBible, args: EventArgs, seed: nat): (o: Outcome)
    ensures AnyWhere(snapshot.timeline, EventTitled(args.title)) ==>
              o == Outcome(ConflictStatus("Event", args.title), prev, seed)
    ensures !AnyWhere(snapshot.timeline, EventTitled(args.title)) ==> |o.bible.timeline| == |prev.timeline| + 1
    ensures !AnyWhere(snapshot.timeline, EventTitled(args.title)) ==>
              var e := o.bible.timeline[|prev.timeline|];
              o.bible == prev.(timeline := prev.timeline + [e]) && o.seed == seed + 1 &&
              e.id == MakeId(seed) && e.level == (if args.level.Some? then args.level.value else Episode) &&
              e.title == OrElse(args.title, NewEventTitle) && e.description == OrElse(args.description, "") &&
              e.parentId == ResolveParent(snapshot.timeline, args.parentTitle) &&
              e.order == |snapshot.timeline| &&
              o.status == "Success: Timeline Event '" + e.title + "' created."
  {
    if AnyWhere(snapshot.timeline, EventTitled(args.title)) then
      Outcome(ConflictStatus("Event", args.title), prev, seed)
    else
      var level := match args.level
                   case Some(l) => l
                   case None => Episode;
      var e := TimelineEvent(MakeId(seed), level, OrElse(args.title, NewEventTitle), OrElse(args.description, ""),
                             ResolveParent(snapshot.timeline, args.parentTitle), |snapshot.timeline|);
      Outcome("Success: Timeline Event '" + e.title + "' created.",
              prev.(timeline := prev.timeline + [e]), seed + 1)
  }

  /** Two events created in one batch both take the snapshot's length as
      their order, so they tie even when they are siblings. */
  lemma BatchEventsShareOrder(snapshot: StoryBible, a: EventArgs, b: EventArgs, seed: nat)
    requires !AnyWhere(snapshot.timeline, EventTitled(a.title))
    requires !AnyWhere(snapshot.timeline, EventTitled(b.title))
    ensures var o1 := CreateTimelineEvent(snapshot, snapshot, a, seed);
            var o2 := CreateTimelineEvent(snapshot, o1.bible, b, o1.seed);
            var n := |snapshot.timeline|;
            |o2.bible.timeline| == n + 2 &&
            o2.bible.timeline[n].order == o2.bible.timeline[n + 1].order == n &&
            o2.bible.timeline[n].id != o2.bible.timeline[n + 1].id
  {
    MakeIdInjective(seed, seed + 1);
  }

  // ---------------------------------------------------------------------------
  // The update executors: a `map` that patches every entry whose name (or
  // title) matches the target and raises a `found` flag when it does.

  /** `xs.map(x => { if (p(x)) { found = true; return f(x); } return x; })`. */
  method UpdateMarking<T>(xs: seq<T>, p: T -> bool, f: T -> T) returns (ys: seq<T>, found: bool)
    ensures ys == UpdateWhere(xs, p, f)
    ensures found <==> AnyWhere(xs, p)
  {
    ys := [];
    found := false;
    for i := 0 to |xs|
      invariant |ys| == i
      invariant forall j :: 0 <= j < i ==> ys[j] == if p(xs[j]) then f(xs[j]) else xs[j]
      invariant found <==> exists j :: 0 <= j < i && p(xs[j])
    {
      if p(xs[i]) {
        found := true;
        ys := ys + [f(xs[i])];
      } else {
        ys := ys + [xs[i]];
      }
    }
    assert forall j :: 0 <= j < |xs| ==> ys[j] == UpdateWhere(xs, p, f)[j];
  }

  function CharacterEditPatch(e: CharacterEdit): CharacterPatch
  {
    CharacterPatch(Given(e.newName), Given(e.role), Given(e.description), Given(e.personality),
                   Given(e.appearance), Given(e.dialogueExamples))
  }

  function PatchCharacter(u: CharacterPatch): Character -> Character
  {
    (c: Character) => ApplyCharacterPatch(c, u)
  }

  /** The roster after `updateCharacter`: every character named like the
      target takes each truthy argument and keeps every other field. */
  function CharactersEdited(cs: seq<Character>, e: CharacterEdit): (r: seq<Character>)
    ensures |r| == |cs|
    ensures forall i :: 0 <= i < |cs| && !SameFolded(cs[i].name, e.targetName) ==> r[i] == cs[i]
    ensures forall i :: 0 <= i < |cs| && SameFolded(cs[i].name, e.targetName) ==>
              r[i] == cs[i].(name := OrElse(e.newName, cs[i].name), role := OrElse(e.role, cs[i].role),
                             description := OrElse(e.description, cs[i].description),
                             personality := OrElse(e.personality, cs[i].personality),
                             appearance := OrElse(e.appearance, cs[i].appearance),
                             dialogueExamples := OrElse(e.dialogueExamples, cs[i].dialogueExamples))
  {
    UpdateWhere(cs, CharacterNamed(Some(e.targetName)), PatchCharacter(CharacterEditPatch(e)))
  }

  /** `updateCharacter`. */
  method UpdateCharacter(prev: StoryBible, e: CharacterEdit) returns (status: string, r: StoryBible)
    ensures r == prev.(characters := CharactersEdited(prev.characters, e))
    ensures AnyWhere(prev.characters, CharacterNamed(Some(e.targetName))) ==>
              status == "Success: Character '" + e.targetName + "' updated."
    ensures !AnyWhere(prev.characters, CharacterNamed(Some(e.targetName))) ==>
              status == "Error: Character '" + e.targetName + "' not found." && r == prev
  {
    var p := CharacterNamed(Some(e.targetName));
    var f := PatchCharacter(CharacterEditPatch(e));
    var characters, found := UpdateMarking(prev.characters, p, f);
    r := prev.(characters := characters);
    if found {
      status := "Success: Character '" + e.targetName + "' updated.";
    } else {
      UpdateWhereNone(prev.characters, p, f);
      status := "Error: Character '" + e.targetName + "' not found.";
    }
  }

  /** Repeating a character update changes nothing more. */
  lemma CharacterEditIdempotent(cs: seq<Character>, e: CharacterEdit)
    ensures UpdateWhere(CharactersEdited(cs, e), CharacterNamed(Some(e.targetName)), PatchCharacter(CharacterEditPatch(e))) ==
            CharactersEdited(cs, e)
  {
    UpdateWhereIdempotent(cs, CharacterNamed(Some(e.targetName)), PatchCharacter(CharacterEditPatch(e)));
  }

  function PatchItem(u: ItemPatch): WorldItem -> WorldItem
  {
    (i: WorldItem) => ApplyItemPatch(i, u)
  }

  /** The items after `updateWorldItem`. */
  function ItemsEdited(items: seq<WorldItem>, e: ItemEdit): (r: seq<WorldItem>)
    ensures |r| == |items|
    ensures forall i :: 0 <= i < |items| && !SameFolded(items[i].name, e.targetName) ==> r[i] == items[i]
    ensures forall i :: 0 <= i < |items| && SameFolded(items[i].name, e.targetName) ==>
              r[i] == items[i].(name := OrElse(e.newName, items[i].name),
                                description := OrElse(e.description, items[i].description))
  {
    UpdateWhere(items, ItemNamed(Some(e.targetName)), PatchItem(ItemPatch(Given(e.newName), Given(e.description))))
  }

  /** `updateWorldItem`. */
  method UpdateWorldItem(prev: StoryBible, e: ItemEdit) returns (status: string, r: StoryBible)
    ensures r == prev.(worldItems := ItemsEdited(prev.worldItems, e))
    ensures AnyWhere(prev.worldItems, ItemNamed(Some(e.targetName))) ==>
              status == "Success: Item '" + e.targetName + "' updated."
    ensures !AnyWhere(prev.worldItems, ItemNamed(Some(e.targetName))) ==>
              status == "Error: Item '" + e.targetName + "' not found." && r == prev
  {
    var p := ItemNamed(Some(e.targetName));
    var f := PatchItem(ItemPatch(Given(e.newName), Given(e.description)));
    var items, found := UpdateMarking(prev.worldItems, p, f);
    r := prev.(worldItems := items);
    if found {
      status := "Success: Item '" + e.targetName + "' updated.";
    } else {
      UpdateWhereNone(prev.worldItems, p, f);
      status := "Error: Item '" + e.targetName + "' not found.";
    }
  }

  function PatchEvent(u: EventPatch): TimelineEvent -> TimelineEvent
  {
    (t: TimelineEvent) => ApplyEventPatch(t, u)
  }

  /** The timeline after `updateTimelineEvent`; levels, parents and orders are kept. */
  function EventsEdited(tl: seq<TimelineEvent>, e: EventEdit): (r: seq<TimelineEvent>)
    ensures |r| == |tl|
    ensures forall i :: 0 <= i < |tl| && !SameFolded(tl[i].title, e.targetTitle) ==> r[i] == tl[i]
    ensures forall i :: 0 <= i < |tl| && SameFolded(tl[i].title, e.targetTitle) ==>
              r[i] == tl[i].(title := OrElse(e.newTitle, tl[i].title),
                             description := OrElse(e.description, tl[i].description))
  {
    UpdateWhere(tl, EventTitled(Some(e.targetTitle)), PatchEvent(EventPatch(Given(e.newTitle), Given(e.description))))
  }

  /** `updateTimelineEvent`. */
  method UpdateTimelineEvent(prev: StoryBible, e: EventEdit) returns (status: string, r: StoryBible)
    ensures r == prev.(timeline := EventsEdited(prev.timeline, e))
    ensures AnyWhere(prev.timeline, EventTitled(Some(e.targetTitle))) ==>
              status == "Success: Event '" + e.targetTitle + "' updated."
    ensures !AnyWhere(prev.timeline, EventTitled(Some(e.targetTitle))) ==>
              status == "Error: Event '" + e.targetTitle + "' not found." && r == prev
  {
    var p := EventTitled(Some(e.targetTitle));
    var f := PatchEvent(EventPatch(Given(e.newTitle), Given(e.description)));
    var timeline, found := UpdateMarking(prev.timeline, p, f);
    r := prev.(timeline := timeline);
    if found {
      status := "Success: Event '" + e.targetTitle + "' updated.";
    } else {
      UpdateWhereNone(prev.timeline, p, f);
      status := "Error: Event '" + e.targetTitle + "' not found.";
    }
  }

  /** An event update keeps the shape of the timeline forest: ids, levels,
      parents and orders are those of the old timeline, position by position. */
  lemma EventEditKeepsForest(tl: seq<TimelineEvent>, e: EventEdit)
    ensures var r := EventsEdited(tl, e);
            forall i :: 0 <= i < |tl| ==>
              r[i].id == tl[i].id && r[i].level == tl[i].level && r[i].parentId == tl[i].parentId &&
              r[i].order == tl[i].order
  {
  }
}
