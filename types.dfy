/** The story-bible records: classes with templates, items and characters
    with key/value attributes, a timeline forest, chat logs, the two legacy
    shapes kept for migration, and the partial updates the editor applies. */
module Types {
  import opened Text

  /** An instance-level attribute: a denormalised copy of a template key plus a value. */
  datatype KeyValue = KeyValue(id: string, key: string, value: string)

  /** One named attribute slot of a class; `id` is the stable join key for renames. */
  datatype AttributeTemplate = AttributeTemplate(id: string, key: string)

  /** A world class or a character category: a name and an ordered template. */
  datatype EntityClass = EntityClass(id: string, name: string, template: seq<AttributeTemplate>)

  type WorldClass = EntityClass
  type CharacterCategory = EntityClass

  /** A world item. `classId` is optional because an agent can create an item
      while no class exists, which leaves the reference undefined. */
  datatype WorldItem = WorldItem(
    id: string,
    classId: Option<string>,
    name: string,
    description: string,
    attributes: seq<KeyValue>)

  datatype Character = Character(
    id: string,
    name: string,
    role: string,
    categoryId: Option<string>,
    description: string,
    personality: string,
    appearance: string,
    dialogueExamples: string,
    traits: seq<string>,
    relationships: seq<string>,
    attributes: seq<KeyValue>)

  datatype TimelineLevel = Saga | Arc | Episode

  /** A timeline node; `parentId == None` makes it a root, `order` ranks it among its siblings. */
  datatype TimelineEvent = TimelineEvent(
    id: string,
    level: TimelineLevel,
    title: string,
    description: string,
    parentId: Option<string>,
    order: int)

  datatype ChatRole = User | Model
  datatype MessageKind = PlainText | Analysis | Warning

  datatype ChatMessage = ChatMessage(
    id: string,
    role: ChatRole,
    content: string,
    timestamp: int,
    kind: Option<MessageKind>)

  /** A stored value where the program expects an array, as JavaScript sees it:
      falsy (missing, null, false, 0, ""), a truthy value without a length
      (an object, a non-zero number, true), a non-empty string (which has a
      length but no forEach), or an actual array. */
  datatype RawList<T> = Absent | Opaque | NonEmptyText | Array(items: seq<T>)

  /** Legacy world entry; `id` and `attributes` may be missing. */
  datatype WorldEntry = WorldEntry(
    id: Option<string>,
    name: string,
    description: string,
    attributes: Option<seq<KeyValue>>)

  /** Legacy world category, holding its entries directly. */
  datatype WorldCategory = WorldCategory(id: Option<string>, name: string, entries: RawList<WorldEntry>)

  /** Legacy plot point; `id` may be missing. */
  datatype PlotPoint = PlotPoint(id: Option<string>, title: string, description: string)

  /** The root document. The legacy fields stay on a loaded document that
      did not need migrating, exactly as they were stored. */
  datatype StoryBible = StoryBible(
    title: string,
    genre: string,
    tone: string,
    characterCategories: seq<CharacterCategory>,
    characters: seq<Character>,
    worldClasses: seq<WorldClass>,
    worldItems: seq<WorldItem>,
    timeline: seq<TimelineEvent>,
    architectHistory: seq<ChatMessage>,
    roleplayHistory: seq<ChatMessage>,
    worldCategories: RawList<WorldCategory>,
    plots: RawList<PlotPoint>)

  // Id projections, passed to the generic list helpers.
  function ClassId(c: EntityClass): string { c.id }
  function ItemId(i: WorldItem): string { i.id }
  function CharacterId(c: Character): string { c.id }
  function EventId(t: TimelineEvent): string { t.id }

  // ---------------------------------------------------------------------------
  // Partial updates, the `{ ...x, ...updates }` spreads of the editor: a
  // present field overrides (even with ""), an absent one keeps the old value.

  function Override(o: Option<string>, current: string): (r: string)
    ensures o.Some? ==> r == o.value
    ensures o.None? ==> r == current
  {
    if o.Some? then o.value else current
  }

  datatype BiblePatch = BiblePatch(title: Option<string>, genre: Option<string>, tone: Option<string>)
  datatype ClassPatch = ClassPatch(name: Option<string>)
  datatype ItemPatch = ItemPatch(name: Option<string>, description: Option<string>)
  datatype EventPatch = EventPatch(title: Option<string>, description: Option<string>)
  datatype CharacterPatch = CharacterPatch(
    name: Option<string>,
    role: Option<string>,
    description: Option<string>,
    personality: Option<string>,
    appearance: Option<string>,
    dialogueExamples: Option<string>)

  function ApplyClassPatch(c: EntityClass, u: ClassPatch): (r: EntityClass)
    ensures r.id == c.id && r.template == c.template
    ensures r.name == Override(u.name, c.name)
  {
    c.(name := Override(u.name, c.name))
  }

  function ApplyItemPatch(i: WorldItem, u: ItemPatch): (r: WorldItem)
    ensures r.id == i.id && r.classId == i.classId && r.attributes == i.attributes
    ensures r.name == Override(u.name, i.name)
    ensures r.description == Override(u.description, i.description)
  {
    i.(name := Override(u.name, i.name), description := Override(u.description, i.description))
  }

  function ApplyEventPatch(t: TimelineEvent, u: EventPatch): (r: TimelineEvent)
    ensures r.id == t.id && r.level == t.level && r.parentId == t.parentId && r.order == t.order
    ensures r.title == Override(u.title, t.title)
    ensures r.description == Override(u.description, t.description)
  {
    t.(title := Override(u.title, t.title), description := Override(u.description, t.description))
  }

  function ApplyCharacterPatch(c: Character, u: CharacterPatch): (r: Character)
    ensures r.id == c.id && r.categoryId == c.categoryId && r.attributes == c.attributes
    ensures r.traits == c.traits && r.relationships == c.relationships
    ensures r.name == Override(u.name, c.name) && r.role == Override(u.role, c.role)
    ensures r.description == Override(u.description, c.description)
    ensures r.personality == Override(u.personality, c.personality)
    ensures r.appearance == Override(u.appearance, c.appearance)
    ensures r.dialogueExamples == Override(u.dialogueExamples, c.dialogueExamples)
  {
    c.(name := Override(u.name, c.name),
       role := Override(u.role, c.role),
       description := Override(u.description, c.description),
       personality := Override(u.personality, c.personality),
       appearance := Override(u.appearance, c.appearance),
       dialogueExamples := Override(u.dialogueExamples, c.dialogueExamples))
  }

  /** `updateBible`: merges the given metadata fields into the document. */
  function UpdateBible(prev: StoryBible, u: BiblePatch): (r: StoryBible)
    ensures r.title == Override(u.title, prev.title)
    ensures r.genre == Override(u.genre, prev.genre)
    ensures r.tone == Override(u.tone, prev.tone)
    ensures r == prev.(title := r.title, genre := r.genre, tone := r.tone)
  {
    prev.(title := Override(u.title, prev.title),
          genre := Override(u.genre, prev.genre),
          tone := Override(u.tone, prev.tone))
  }

  /** An empty patch changes nothing. */
  lemma EmptyPatchesAreIdentity(b: StoryBible, c: Character, i: WorldItem, t: TimelineEvent, k: EntityClass)
    ensures UpdateBible(b, BiblePatch(None, None, None)) == b
    ensures ApplyCharacterPatch(c, CharacterPatch(None, None, None, None, None, None)) == c
    ensures ApplyItemPatch(i, ItemPatch(None, None)) == i
    ensures ApplyEventPatch(t, EventPatch(None, None)) == t
    ensures ApplyClassPatch(k, ClassPatch(None)) == k
  {
  }
}
