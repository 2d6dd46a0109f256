# Story bible document model

A world-building application keeps one JSON document, the *story bible*:
- story metadata: title, genre and tone;
- world classes, each with a template of attribute fields, and the world items that instantiate them;
- character categories with their own templates, and the characters in them;
- a timeline forest of sagas, arcs and episodes linked by `parentId` and ordered among siblings by `order`.

This project models three parts of that document and proves properties about them:
- the editor's handlers, each turning the previous document into the next one;
- the seven executors behind the writing assistant's tool calls;
- the load step, which migrates two legacy shapes and repairs missing fields.

## Modules

- `Text`: ASCII lower-casing (`toLowerCase`), substring containment (`includes`), and JavaScript truthiness of optional strings (`x || fallback`, `${x}`).
- `Ids`: an abstract id source. The counter value `n` is written as the base-36 numeral `MakeId(n)`. Each operation that creates ids takes a `seed` and draws `MakeId(seed)`, `MakeId(seed + 1)`, and so on. Distinct counters give distinct ids.
- `Types`: the records of the document, and the `{...x, ...patch}` overrides the handlers apply.
- `Collections`:
  - the list operations the handlers use: `findIndex`, `find`, `filter`, conditional `map` and `some`;
  - `moveItemInArray`, which reorders based on the id positions inside a visible subset.
- `Templates`: shared by world classes and character categories:
  - looking up classes and fields;
  - instantiating attributes from a template;
  - renaming and removing attribute keys;
  - the non-destructive template merge used when a character changes category.
- `World`: the handlers for world classes, template fields and items.
- `Characters`: the handlers for characters and character categories. This includes `changeCharacterCategory`, written as a loop that pushes the missing attributes.
- `Timeline`:
  - adding an event;
  - moving an event, by exchanging `order` with its neighbour in the sorted sibling view;
  - updating an event;
  - deleting a subtree, written as the source's `while (changed)` fixed-point loop and proved to remove exactly the node and its descendants.
- `ToolBridge`: the assistant's executors.
  - Each takes the document captured when the executors were built (`snapshot`) and the document the state updater receives (`prev`).
  - Each returns the status string and the next document.
  - Conflict checks and name resolution read `snapshot`; writes go to `prev`. So inside one batch of tool calls, checks still see the document from before the batch.
  - The update executors keep the source's mutable `found` flag, as a loop.
- `Storage`:
  - `DEFAULT_BIBLE`;
  - `loadBible` as a function `Load`, plus an imperative `LoadBible` that mutates step by step the way the source does and is proved equal to `Load`;
  - the save/load round trip.

## Abstractions

- **Confirmation dialogs.** `window.confirm` and `skipConfirm` become `confirmed: bool`, the answer of whichever dialog is shown.
- **Ids.** `generateId` becomes a counter. Operations return the document, and the executors also return the next counter. They draw ids in the source's evaluation order; for example, a new world item's attribute ids are drawn before the item's own id.
- **State updaters.** React state updaters run synchronously.
- **The stored document.** The parsed JSON is a `RawDoc`. Each list field is a `RawList`: absent, an array, a non-empty string (which has a `length` but no `forEach`), or some other non-array value. Reading the slot gives `NoData`, `Unparseable`, `NotAnObject` or `Parsed`. Each path that throws inside `loadBible` yields the default document, as the source's `catch` does.

## Behaviour worth noting

- **Batches of tool calls.** Within one batch of tool calls, the create executors check names and resolve parents against the document captured before the batch, not against the effects of earlier calls in the same batch. So two creates of the same name in one batch both succeed (`ToolBridge.BatchCreatesDuplicate`), and two events created in one batch get the same `order` (`ToolBridge.BatchEventsShareOrder`).
- **Legacy plots beside a non-array timeline.** The plot migration is decided before the integrity pass repairs the timeline. Legacy plots kept beside a present non-array timeline therefore survive the first load and are migrated only on the next one (`Storage.CorruptTimelineDefersPlots`).
- **Clearing a field's key.** A template field rename propagates to the instances only when the old key is non-empty, and a field delete removes the attribute only when the key is non-empty (BibleManager.tsx:140, 175, 450, 482). Clearing a field's key to "" through the editor renames the instances' attribute to "" too; retyping the old key then renames only the template, so the field is cut off from the attributes its instances already hold (`World.ClearedKeyStrandsItems`, `Characters.ClearedKeyStrandsCharacters`).

## Model

| member | source | states |
|---|---|---|
| Types.Override | components/BibleManager.tsx:86 | one field of a `{ ...x, ...updates }` spread: a given value overrides, even an empty one; an absent one keeps the current value |
| Types.UpdateBible | components/BibleManager.tsx:22-24 | only the given title, genre and tone are overwritten; every collection is kept |
| Types.ApplyClassPatch | components/BibleManager.tsx:83-88 | a class patch overrides the name only when given; id and template are kept |
| Types.ApplyItemPatch | components/BibleManager.tsx:214-219 | an item patch overrides name and description only when given; id, class and attributes are kept |
| Types.ApplyEventPatch | components/BibleManager.tsx:286-291 | an event patch overrides title and description only when given; id, level, parent and order are kept |
| Types.ApplyCharacterPatch | components/BibleManager.tsx:343-348 | a character patch overrides only given text fields; id, category, traits, relationships and attributes are kept |
| Types.EmptyPatchesAreIdentity | components/BibleManager.tsx:22-24 | a patch that gives no field leaves the bible, character, item, event and class unchanged |
| Text.Lower | components/ChatAssistant.tsx:75 | lower-casing keeps the length and maps only A-Z to a-z |
| Text.LowerIdempotent | components/ChatAssistant.tsx:75 | lower-casing twice is lower-casing once |
| Text.ContainsIffOccurs | components/ChatAssistant.tsx:80-81 | `includes` holds exactly when the needle occurs as a slice at some position |
| Text.ContainsEmpty | components/ChatAssistant.tsx:81 | the empty hint is contained in every name |
| Text.Show | components/ChatAssistant.tsx:76 | a template literal renders a given string as itself and an absent one as "undefined" |
| Text.OrElse | components/ChatAssistant.tsx:88-104 | `x \|\| fallback` yields the argument when it is a non-empty string and the fallback otherwise |
| Ids.MakeId | services/storage.ts:6 | a generated id is a non-empty string of base-36 digits |
| Ids.ParseMakeId | services/storage.ts:6 | reading a generated id back gives its counter value |
| Ids.MakeIdInjective | services/storage.ts:6 | two generated ids are equal only when their counters are equal |
| Ids.MakeIdAvoids | services/storage.ts:8-57 | a generated id differs from the fixed ids of the default document (any string with a character that is not a base-36 digit) |
| Collections.IndexOf | components/BibleManager.tsx:35 | `findIndex` gives -1 when no element has the id, else the first position with the id |
| Collections.FirstIndex | components/BibleManager.tsx:94 | the first position satisfying the test, or -1 when none does |
| Collections.CountWhere | components/BibleManager.tsx:94-95 | `filter(...).length`: the number of elements passing the test, never more than the length (zero exactly when none passes: CountWhereNone; the length exactly when all pass: CountWhereAll) |
| Collections.Find | components/BibleManager.tsx:125 | `find` gives the element at the first satisfying position, or nothing |
| Collections.Filter | components/BibleManager.tsx:94 | `filter` keeps exactly the passing elements, each one from the input |
| Collections.FilterSubMultiset | components/BibleManager.tsx:94 | `filter` takes each element at most as often as it occurs in the input |
| Collections.FilterAppend | components/BibleManager.tsx:94 | filtering a concatenation is concatenating the filtered parts; relative order is kept |
| Collections.CountWhereNone | components/BibleManager.tsx:94-95 | the count of passing elements is zero exactly when none passes |
| Collections.CountWhereAll | components/BibleManager.tsx:102 | the count equals the length exactly when every element passes |
| Collections.FilterAll | components/BibleManager.tsx:102 | `filter` returns its input exactly when every element passes |
| Collections.UpdateWhere | components/BibleManager.tsx:85 | a conditional map keeps the length, rewrites exactly the matching positions and leaves every other position as it was |
| Collections.UpdateWhereNone | components/ChatAssistant.tsx:209-213 | a conditional map that matches nothing returns its input |
| Collections.UpdateWhereIdempotent | components/ChatAssistant.tsx:166-171 | a conditional map applied twice equals one application when the rewrite is idempotent and keeps matching elements matching |
| Collections.Map | components/BibleManager.tsx:276-280 | `map` keeps the length and rewrites each position |
| Collections.FilterMap | components/BibleManager.tsx:261 | filtering after a map that keeps the test equals mapping the filtered list |
| Collections.MapPermutation | components/BibleManager.tsx:261 | mapping two permutations of each other gives permutations of each other |
| Collections.Swap | components/BibleManager.tsx:52-57 | exchanging two positions keeps the length and the multiset; the two positions trade elements and every other position is unchanged |
| Collections.MovePositions | components/BibleManager.tsx:35-50 | a pair of positions exactly when the move is feasible: the id is in the subset, it is not at the end it moves towards, and both it and its subset neighbour occur in the full array; the pair is the first position of the id and the first position of the neighbour's id in the full array |
| Collections.MoveItemInArray | components/BibleManager.tsx:29-62 | an infeasible move returns the array unchanged; a feasible one returns it with exactly those two positions swapped; a same-length permutation in every case |
| Collections.FlatMoveIsNeighbourSwap | components/BibleManager.tsx:76-81 | in a list moved as its own view, with distinct ids, a move swaps the element with its direct neighbour |
| Collections.SwapKeepsDistinct | components/BibleManager.tsx:52-57 | a swap keeps ids distinct |
| Collections.SwapTwice | components/BibleManager.tsx:52-57 | a swap undone by the same swap restores the list |
| Collections.MoveUpThenDownRestores | components/BibleManager.tsx:29-62 | with distinct ids, moving an element that is not first up and then down restores the list |
| Collections.MoveDownThenUpRestores | components/BibleManager.tsx:29-62 | with distinct ids, moving an element that is not last down and then up restores the list |
| Collections.MoveKeepsOutside | components/BibleManager.tsx:204-212 | with distinct ids, a move inside a subset leaves every position holding an element outside that subset unchanged |
| Collections.IndexOfSameIds | components/BibleManager.tsx:126 | two lists with the same ids position by position give the same first index for every id |
| Collections.TwoPositions | components/BibleManager.tsx:47-48 | a value whose multiplicity is two or more sits at two distinct positions |
| Templates.FindClass | components/BibleManager.tsx:125 | the class at the first position with the id, or none when no class has it |
| Templates.FieldKey | components/BibleManager.tsx:128-129 | the key of the first template field with the id, or none |
| Templates.InstantiateAttributes | components/BibleManager.tsx:191 | one attribute per template field, in template order, with the field's key, an empty value and the ids MakeId(seed+i) |
| Templates.InstantiatedIdsDistinct | components/BibleManager.tsx:191 | instantiated attributes never share an id |
| Templates.RenameKey | components/BibleManager.tsx:143 | each attribute with the old key gets the new key, keeping its id and value; all other attributes are unchanged |
| Templates.RenameKeyRemovesOldKey | components/BibleManager.tsx:139-147 | after a rename to a different key, no attribute keeps the old key |
| Templates.RenameKeyRoundTrip | components/BibleManager.tsx:139-147 | renaming back restores the attributes when the new key was not in use |
| Templates.RemoveKey | components/BibleManager.tsx:178 | removing a key is the `filter` that keeps exactly the attributes with other keys, in order, and none with that key |
| Templates.KeyCountSplit | components/BibleManager.tsx:178 | the attributes with and without a key together account for the whole list |
| Templates.RemoveAbsentKey | components/BibleManager.tsx:178 | removing a key that no attribute carries changes nothing |
| Templates.RenameField | components/BibleManager.tsx:134 | only the fields with the id get the new key; ids and order are kept |
| Templates.RemoveField | components/BibleManager.tsx:169 | removing a field is the `filter` that keeps, in template order, exactly the fields with another id |
| Templates.EditClasses | components/BibleManager.tsx:132-136 | the template edit applies to every class with the id; other classes are unchanged |
| Templates.MergeTemplate | components/BibleManager.tsx:362-365 | the merge never shrinks the list and the id counter never goes back |
| Templates.MergeKeepsExisting | components/BibleManager.tsx:362-365 | the existing attributes stay unchanged, in place and in order |
| Templates.MergeCoversTemplate | components/BibleManager.tsx:362-365 | after the merge every template key is present |
| Templates.MergeAddsOnlyMissing | components/BibleManager.tsx:362-365 | each added attribute is empty, carries a key that was missing before, and has a fresh id from the supply; no key is added twice |
| Templates.MergeOfCovered | components/BibleManager.tsx:364 | when every template key is present, the merge is the identity |
| Templates.MergeIdempotent | components/BibleManager.tsx:362-365 | merging the same template a second time adds nothing and draws no id |
| Templates.MergeTemplateInto | components/BibleManager.tsx:362-365 | the copy-then-push loop computes exactly the merge |
| World.AddWorldClass | components/BibleManager.tsx:66-74 | appends one empty class with a fresh id and the default name; nothing else changes |
| World.MoveWorldClass | components/BibleManager.tsx:76-81 | the class list is `moveItemInArray` over itself as its own view: unchanged or two classes swapped; a permutation; nothing else changes |
| World.MoveWorldClassSwapsNeighbour | components/BibleManager.tsx:76-81 | with distinct class ids, a move that is not at the end exchanges the class with its direct neighbour |
| World.MoveWorldClassRoundTrip | components/BibleManager.tsx:76-81 | with distinct ids, moving a class that is not first up and then down restores the document |
| World.UpdateWorldClass | components/BibleManager.tsx:83-88 | exactly the classes with the id are patched; nothing else changes |
| World.DeleteWorldClass | components/BibleManager.tsx:90-114 | a declined dialog changes nothing; on confirmation the class and exactly the items bound to it are removed, and the item count drops by the class's item count |
| World.DeleteWorldClassExact | components/BibleManager.tsx:94-109 | after a confirmed delete, an item or a class survives exactly when it is not bound to the class |
| World.AddWorldTemplateField | components/BibleManager.tsx:116-121 | appends a "New Field" slot with a fresh id to the class's template; items are untouched |
| World.UpdateWorldTemplateField | components/BibleManager.tsx:123-151 | a missing class changes nothing; otherwise the field with the id is renamed in that class; when the old key is non-empty, each attribute with the old key is renamed in every item of the class; other classes and items are unchanged |
| World.RenamedClassFound | components/BibleManager.tsx:123-151 | after a rename the class is still found, and the field carries the new key |
| World.ClearedKeyStrandsItems | components/BibleManager.tsx:123-151 | clearing a non-empty field key to "" and then retyping the old key leaves the items as the clearing left them: each item of the class keeps "" in place of the old key and no longer has the old key |
| Templates.RenameFieldKey | components/BibleManager.tsx:128-136 | after a rename, looking the field up by id gives the new key |
| World.RenameFieldRoundTrip | components/BibleManager.tsx:132-136 | with unique field ids, renaming a field back restores the template |
| World.RenameWorldFieldRoundTrip | components/BibleManager.tsx:123-151 | renaming a field from a non-empty key to a non-empty key and renaming it back restores the whole document when the ids are unique and the new key was unused in the class's items |
| World.RenameBackClasses | components/BibleManager.tsx:125-136 | renaming a field and renaming it back restores the class list |
| World.RenameBackItems | components/BibleManager.tsx:128-149 | renaming a field from a non-empty key to a non-empty key and renaming it back restores every item, given the new key was unused in the class's items |
| World.DeleteWorldTemplateField | components/BibleManager.tsx:153-186 | a missing class or a declined dialog changes nothing; otherwise the field leaves the template, and, when its key is non-empty, every attribute with its key leaves every item of the class; other classes and items are unchanged |
| World.DeleteWorldFieldPropagates | components/BibleManager.tsx:175-183 | when the field's key is non-empty, in an item of the class the key is gone and every other attribute is kept; items of other classes are unchanged |
| World.AddWorldItem | components/BibleManager.tsx:188-202 | prepends an item bound to the class with one empty attribute per template field, in field order; the attribute list is empty when the class is missing; the attributes are the template's instantiation at the seed, so the item's id is drawn after the attribute ids |
| World.NewWorldItemIdsFresh | components/BibleManager.tsx:188-202 | the new item's attribute ids are pairwise distinct and none equals the item's id |
| World.MoveWorldItem | components/BibleManager.tsx:204-212 | moving within the class's filtered view keeps every item (a permutation); nothing else changes |
| World.MoveWorldItemKeepsOthers | components/BibleManager.tsx:204-212 | with unique item ids, every item of another class keeps its position |
| World.UpdateWorldItem | components/BibleManager.tsx:214-219 | exactly the items with the id are patched; nothing else changes |
| World.DeleteWorldItem | components/BibleManager.tsx:221-228 | a declined dialog changes nothing; otherwise the item list is the order-keeping filter that removes exactly the items with the id |
| World.UpdateItemAttribute | components/BibleManager.tsx:230-242 | a missing item changes nothing; otherwise every item with the id receives the first such item's attributes with the value set on the attribute with the id; all else is unchanged |
| Timeline.InsertByOrder | components/BibleManager.tsx:261 | inserting into a sorted list gives a sorted permutation with one more element |
| Timeline.SortByOrder | components/BibleManager.tsx:261 | the sort gives a permutation of its input, sorted by `order` |
| Timeline.SortOfSorted | components/BibleManager.tsx:261 | sorting an already sorted list leaves it as it was |
| Timeline.InsertKeepsRanks | components/BibleManager.tsx:261 | insertion puts the new event in front of the events of its own `order` |
| Timeline.SortStable | components/BibleManager.tsx:261 | the sort is stable: the events of each `order` keep their relative order |
| Timeline.SortedUnique | components/BibleManager.tsx:261 | with distinct orders, a sorted arrangement of the elements is unique |
| Timeline.TailsPermutation | components/BibleManager.tsx:261 | two permutations with equal first elements have permuted tails |
| Timeline.Siblings | components/BibleManager.tsx:261 | the sibling view is the scope's nodes sorted by `order` |
| Timeline.SiblingsFromTimeline | components/BibleManager.tsx:261 | every sibling is a node of the timeline that lies in that scope |
| Timeline.SiblingsStrict | components/BibleManager.tsx:261 | with distinct orders in the scope, the view is strictly sorted |
| Timeline.SiblingIdsDistinct | components/BibleManager.tsx:261-262 | with unique ids in the timeline, the ids in the view are unique |
| Timeline.AddTimelineEvent | components/BibleManager.tsx:245-257 | appends a node with a fresh id, the level's default title, the given parent, and `order` equal to the number of nodes already in that scope; nothing else changes |
| Timeline.AddKeepsOrdersDense | components/BibleManager.tsx:253 | when a scope's orders are exactly 0..n-1, adding keeps them exactly 0..n |
| Timeline.AddLeavesOtherScopes | components/BibleManager.tsx:245-257 | adding to one scope leaves every other scope exactly as it was |
| Timeline.SiblingMove | components/BibleManager.tsx:262-267 | the move is a no-op when the node is not in the view or is at the end it moves towards; otherwise it pairs the node with its neighbour |
| Timeline.MoveTimelineEvent | components/BibleManager.tsx:259-284 | the no-op cases return the document unchanged; otherwise the node and its neighbour exchange `order`; positions in the list and every other field stay as they were |
| Timeline.ExchangeOrders | components/BibleManager.tsx:272-281 | only the two nodes' orders change; ids, parents and positions are kept |
| Timeline.FilterRetimed | components/BibleManager.tsx:261-281 | exchanging orders commutes with taking a scope |
| Timeline.SwapView | components/BibleManager.tsx:268-274 | the exchanged view is the view with the two nodes swapped, each taking the order of its new position |
| Timeline.RetimedView | components/BibleManager.tsx:272-281 | exchanging orders in a view with unique ids rewrites exactly the two nodes |
| Timeline.ExchangedViewPermutation | components/BibleManager.tsx:261-281 | the exchanged view holds exactly the scope's nodes after the exchange |
| Timeline.SiblingsAfterExchange | components/BibleManager.tsx:259-284 | after the exchange, the sorted sibling view is the exchanged view |
| Timeline.SwapViewStrict | components/BibleManager.tsx:268-281 | exchanging two nodes of a strictly ordered view, each taking the order of its new position, keeps the view strictly ordered |
| Timeline.OppositeMoveInView | components/BibleManager.tsx:259-284 | in the exchanged view, the opposite move pairs the same two positions |
| Timeline.ExchangeBack | components/BibleManager.tsx:272-281 | exchanging the two orders back restores the timeline |
| Timeline.MoveThenBackRestores | components/BibleManager.tsx:259-284 | with unique ids and distinct sibling orders, a feasible move (a sibling exists in that direction) followed by the opposite move of the same node restores the document |
| Timeline.MoveArcUpExample | components/BibleManager.tsx:259-284 | two arcs at orders 0 and 1 under a saga: moving the second up gives it order 0 and lists it first |
| Timeline.MoveSecondUp | components/BibleManager.tsx:259-284 | of two siblings, moving the later one up exchanges their orders and puts it first in the sorted view |
| Timeline.MoveSecondUpOrders | components/BibleManager.tsx:259-284 | of a three-event timeline whose last two are siblings, moving the last one up exchanges exactly the orders of those two and leaves the first event alone |
| Timeline.SecondUpPlan | components/BibleManager.tsx:259-267 | of two siblings in order, the later one sits at view position 1 and moving it up pairs positions 1 and 0 |
| Timeline.PairSiblings | components/BibleManager.tsx:261 | the sorted view of a two-node scope |
| Timeline.PairScope | components/BibleManager.tsx:261 | the scope filter picks exactly the two nodes under the parent |
| Timeline.SortTwo | components/BibleManager.tsx:261 | the sort orders two nodes by `order`, keeping ties in input order |
| Timeline.Opposite | components/BibleManager.tsx:259 | the opposite of a direction is the other direction |
| Timeline.UpdateTimelineEvent | components/BibleManager.tsx:286-291 | exactly the nodes with the id are patched; nothing else changes |
| Timeline.SubtreeIsLeastClosed | components/BibleManager.tsx:293-312 | the subtree holds the node, is closed under "child of", and lies inside every child-closed set holding the node |
| Timeline.MarkChildren | components/BibleManager.tsx:300-308 | one pass only grows the set and only by timeline ids; `changed` reports growth; a pass without growth finds the set child-closed; it never leaves a child-closed superset |
| Timeline.DeleteTimelineEvent | components/BibleManager.tsx:293-312 | a declined dialog changes nothing; otherwise the loop ends and removes exactly the nodes in the subtree of the node |
| Timeline.FewerLeft | components/BibleManager.tsx:298-309 | strict growth inside a bound decreases the bound's remainder, which is why the loop ends |
| Timeline.FixedPointIsSubtree | components/BibleManager.tsx:298-309 | the loop's fixed point is the subtree |
| Timeline.DeleteLeavesNoOrphans | components/BibleManager.tsx:310 | the kept nodes are exactly the nodes outside the subtree, and none of them hangs under a deleted node |
| Characters.NewCharacter | components/BibleManager.tsx:315-334 | a new character has default name and role and empty text; it joins the category, if any, with one empty attribute per template field; its id is drawn after the attribute ids |
| Characters.AddCharacter | components/BibleManager.tsx:315-334 | appends a new character of the first category, or of none when there are no categories; nothing else changes |
| Characters.NewCharacterIdsFresh | components/BibleManager.tsx:318-320 | the new character's attribute ids are pairwise distinct and differ from its own id |
| Characters.MoveCharacter | components/BibleManager.tsx:336-341 | the roster is unchanged or has two characters swapped; a permutation; nothing else changes |
| Characters.MoveCharacterRoundTrip | components/BibleManager.tsx:336-341 | with distinct ids, moving a character that is not last down and back up restores the document |
| Characters.UpdateCharacter | components/BibleManager.tsx:343-348 | exactly the characters with the id are patched; nothing else changes |
| Characters.DeleteCharacter | components/BibleManager.tsx:350-354 | a declined dialog changes nothing; otherwise the roster is the order-keeping filter that removes exactly the characters with the id |
| Characters.CategoryChanged | components/BibleManager.tsx:356-372 | a missing character or category changes nothing and draws no id; otherwise every character with the id keeps all its other fields and gets the category and the first such character's attributes merged with the template, every other character is unchanged, and the counter is the merge's; only the roster changes |
| Characters.ChangeCharacterCategory | components/BibleManager.tsx:356-372 | the loop computes exactly the category switch |
| Characters.CategoryChangePreserves | components/BibleManager.tsx:356-372 | a missing character or category changes nothing. Otherwise the character joins the category and keeps its attributes in order and with their values; every template key becomes present and the added attributes are empty; one id is drawn per added attribute; the switched character keeps every other field; other characters are unchanged |
| Characters.CategoryChangeIdempotent | components/BibleManager.tsx:356-372 | switching to the category the character was just switched to changes nothing and draws no id |
| Characters.UpdateCharAttr | components/BibleManager.tsx:374-386 | a missing character changes nothing; otherwise every character with the id receives the first one's attributes with the one value set |
| Characters.AddCharClass | components/BibleManager.tsx:389-391 | appends an empty "New Class" category with a fresh id; nothing else changes |
| Characters.MoveCharClass | components/BibleManager.tsx:393-398 | the category list is unchanged or has two categories swapped; a permutation |
| Characters.UpdateCharClass | components/BibleManager.tsx:400-405 | exactly the categories with the id are patched; nothing else changes |
| Characters.DeleteCharClass | components/BibleManager.tsx:407-426 | a category with members asks, and on confirmation removes the category and exactly its members; an empty one is removed without asking |
| Characters.DeleteCharClassLeavesNoOrphans | components/BibleManager.tsx:407-426 | unless declined, no character points at the deleted category and no character of another category is lost |
| Characters.AddCharTemplate | components/BibleManager.tsx:428-433 | appends a "Stat" field with a fresh id to the category's template; characters are untouched |
| Characters.UpdateCharTemplate | components/BibleManager.tsx:435-461 | a missing category changes nothing; otherwise the field with the id is renamed in that category; when the old key is non-empty, the attribute is renamed in every character of the category; all else is unchanged |
| Characters.RenamedCategoryFound | components/BibleManager.tsx:435-461 | after a rename the category is still found, and the field carries the new key |
| Characters.ClearedKeyStrandsCharacters | components/BibleManager.tsx:435-461 | clearing a non-empty field key to "" and then retyping the old key leaves the characters as the clearing left them: each character of the category keeps "" in place of the old key and no longer has the old key |
| Characters.CharRenamePropagates | components/BibleManager.tsx:449-458 | after a rename from a non-empty key to a different key, no character of the category keeps the old key, and each one that had it now has the new key |
| Characters.DeleteCharTemplate | components/BibleManager.tsx:463-493 | a missing category or a declined dialog changes nothing; otherwise the field leaves the template and, when its key is non-empty, its key leaves every character of the category; all else is unchanged |
| Characters.DeleteUnusedCharField | components/BibleManager.tsx:463-493 | deleting a field whose key no character of the category carries leaves every character as it was |
| ToolBridge.ResolveCategory | components/ChatAssistant.tsx:79-86 | the result is none exactly when there are no categories; otherwise it is the first category whose lower-cased name contains the lower-cased hint, or the first category when none matches |
| ToolBridge.MissingHintPicksFirst | components/ChatAssistant.tsx:79-86 | a missing hint resolves to the first category |
| ToolBridge.ResolveCaseInsensitive | components/ChatAssistant.tsx:80-81 | for every category list, a hint resolves exactly as its lower-cased form does |
| ToolBridge.ResolveIgnoresCase | components/ChatAssistant.tsx:80-81 | resolution ignores case: "HUMAN" finds "Human" even after "Elf" |
| ToolBridge.Given | components/ChatAssistant.tsx:53-63 | only a truthy argument enters the update |
| ToolBridge.UpdateStoryMetadata | components/ChatAssistant.tsx:51-69 | only the truthy title, genre and tone are merged. With none, the status is "No changes made to metadata." and the document is unchanged. Otherwise the status is the success text, and every other field is unchanged |
| ToolBridge.MetadataUpdateIdempotent | components/ChatAssistant.tsx:51-69 | repeating a metadata update changes nothing more |
| ToolBridge.AgentCharacter | components/ChatAssistant.tsx:86-104 | name defaults to "Unnamed", role to "Unknown", text fields to ""; the character joins the resolved category with one empty attribute per template field; its id is drawn after the attribute ids |
| ToolBridge.CreateCharacter | components/ChatAssistant.tsx:72-105 | a name already on the snapshot's roster (compared case-insensitively) gives the "FAILED:" status and leaves document and seed unchanged; otherwise the character is appended and the status names it |
| ToolBridge.CreateCharacterThenConflict | components/ChatAssistant.tsx:75-77 | once a created character is on the snapshot, creating the same name again is refused and changes nothing |
| ToolBridge.BatchCreatesDuplicate | components/ChatAssistant.tsx:75-102 | two creates in one batch that read the same snapshot both succeed, adding two characters with the same name and distinct ids |
| ToolBridge.CreateWorldItem | components/ChatAssistant.tsx:107-134 | a name conflict gives "FAILED:" and no change. Otherwise an item is prepended: bound to the first class whose name contains the hint, with that class's template; with no match it falls back to the first class's id and an empty template, or no class when there are none. The status names the class shown, "Default" when none |
| ToolBridge.UnmatchedClassHasNoAttributes | components/ChatAssistant.tsx:115-121 | an unmatched class hint gives the first class's id and no attributes |
| ToolBridge.ResolveParent | components/ChatAssistant.tsx:143-147 | a truthy hint gives the id of the first snapshot event whose title contains it; a missing hint or no match gives none |
| ToolBridge.CreateTimelineEvent | components/ChatAssistant.tsx:136-161 | a duplicate title gives "FAILED:" and no change. Otherwise an event is appended with the given or default level (Episode), the resolved parent, and `order` equal to the snapshot's timeline length |
| ToolBridge.BatchEventsShareOrder | components/ChatAssistant.tsx:136-161 | two events created in one batch get the same order |
| ToolBridge.UpdateMarking | components/ChatAssistant.tsx:166-171 | the map-with-flag gives the conditional map, and the flag is raised exactly when some element matched |
| ToolBridge.CharactersEdited | components/ChatAssistant.tsx:166-175 | each character whose lower-cased name equals the target gets each non-empty edited field; other fields and other characters are unchanged |
| ToolBridge.UpdateCharacter | components/ChatAssistant.tsx:164-190 | the roster after the edit; the success status when something matched; otherwise "Error: Character '...' not found." and no change |
| ToolBridge.CharacterEditIdempotent | components/ChatAssistant.tsx:164-190 | repeating a character update changes nothing more |
| ToolBridge.ItemsEdited | components/ChatAssistant.tsx:194-201 | each item whose lower-cased name equals the target gets the non-empty new name and description; everything else is unchanged |
| ToolBridge.UpdateWorldItem | components/ChatAssistant.tsx:192-214 | the items after the edit; the success status when something matched; otherwise "Error: Item '...' not found." and no change |
| ToolBridge.EventsEdited | components/ChatAssistant.tsx:218-225 | each event whose lower-cased title equals the target gets the non-empty new title and description; levels, parents, orders and other events are kept |
| ToolBridge.UpdateTimelineEvent | components/ChatAssistant.tsx:216-238 | the timeline after the edit; the success status when something matched; otherwise "Error: Event '...' not found." and no change |
| ToolBridge.EventEditKeepsForest | components/ChatAssistant.tsx:216-238 | an event update keeps every id, level, parent and order, so the forest shape is unchanged |
| Storage.EntryItems | services/storage.ts:83-93 | one item per entry, in order, bound to the new class; it keeps a truthy entry id, else draws a fresh one; it keeps name, description and attributes (default empty) |
| Storage.CategoryClasses | services/storage.ts:73-94 | one class per category with its name and an empty template, and one item per entry, each bound to one of the new classes; none exactly when some category's entries cannot be iterated |
| Storage.MadeFromPointwise | services/storage.ts:84-92 | items are made from entries, in order, exactly when each item at a position is made from the entry at that position |
| Storage.SomeNotIterableSnoc | services/storage.ts:73-94 | some category of a list cannot be iterated exactly when one of the earlier ones cannot or the last one cannot |
| Storage.AddCategory | services/storage.ts:74-93 | one category step appends one class drawn at the next counter, with the category's name and an empty template, then the items made from its entries, all bound to that class; it fails exactly when the entries cannot be iterated |
| Storage.AddCategoryExtends | services/storage.ts:73-94 | a step on the last category extends a result for the others to a result for the whole list |
| Storage.AddCategoryNames | services/storage.ts:76-80 | after a step, class k carries category k's name and an empty template |
| Storage.AddCategoryItemsBelong | services/storage.ts:83-93 | after a step, every item is bound to one of the classes, and the counter has not gone back |
| Storage.LastCategoryAdds | services/storage.ts:73-94 | the migration of a list is the migration of all but its last category followed by one step on the last |
| Storage.CategoryClassRange | services/storage.ts:74 | every new class id is drawn from a counter between the seed and the counter the migration leaves |
| Storage.CategoryClassIds | services/storage.ts:74-80 | every new class id is drawn from the counters the migration used, so no two new classes share an id |
| Storage.NoneBound | services/storage.ts:83-93 | filtering by a class nobody is bound to gives no items |
| Storage.OtherClassAppended | services/storage.ts:83-93 | pushing items of another class leaves a class's items as they were |
| Storage.NewClassAppended | services/storage.ts:83-93 | pushing the only items of a new class makes them exactly that class's items |
| Storage.CategoryItemsBound | services/storage.ts:73-94 | each new class holds exactly the items made from its own category's entries, in order, with their name, description, attributes (default empty) and truthy id |
| Storage.AddCategoryKeeps | services/storage.ts:83-93 | a step leaves every earlier class, and the items bound to it, as they were |
| Storage.AddCategoryBinds | services/storage.ts:74-93 | the class a step adds holds exactly the items made from the category's entries, in order |
| Storage.AddCategoryBound | services/storage.ts:73-94 | a step keeps every class bound to exactly its own category's entries |
| Storage.NewClassBound | services/storage.ts:83-93 | items pushed for a class drawn at a fresh counter are exactly that class's items |
| Storage.WorldMigrationBindsEntries | services/storage.ts:69-96 | a world migration produces one class per category, with pairwise distinct ids, each holding exactly the items made from that category's entries |
| Storage.CategoryFailureExtends | services/storage.ts:83-93 | a category whose entries cannot be iterated makes the whole migration fail |
| Storage.MigrateWorld | services/storage.ts:69-96 | fires only when legacy categories are non-empty and world classes are missing or empty; then classes and items are replaced by the migrated ones and the legacy field is removed; otherwise the document is unchanged |
| Storage.PlotArcs | services/storage.ts:109-120 | one Arc per plot with its title and description, under the saga, with `order` the plot's index; a truthy plot id is kept |
| Storage.MigratePlots | services/storage.ts:99-122 | fires only when plots are non-empty and the timeline is missing or empty; then the timeline is the "Main Saga" root at order 0 followed by the arcs, and the legacy field is removed; non-iterable plots make the load fail |
| Storage.ArrayOr | services/storage.ts:125-128 | a non-array value is replaced by the fallback |
| Storage.RepairCharacter | services/storage.ts:133-138 | falsy personality, appearance and dialogue examples become ""; every other field is kept |
| Storage.RepairCharacters | services/storage.ts:131-140 | a non-array roster becomes empty; otherwise characters are repaired one by one and the count is kept |
| Storage.Repair | services/storage.ts:125-148 | a non-array world classes or categories list becomes the default; other non-array collections become empty; falsy metadata becomes the default strings |
| Storage.Load | services/storage.ts:59-155 | no data, unparseable text, a non-object, a failing world migration or a failing plot migration give the default document with the seed untouched; the counter never goes backwards |
| Storage.PushEntryItems | services/storage.ts:83-93 | the inner push loop appends exactly the entry items |
| Storage.EntryItemsSnoc | services/storage.ts:83-93 | one more entry appends exactly one item, keeping a truthy entry id and otherwise drawing the next generated id |
| Storage.PushCategoryClasses | services/storage.ts:73-94 | the outer push loop computes the category migration, or reports the failure |
| Storage.PushPlotArcs | services/storage.ts:109-120 | the push loop appends exactly the plot arcs |
| Storage.LoadBible | services/storage.ts:59-155 | the step-by-step in-place load gives exactly `Load` |
| Storage.SavedLoadsBack | services/storage.ts:59-155 | a settled document that is saved and loaded back is unchanged, and no id is drawn |
| Storage.LoadedIsSettled | services/storage.ts:69-148 | what a load returns is settled, unless legacy plots sat beside a present non-array timeline |
| Storage.LoadSaveLoad | services/storage.ts:59-155 | loading a saved load returns the same document, unless legacy plots sat beside a present non-array timeline (then see Storage.CorruptTimelineDefersPlots) |
| Storage.CorruptTimelineDefersPlots | services/storage.ts:99-127 | plots beside a non-array timeline survive the first load and become a saga with one arc on the next |
| Storage.DefaultReloads | services/storage.ts:8-57 | the default document, once saved, loads back unchanged |

## Left out

- Rendering: the JSX of the editor, the chat panels, the app shell and the sidebar.
- The model client in services/gemini.ts. This covers the network requests, the prompts, the tool declarations, and the dispatch from tool name to executor. The executors are reached directly here.
- The chat transport: `handleSend`, components/RoleplayChat.tsx, the busy flag, and chat-history appends with clock-based ids.
- Browser storage and files. Reading and writing the storage slot, auto-save, export and import are left out. `saveBible` appears only as `Storage.Saved`, the document as it reads back. `resetBible` appears only as `Storage.DefaultReloads`.
- JSON parsing. A stored text is already classified as absent, unparseable, not an object, or a parsed object. The model classifies a parsed top-level array as "not an object" and loads the default document. The source does not throw there: the migrations find no legacy fields on an array, the integrity pass writes the repaired fields onto the array as named properties, and that array is returned (storage.ts:69-150); the session then sees the default lists, title, genre and tone, but a save serialises only the array's elements and writes `[]`.
- Objects with a numeric `length` key in a list field. `RawList` cannot represent them. For `worldCategories: {"length": 1}` beside empty world classes, the source starts the migration, `forEach` throws, and the load returns the default document; the model's `Opaque` value instead skips the migration and is repaired.
- Randomness of `generateId`. Ids come from a counter. The source's random ids are only probably unique. In the model, distinct counters give distinct ids; freshness against ids already in the document is not modelled: the handlers return no next counter, legacy ids survive a load verbatim, and `Load(stored, 0)` may draw an id the default document already uses.
- Case folding beyond ASCII: `toLowerCase` maps only A-Z.
- React's deferred updaters: updaters run at once. So the `found` flag of the update executors is reported after the map has run.
- `setLastAction`, `console.log`, `alert`, selection state (for example resetting the selected class), and the dialog texts.
- The `worldRules` field, which no modelled operation touches.
- Malformed entries inside arrays: `null` elements, and elements missing fields the handlers read (for example an absent name or title). The source would throw or render "undefined" on them.
- Tool arguments of other JSON types: each argument is either an absent value or a string. A `type` outside the schema's Saga/Arc/Episode is not representable.
- A missing target argument for the update executors. The tool schema requires it, and the source would throw on `undefined.toLowerCase()`.
- Sharing of the default document's arrays between loads, and any other aliasing. The model works on values.
- Storage.LoadedIsSettled: is stated only for documents whose legacy plots, when present, do not sit beside a present non-array timeline. In that case the source migrates the plots on the following load (`Storage.CorruptTimelineDefersPlots`).
