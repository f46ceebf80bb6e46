# SmartShop shopping list — a Dafny model

SmartShop is a single-page shopping-list app. The user types an item name and a
quantity. An AI service picks one of nine aisle categories for the item. The list
is shown grouped by aisle, and items can be ticked, re-quantified and deleted.
Every third item asks the service for "often bought together" suggestions, which
can be added with one click. The list can be shared as formatted text (clipboard,
WhatsApp, SMS) or exported as a PDF.

The model covers:

- `App` (app.dfy): the component state as a class. Each handler is a method, and
  the new lists come from the pure functions of `ItemStore` (itemstore.dfy).
- the two service calls, reduced to what the code sends and what it makes of the
  answer (gemini.dfy).
- the grouping `reduce` shared by the share panel and the list view, with
  JavaScript's own rules for plain objects and `Object.entries` (grouping.dfy).
- the text export, the PDF page layout and the panel's two flags (sendpanel.dfy).
- the list view: empty state, default `.sort()` of the entries, and the rows with
  their controls (itemlist.dfy).

JavaScript built-ins the code relies on are modelled in js.dfy. These are
`String.prototype.trim`, ASCII `toUpperCase`, string `<`, array-index property
keys, the inherited `Object.prototype` names, a thrown `TypeError`, and
`Number.prototype.toString`. Generic sequence facts are in seqs.dfy.

Two behaviours of the code shape the model:

- The reduce starts from `{}`, which inherits `Object.prototype`. A category such
  as `"toString"` or `"constructor"` finds an inherited value where an array is
  expected, so `push` throws. The text export, the PDF export and the list view
  then end in a `TypeError`; the model shows that outcome. Categories that come
  from `categorizeItem` are always aisle labels, and they never throw
  (`Grouping.LabelsNeverThrow`). Suggestion categories come straight out of
  `JSON.parse` unchecked, so one of them can.
- `Object.entries` lists keys that are array indices (`"0"`, `"42"`) first, in
  ascending numeric order. All other keys follow in creation order. For this list,
  creation order is the order in which each category first occurs.

Two further behaviours of the code:

- A new item is not added with a "pending" placeholder category that is patched
  later. `handleAddItem` awaits `categorizeItem` and appends the item only once
  the category is known. The `'Categorizing...'` checks in ItemList.tsx therefore
  never match an item added from the form. An item quick-added from a
  suggestion can still carry that category, because suggestion categories are
  not checked. The checks are modelled as the `pending` flags of sections and
  rows.
- Only the list view sorts the categories (the default `.sort()`). The text and
  PDF exports list them in `Object.entries` order, which is creation order for
  aisle labels.

## Model

| member | source | states |
|---|---|---|
| Types.ShoppingItem | types.ts:2-8 | a list item: id, name, quantity and category as strings, and the completed flag; the category may be any string |
| Types.AisleCategory | types.ts:10-20 | the nine aisles, in declaration order |
| Types.SmartSuggestion | types.ts:22-25 | a proposed item: a name and a category, the category held as any string |
| Types.Label | types.ts:11-19 | the string value of each member |
| Types.Labels | types.ts:10-20 | `Object.values(AisleCategory)`: the value of each member, in declaration order |
| Types.LabelsDistinct | types.ts:10-20 | `Object.values(AisleCategory)` has nine values, no two alike |
| Types.CategoriesAreTheNineMembers | types.ts:10-20 | the enumeration has exactly nine members, each listed once |
| Types.LabelInjective | types.ts:10-20 | no two members share a string value |
| Types.FromLabel | services/geminiService.ts:16 | the `includes` test: a member is found exactly when the string is some member's value, and that member has this value |
| Types.FromLabelInvertsLabel | services/geminiService.ts:16 | every member is recovered from its own value |
| Js.Trim | App.tsx:38 | the result occurs in the input between a blank prefix and a blank suffix; it neither starts nor ends with a blank; it is empty exactly when the input is all blank |
| Js.TrimIdempotent | App.tsx:46 | trimming twice is trimming once |
| Js.TrimSurrounded | services/geminiService.ts:15 | blank padding around a text that neither begins nor ends with a blank is removed, leaving that text |
| Js.ToUpperCase | components/SendPanel.tsx:28 | same length; each ASCII letter a-z becomes its capital A-Z, and every other character is kept |
| Js.Less | components/ItemList.tsx:45 | the order the default comparator applies to the entry strings: a proper prefix is smaller, otherwise the first differing character decides |
| Js.LessIrreflexive | components/ItemList.tsx:45 | the order used by the default sort is irreflexive |
| Js.LessTransitive | components/ItemList.tsx:45 | the order is transitive |
| Js.LessTotal | components/ItemList.tsx:45 | two different strings are ordered one way or the other |
| Js.LessAsymmetric | components/ItemList.tsx:45 | the order is asymmetric |
| Js.LessIgnoresSuffix | components/ItemList.tsx:45 | when neither string is a prefix of the other, appending anything leaves their order unchanged |
| Js.Decimal | components/SendPanel.tsx:92 | the decimal digits of `getTime()`: non-empty, no leading zero, and their value is the number |
| Gemini.CategorizePrompt | services/geminiService.ts:12 | the categorization prompt: the fixed instruction, the aisle values joined by ", ", then the item name |
| Gemini.CategorizePromptListsEveryAisle | services/geminiService.ts:12 | the categorization prompt names every aisle and ends with the item name |
| Gemini.CategorizeItem | services/geminiService.ts:8-21 | a member exactly when the reply resolved with a text whose trimmed form is a member's value (then that member); Other after a rejection, an undefined text or any other text |
| Gemini.CategorizeItemAcceptsPaddedLabel | services/geminiService.ts:15-16 | a reply naming a member, whatever blank padding surrounds it, yields that member |
| Gemini.SuggestionPrompt | services/geminiService.ts:27 | every current item name occurs in the suggestion prompt |
| Gemini.SmartSuggestions | services/geminiService.ts:47-50 | no suggestions after a rejection or for an undefined or empty text (parsed as "[]"); otherwise what `JSON.parse` returns, or none when it throws |
| ItemStore.DefaultQuantity | App.tsx:47 | an empty field gives "1"; a typed quantity is kept as typed |
| ItemStore.FormItem | App.tsx:38-50 | no item exactly when the name trims to nothing; otherwise the given id, the trimmed name, the defaulted quantity, the category's value, not completed |
| ItemStore.FormItemIsClean | App.tsx:46 | an added item's name is non-empty and trimming it would change nothing, and its category is an aisle label |
| ItemStore.SuggestedItem | App.tsx:59-65 | the given id, name and category, quantity "1", not completed |
| ItemStore.WithoutSuggestion | App.tsx:67 | keeps, in order and with their multiplicities, exactly the suggestions with another name |
| ItemStore.WithoutSuggestionIdempotent | App.tsx:67 | removing the same name twice is removing it once |
| ItemStore.RemoveItem | App.tsx:70-72 | keeps, in order and with their multiplicities, exactly the items with another id; an absent id changes nothing |
| ItemStore.RemoveUniqueItem | App.tsx:70-72 | with unique ids, deleting an item's id removes just that position |
| ItemStore.AppendFreshKeepsIdsUnique | App.tsx:52 | appending an item with a fresh id keeps the ids unique |
| ItemStore.ToggleItem | App.tsx:74-78 | same length and order; every field except `completed` kept; `completed` flipped exactly where the id matches |
| ItemStore.ToggleTwiceRestores | App.tsx:74-78 | toggling the same id twice restores the list |
| ItemStore.UpdateQuantity | App.tsx:80-84 | same length and order; the typed quantity where the id matches, every other field and item unchanged |
| ItemStore.UpdateQuantityLastWins | App.tsx:80-84 | two edits of one quantity leave the second |
| ItemStore.CompletedCount | App.tsx:101 | at most the list length, and zero exactly when no item is completed |
| ItemStore.ClearCompleted | App.tsx:86-88 | keeps, in order and with their multiplicities, exactly the uncompleted items |
| ItemStore.ClearCompletedIdempotent | App.tsx:86-88 | clearing twice is clearing once |
| ItemStore.ClearCompletedRemovesCompletedCount | App.tsx:86-101 | clearing removes exactly completedCount items and leaves none completed |
| ItemStore.ShouldFetchSuggestions | App.tsx:91 | the effect's condition: the length is positive and a multiple of 3 |
| ItemStore.FetchesEveryThirdItem | App.tsx:91 | growing a list from empty to n items triggers n / 3 suggestion fetches |
| ItemStore.DecodeTheme | App.tsx:10-13 | dark when nothing or "" is stored, otherwise dark exactly when "dark" is stored |
| ItemStore.EncodeTheme | App.tsx:27 | a non-empty stored value |
| ItemStore.ThemeRoundTrip | App.tsx:10-27 | the stored theme reads back as the theme |
| ItemStore.DecodeTargetNumber | App.tsx:15-17 | the default "897164272" when nothing or "" is stored; otherwise the stored text |
| ItemStore.TargetNumberRoundTrip | App.tsx:15-33 | a stored number reads back as it was, an empty one as the default "897164272" |
| ShoppingApp.App.constructor | App.tsx:10-23 | the first render: stored theme and number decoded, empty list and suggestions, name "" and quantity "1" |
| ShoppingApp.App.StoredTheme | App.tsx:27 | what the theme effect stores reads back as the current theme |
| ShoppingApp.App.Completed | App.tsx:101 | completedCount never exceeds the list length |
| ShoppingApp.App.ToggleTheme | App.tsx:108 | the theme flips and nothing else changes |
| ShoppingApp.App.SetTargetNumber | App.tsx:15 | the state setter `setTargetNumber`, which App.tsx:231 hands to the send panel: the number is replaced and nothing else changes |
| ShoppingApp.App.SetInputs | App.tsx:20-21 | the two fields are replaced and nothing else changes |
| ShoppingApp.App.HandleAddItem | App.tsx:36-56 | a blank name changes nothing and calls nothing; otherwise the untrimmed name goes to the categorizer, exactly one item built from the fields and the answer is appended, the fields reset to "" and "1", and isAdding ends false |
| ShoppingApp.App.HandleQuickAdd | App.tsx:58-68 | the suggested item is appended and every suggestion of that name dropped |
| ShoppingApp.App.RemoveItem | App.tsx:70-72 | the list becomes `ItemStore.RemoveItem` of it; nothing else changes |
| ShoppingApp.App.ToggleItem | App.tsx:74-78 | the list becomes `ItemStore.ToggleItem` of it; nothing else changes |
| ShoppingApp.App.UpdateQuantity | App.tsx:80-84 | the list becomes `ItemStore.UpdateQuantity` of it; nothing else changes |
| ShoppingApp.App.ClearCompleted | App.tsx:86-88 | the completed items go, and the list shrinks by completedCount |
| ShoppingApp.App.RunSuggestionEffect | App.tsx:90-99 | runs only when the length changed since its last run; then fetches, sending every item name, and replaces the suggestions, exactly when the length is a positive multiple of 3; otherwise nothing is sent and nothing changes |
| ShoppingApp.Names | App.tsx:93 | the item names, position by position |
| Grouping.Members | components/SendPanel.tsx:21-25 | the bucket `acc[k]` after the reduce: the items of category `k`, in list order |
| Grouping.Accumulated | components/SendPanel.tsx:21-25 | the accumulator after the first `n` items: one entry per key seen so far, in creation order, each holding the items pushed so far |
| Grouping.Lookup | components/SendPanel.tsx:22 | the property lookup `acc[k]` among own properties: the position of the entry for `k`, or one past the end when there is none |
| Grouping.Keys | components/SendPanel.tsx:22 | the keys `acc[item.category] = []` creates, in creation order: each category once, where it first occurs |
| Grouping.ObjectEntries | components/SendPanel.tsx:27 | `Object.entries` of the accumulator: the array-index keys ascending by value, then the other keys in creation order |
| Grouping.GroupEntries | components/SendPanel.tsx:21-27 | `Object.entries(items.reduce(...))`: a TypeError when a category names an Object.prototype member, otherwise each key with its bucket in `Object.entries` order (the same code is at SendPanel.tsx:66-72 and ItemList.tsx:26-30) |
| Grouping.MembersAppend | components/SendPanel.tsx:22-23 | pushing an item adds it to its own category and to no other |
| Grouping.MembersCount | components/SendPanel.tsx:21-25 | an item occurs in its category's bucket as often as in the list, and in no other |
| Grouping.MemberIsListed | components/SendPanel.tsx:21-25 | a bucket holds only list items of its own category |
| Grouping.MembersOfPresent | components/SendPanel.tsx:22 | a category that some item has gets a non-empty bucket |
| Grouping.KeysAreTheCategories | components/SendPanel.tsx:22 | the keys created are distinct, and they are exactly the categories of the items |
| Grouping.KeysInFirstOccurrenceOrder | components/SendPanel.tsx:22 | keys are created in the order in which their categories first occur |
| Grouping.PushNew | components/SendPanel.tsx:22-23 | a first-seen category adds one key at the end, holding just that item |
| Grouping.PushExisting | components/SendPanel.tsx:23 | a seen category's bucket gains the item at its end; the keys stay as they are |
| Grouping.Reduce | components/SendPanel.tsx:21-27 | the loop computes the specified entries, including the TypeError when a category names an Object.prototype member |
| Grouping.ObjectEntriesPermutes | components/SendPanel.tsx:27 | `Object.entries` lists every own property once |
| Grouping.ObjectEntriesIndicesFirst | components/SendPanel.tsx:27 | no array-index key follows another key, and array-index keys ascend by value |
| Grouping.ObjectEntriesKeepNamedOrder | components/SendPanel.tsx:27 | the other keys keep their creation order |
| Grouping.ObjectEntriesWithoutIndices | components/SendPanel.tsx:27 | without array-index keys, the entries are in creation order |
| Grouping.GroupEntriesPartition | components/ItemList.tsx:26-30 | the entries partition the list: distinct categories, each with exactly its items in list order and never empty, and every item's category present |
| Grouping.GroupEntriesPermutation | components/ItemList.tsx:26-30 | the buckets together hold each item of the list exactly once |
| Grouping.GroupEntriesInCreationOrder | components/SendPanel.tsx:66-72 | without prototype or array-index categories, the entries are the categories in first-occurrence order |
| Grouping.LabelsNeverThrow | components/SendPanel.tsx:66-70 | when every category is an aisle label, the reduce never throws |
| Grouping.PartitionPermutation | components/ItemList.tsx:45 | any reordering of a partition, such as the sorted entries, is still a partition |
| SendPanel.ItemsText | components/SendPanel.tsx:29-31 | the item lines one after another, in list order |
| SendPanel.GroupText | components/SendPanel.tsx:28-32 | a group's heading, its item lines, then a blank line |
| SendPanel.GroupsText | components/SendPanel.tsx:27-33 | the group blocks one after another, in entries order |
| SendPanel.ItemLine | components/SendPanel.tsx:30 | an item's line starts with its check box and a space and ends with a line break |
| SendPanel.GroupHeading | components/SendPanel.tsx:28 | a heading is the category, upper-cased, between asterisks, followed by a line break |
| SendPanel.ListText | components/SendPanel.tsx:17-36 | the specified list text; it throws exactly when the list is non-empty and a category names an Object.prototype member |
| SendPanel.FormatListText | components/SendPanel.tsx:17-36 | the code's `text +=` loops build exactly the specified list text |
| SendPanel.AppendGroups | components/SendPanel.tsx:27-33 | the outer loop appends every group's text, in order |
| SendPanel.AppendItemLines | components/SendPanel.tsx:29-31 | the inner loop appends every item's line, in order |
| SendPanel.ListTextEmptyIff | components/SendPanel.tsx:18 | the "empty" sentence is produced exactly for an empty list |
| SendPanel.ListTextStartsWithHeader | components/SendPanel.tsx:20-25 | a non-empty list throws exactly when a category names an Object.prototype member; otherwise its text starts with the title and a blank line |
| SendPanel.ListTextLineCount | components/SendPanel.tsx:20-33 | when names, quantities and categories hold no line break, the text has 2 + 2·(number of categories) + (number of items) lines |
| SendPanel.ListTextHasEveryItem | components/SendPanel.tsx:29-31 | every item's check-box line occurs in the text |
| SendPanel.GroupsTextHasGroup | components/SendPanel.tsx:27-33 | every group's block occurs in the joined text |
| SendPanel.ItemsTextHasLine | components/SendPanel.tsx:29-31 | every item line occurs in its group's text |
| SendPanel.TitleBlock | components/SendPanel.tsx:59-63 | the title "SmartShop List" at x = 20, y = 20 and "Generated on: " with the time stamp at x = 20, y = 28, both on page 1 |
| SendPanel.Start | components/SendPanel.tsx:59-65 | the title block, with the next text at y = 40 on page 1 |
| SendPanel.BreakAt | components/SendPanel.tsx:73 | past the limit, a new page starts at y = 20; otherwise the position is kept |
| SendPanel.PlaceAt | components/SendPanel.tsx:73-87 | the step a heading and a line share: the page break, one text at `x` and the resulting `y`, then `y` advanced by the step |
| SendPanel.PlaceHeading | components/SendPanel.tsx:73-79 | a heading: a page break when y > 270, the upper-cased category at x = 20, then y += 8 |
| SendPanel.PlaceLine | components/SendPanel.tsx:84-87 | an item line: a page break when y > 280, the item's PDF text at x = 25, then y += 6 |
| SendPanel.PlaceLines | components/SendPanel.tsx:83-88 | one item line per item, in order |
| SendPanel.PlaceGroup | components/SendPanel.tsx:72-90 | an entry: its heading, its item lines, then y += 6 |
| SendPanel.PlaceGroups | components/SendPanel.tsx:72-90 | one entry after another, in entries order |
| SendPanel.PdfFileName | components/SendPanel.tsx:92 | "SmartShop_List_", the decimal digits of `getTime()`, then ".pdf" |
| SendPanel.PdfItemText | components/SendPanel.tsx:85-86 | an item's PDF line starts with "[X] " when completed and "[ ] " otherwise, and ends with the closing parenthesis of the quantity |
| SendPanel.PdfLayout | components/SendPanel.tsx:59-90 | the document starts on page 1; each text lies below the previous one or at the top of the next page; headings lie at 20 ≤ y ≤ 270 and item lines at 20 ≤ y ≤ 280 |
| SendPanel.PdfDocument | components/SendPanel.tsx:48-98 | nothing exactly for an empty list; a caught failure exactly when the reduce throws; otherwise a document saved as `SmartShop_List_<ms>.pdf` with one page more than it has page breaks |
| SendPanel.DrawEntries | components/SendPanel.tsx:65-90 | the code's loop over the entries, with `y` and the page as variables, produces exactly the specified layout |
| SendPanel.DrawLines | components/SendPanel.tsx:83-88 | the inner loop over a group's items, continuing from the heading's `y` and page, produces exactly the specified lines |
| SendPanel.PlaceAtSound | components/SendPanel.tsx:84-87 | one placement keeps a layout sound, and the page grows by one exactly when y was past the limit |
| SendPanel.PdfPageCount | components/SendPanel.tsx:73-84 | the page count is one more than the number of page breaks |
| SendPanel.PdfTexts | components/SendPanel.tsx:72-90 | the headings are the upper-cased categories in entry order; there is one "[X]"/"[ ]" line per item, group after group, exactly as many as the list has items |
| SendPanel.Panel.constructor | components/SendPanel.tsx:14-15 | both flags start false |
| SendPanel.Panel.GeneratePdf | components/SendPanel.tsx:48-98 | an empty list does nothing; otherwise the reduce throws and is caught, or the specified layout is saved as `SmartShop_List_<ms>.pdf`; the busy flag ends false |
| SendPanel.Panel.HandleCopy | components/SendPanel.tsx:100-104 | the specified text is copied, and the badge shows unless formatting throws |
| SendPanel.Panel.CopiedTimeout | components/SendPanel.tsx:103 | the badge hides; the PDF flag is untouched |
| ItemList.EntryString | components/ItemList.tsx:45 | the string the default comparator sees for an entry begins with its category and a comma |
| ItemList.InsertEntry | components/ItemList.tsx:45 | inserting an entry adds exactly it and keeps a sorted sequence sorted |
| ItemList.SortEntries | components/ItemList.tsx:45 | the default sort returns a permutation of the entries in which no entry string is below an earlier one |
| ItemList.LabelsNotPrefixes | types.ts:10-20 | no aisle label is a prefix of another |
| ItemList.LabelEntriesCompareByCategory | components/ItemList.tsx:45 | for two aisle-label entries, the comparator's strings compare as their category names do |
| ItemList.SortedLabelsAscend | components/ItemList.tsx:45 | sorted entries with distinct aisle-label categories are in strictly ascending name order |
| ItemList.RowOf | components/ItemList.tsx:56-106 | an item's row: flagged pending (the dashed border) when its category is 'Categorizing...', and the toggle, quantity and delete controls bound to its id |
| ItemList.SectionOf | components/ItemList.tsx:46-56 | a block has its entry's category and one row per item, in order |
| ItemList.ViewOf | components/ItemList.tsx:13-56 | the specified view; the empty state exactly for an empty list, and a TypeError exactly when the list is non-empty and a category names an Object.prototype member |
| ItemList.Render | components/ItemList.tsx:13-45 | the component renders exactly the specified view |
| ItemList.EmptyStateIff | components/ItemList.tsx:14-24 | the empty state shows exactly for an empty list |
| ItemList.SectionsPartition | components/ItemList.tsx:26-56 | each section shows exactly its category's items, in list order, and is never empty; no category has two sections; every item's category has one |
| ItemList.SectionsOrder | components/ItemList.tsx:45 | with aisle-label categories, the sections ascend strictly by category name |
| ItemList.RowsFlagsAndTargets | components/ItemList.tsx:51-106 | a section is flagged pending exactly for 'Categorizing...', and so is each of its rows; every row's toggle, quantity and delete controls act on the row's own id |

## Left out

- The AI service itself is not modelled: the network, the model name, the response schema and its latency. Each call's reply is a parameter (`Gemini.Response`).
- `JSON.parse` is a parameter of `Gemini.SmartSuggestions`, because the code passes its result on unchecked.
- Browser effects are not modelled: `localStorage` reads and writes, the body colour, the clipboard, `window.open` with the WhatsApp and SMS URLs, `encodeURIComponent`, `setTimeout`, and `console.error`. Stored values, the timestamp string and `getTime()` are parameters. The timer's callback is the separate method `CopiedTimeout`.
- jsPDF drawing is modelled only as positions and texts, with page numbers. Fonts, sizes and colours are left out, and so is any failure inside jsPDF other than the reduce's TypeError.
- Ids come from `Math.random().toString(36)`, which the model does not reproduce. They are parameters, and id uniqueness is a precondition of the lemmas that need it.
- Concurrency is left out. Handlers run to completion, so two categorizations in flight, or a stale suggestion fetch resolving late, are not captured. `isAdding` is therefore false between calls.
- JSX markup, class names, animations and Header.tsx are not part of this model. From the view, only its structure is modelled: sections, rows, pending flags and the targets of the controls.
- Js.ToUpperCase: upper-cases ASCII letters only. Unicode case mapping (including length-changing cases such as "ß") is not modelled.
- Js.Less: compares Dafny characters, which are Unicode scalar values. JavaScript compares UTF-16 code units, and the two orders differ only for characters outside the Basic Multilingual Plane.
- ItemList.SortEntries: stability is built into its definition but not stated in its contract.
- Gemini.SmartSuggestions: assumes the reply parses to what the response schema asks for (services/geminiService.ts:30-43), a list of records with string `name` and `category`. `JSON.parse` could return `null`, a non-array or records without a `name`; the code passes that on unchecked, and the view would then fail. The model does not capture that.
- Types.SmartSuggestion: `category` is declared as an aisle here, but it is a plain string in the model, because nothing checks what `JSON.parse` returns.
- ShoppingApp.App.HandleAddItem: returns the name handed to the categorizer. The prompt built from that name is `Gemini.CategorizePrompt`, and the method does not restate it.
