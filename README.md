# TierZen tier list — a Dafny model

TierZen is a browser tier-list editor. A board is an ordered list of tiers plus an unranked
pool. Each tier has an id, a name, a background colour, a text colour and a list of items.
Each item has an id, a name, an optional image URL and an error flag.

In edit mode the user can:
- add, rename, recolour and delete tiers;
- add, edit and delete items.

In rank mode the user drags items between collections. A placeholder shows where the item
will land.

This project models the core of the editor:
- the state of the page component and every handler that changes it;
- the drop containers (a tier row and the unranked pool): the preview list, the drop index
  and the two drag-over handlers;
- the gsap hit test of an item card;
- the tier-name editor in a row's header;
- the add/edit item form;
- the two revisions of `getContrastingTextColor`, and `escapeXml`.

The JavaScript primitives the core relies on are modelled as they behave:
- `String.prototype.trim`, with the ECMAScript white-space set;
- `replace` with a one-character string pattern;
- `parseInt(s, 16)`;
- `Array.prototype.splice` insertion, which clamps its start index.

Modules:
- `Wrappers`: `Option`.
- `JsString`, `JsArray`: the JavaScript primitives above.
- `Types`: items, tiers, collection ids, and the list operations on items by id.
- `Contrast`: both revisions of `getContrastingTextColor`.
- `XmlEscape`: `escapeXml`.
- `Geometry`: rectangles and the midpoint scan.
- `ItemCard`: the card's hit test.
- `Container`: the drop containers.
- `TierName`: the name editor of a tier row.
- `ItemForm`: the item form, as a class.
- `TierList`: the board as a value, with every handler's effect as a function of the old board.
- `AppState`: the page component as a class. Its fields are the state hooks, and each handler
  is a method proved against the matching `TierList` function.

Properties proved:
- A drop moves exactly the dragged entry. Every other entry keeps its count, and the board
  keeps its size while each id has one place.
- The index a drop hands to `onDropItem` is the position where the preview placeholder was
  shown. Within one collection, a move to the right then lands one slot past it (see below).
- Every handler keeps tier ids unique and each text colour derived from its background.
- `escapeXml` is undone by decoding its five entities, and leaves no raw markup character.
- The hit test returns the first region holding the card's centre, and the midpoint-scan index
  within it.
- The item form saves the trimmed name and the image `FinalImageUrl` picks for the current
  tab. The preview matches it after typing a URL, switching tabs and loading or failing to
  load a file on the upload tab; it can differ after a preview error, after opening an item,
  and after a file load that completes while the URL tab is open.

The model keeps the behaviour of the code where it departs from what the editor's design intends:
- A second drag start replaces the recorded drag; there is no re-entrancy guard.
- A drop whose item has already left its source still inserts it into the target
  (`TierList.StaleDropResurrects`).
- A drop does not clear `isDraggingGlobal`; only the page's `dragend` handler does.
- The drag-over scan measures the preview index while the dragged card is still in the list:
  its own box is among the children scanned (app/page.tsx:749-756,
  app/components/TierRow.tsx:83). The splice in `onDropItem` then runs on the list after the
  removal. Within one collection, a move to the right therefore lands one slot past the
  position the preview showed (`TierList.SameTierMoveExample`). A drop with no index
  appends as intended (`TierList.DefaultIndexAppends`).
- `resetAll` leaves the drag state as it is.
- During a drag, the empty pool's hint text is among the children the inner scan measures.
  The scan can therefore report index 1 for an empty pool (`Container.EmptyPoolScanCanBeOne`).
- A failed image preview clears the preview, but a submit still saves the typed URL
  (`ItemForm.FailedPreviewStillSaved`).

## Model

| member | source | states |
|---|---|---|
| JsString.TrimStart | app/components/AddItemModal.tsx:65 | the result is a suffix of the input; exactly the leading white space is removed, and the result starts with a non-space |
| JsString.TrimEnd | app/components/AddItemModal.tsx:65 | the result is a prefix of the input; exactly the trailing white space is removed, and the result ends with a non-space |
| JsString.TrimShape | app/components/AddItemModal.tsx:105 | `trim` returns a contiguous slice of the input with no white space at either end |
| JsString.BlankIffAllSpace | app/components/AddItemModal.tsx:95 | a string trims to "" (is falsy after trim) iff every character is white space |
| JsString.TrimIdempotent | app/components/TierRow.tsx:42 | trimming a trimmed name changes nothing |
| JsString.TrimmedOrNull | app/components/AddItemModal.tsx:65 | `url.trim() \|\| null` is null iff the input is blank; otherwise it is the non-empty trimmed input |
| JsString.Trim | app/components/AddItemModal.tsx:110 | `trim()` as `TrimStart` then `TrimEnd`; `TrimShape` states that it keeps a contiguous block with no white space at either end, and `TrimIdempotent` that it is idempotent |
| JsString.IsBlank | app/components/AddItemModal.tsx:95 | falsiness of `s.trim()`; `BlankIffAllSpace` states that it holds iff every character is white space |
| JsString.StartsWith | app/components/AddItemModal.tsx:34 | `startsWith` as a prefix test; the form uses it to tell an uploaded image apart, and `ItemForm.ResubmitKeepsImage` states the effect |
| JsString.IndexOf | app/lib/utils.ts:6 | the position of the first occurrence of the character |
| JsString.RemoveFirst | app/lib/utils.ts:6 | `replace("#", "")` leaves a string without `#` unchanged and otherwise removes exactly its first `#`, keeping the characters around it |
| JsString.NatToString | app/page.tsx:197 | a tier count prints as decimal digits with no leading zero whose value is the count |
| JsString.HexDigitValue | app/lib/utils.ts:10 | a hex digit's value is below 16 |
| JsString.HexRun | app/lib/utils.ts:10 | `parseInt` reads the longest prefix of hex digits |
| JsString.ParseIntHex | app/lib/utils.ts:10-16 | `parseInt(s, 16)`: `ParseIntHexTrims` states that it skips the leading white space, `ParsePair` and `ParseDoubled` give its value on the two characters each channel passes |
| JsString.ParseSigned | app/lib/utils.ts:10-16 | `parseInt` after the white space, with one optional sign; `ParseIntHexTrims` ties it to `ParseIntHex` |
| JsString.ParseDigits | app/lib/utils.ts:10-16 | `parseInt` after the sign: an optional `0x`, then the longest hex run, NaN when it is empty; `ParsePair` and `ParseDoubled` state its values |
| JsString.ParseIntHexTrims | app/lib/utils.ts:10-16 | `parseInt(s, 16)` skips leading white space, then reads sign, `0x` prefix and digits |
| JsString.ParsePair | app/lib/utils.ts:14-16 | two hex digits parse to 16·first + second |
| JsString.ParseDoubled | app/lib/utils.ts:10-12 | a doubled hex digit parses to 17 times its value; a doubled non-digit is NaN |
| JsArray.SpliceStart | app/page.tsx:355 | `splice`'s start index clamps to the array: a negative index counts from the end, one past the end appends |
| JsArray.Insert | app/page.tsx:354-356 | inserting with `splice(start, 0, x)` puts `x` at the clamped start, keeps everything before it and shifts everything after it by one |
| JsArray.InsertMultiset | app/page.tsx:355 | a splice insertion is a permutation of the old array plus the new element |
| JsArray.InsertPastEnd | app/page.tsx:355 | a start at or past the length appends |
| Types.Count | app/page.tsx:283 | the number of entries with an id is zero iff no entry has it |
| Types.WithoutId | app/page.tsx:339 | filtering out an id removes every entry with it and keeps the count of every other id, with no new entries |
| Types.WithoutAbsentId | app/page.tsx:289 | filtering out an absent id changes nothing |
| Types.MapWhere | app/page.tsx:235-238 | mapping by id rewrites exactly the entries with that id, each in its place |
| Types.MapWhereAbsent | app/page.tsx:268 | mapping an absent id changes nothing |
| Types.ClearErrors | app/page.tsx:229 | the items moved out of a deleted tier keep their order and lose their error flags |
| Types.ClearErrorsCount | app/page.tsx:229 | clearing error flags keeps every id's count |
| Types.FindIndex | app/components/TierRow.tsx:94 | `findIndex` by id is -1 iff the id is absent, else the first position with that id |
| Contrast.ByLuminance | app/lib/utils.ts:18-19 | black iff all three channels are numbers and 299r + 587g + 114b > 127500 (luminance above 0.5); white otherwise, including for NaN |
| Contrast.Validated | app/utils.ts:5-28 | the validating revision: black for a missing or empty colour; a warning, with black, iff what is left after removing `#` is not three or six hex digits |
| Contrast.IsHexColor | app/utils.ts:8 | the pattern `^(?:[0-9a-fA-F]{3}){1,2}$` as three or six hex digits; `Contrast.Validated` states that the warning is given iff it fails |
| Contrast.ReadChannels | app/lib/utils.ts:9-17 | the three channels read in the short or long form; `ReadValidChannels`, `ReadShort` and `ReadLong` state their values for a valid colour |
| Contrast.ReadChannel | app/lib/utils.ts:10-16 | one channel: its digit doubled in the short form, its digit pair in the long form; `SameChannel` states that both forms agree on doubled digits |
| Contrast.LengthOnly | app/lib/utils.ts:4-20 | the length-only revision: black for a missing or empty colour and for any length other than 3 or 6 after removing `#` |
| Contrast.ReadValidChannels | app/utils.ts:13-22 | the three channels of a valid colour are its digit pairs (short form: doubled digits) |
| Contrast.ReadShort | app/lib/utils.ts:9-12 | a three-digit colour reads each channel as 17 times its digit |
| Contrast.ReadLong | app/lib/utils.ts:13-17 | a six-digit colour reads each channel from its digit pair |
| Contrast.ValidatedBlackIff | app/utils.ts:24-27 | for a valid colour the validating revision gives black iff the weighted luminance exceeds half, with no warning |
| Contrast.VariantsAgreeOnHex | app/lib/utils.ts:4-20 | the two revisions agree on every valid hex colour |
| Contrast.LongForm | app/lib/utils.ts:13-19 | `#` followed by six hex digits is judged on those digit pairs |
| Contrast.ShortFormDoubles | app/utils.ts:14-17 | in both revisions `#abc` gets the same text colour as `#aabbcc` |
| Contrast.NonHexShortFormDiverges | app/lib/utils.ts:7 | `#XYZ` passes the length check and gets white (NaN channels); the validating revision gives black with a warning |
| Contrast.LightTestVectors | app/__tests__/utils.test.ts:23-27 | `#FFFFFF`, `#FFF` and `#ABEBC6` give black |
| Contrast.DarkTestVectors | app/__tests__/utils.test.ts:29-34 | `#000000`, `#000`, `#C0392B` and `#273746` give white |
| Contrast.MalformedTestVectors | app/__tests__/utils.test.ts:41-48 | `#12345`, `blue` and `#XYZ` give black with a warning |
| XmlEscape.EscapeChar | app/utils.ts:36-44 | exactly the five special characters are replaced, each by an entity `&…;` |
| XmlEscape.Escape | app/utils.ts:36-45 | escaping never shortens the text |
| XmlEscape.EscapeNoRawMarkup | app/utils.ts:36-45 | the escaped text contains no `<`, `>`, `"` or `'` |
| XmlEscape.EscapeXml | app/utils.ts:30-46 | a non-string gives ""; a string gives a text with no raw markup that decodes back to the string |
| XmlEscape.EscapeAppend | app/utils.ts:36 | the global replace escapes each character on its own, so escaping distributes over concatenation |
| XmlEscape.DecodeHead | app/utils.ts:38-42 | decoding the head of a text consumes at least one character and no more than the text |
| XmlEscape.UnescapeEscape | app/utils.ts:36-45 | decoding the five entities undoes `escapeXml`: the escape is injective |
| XmlEscape.EscapeIdentityIff | app/__tests__/utils.test.ts:64-70 | the text is returned unchanged iff it has no special character |
| Geometry.FirstRightOf | app/components/TierRow.tsx:83 | the scan index is the first box whose horizontal midpoint is right of the pointer, and every box before it has its midpoint at or left of the pointer |
| Geometry.FirstRightOfUnique | app/components/TierRow.tsx:83 | that index is the only one with this property |
| Geometry.FirstRightOfMonotone | app/components/TierRow.tsx:83 | moving the pointer right never moves the index left |
| Geometry.MidpointScan | app/page.tsx:749-756 | the loop with its early exit computes that index |
| ItemCard.SetsUpDraggable | app/components/ItemCard.tsx:43-61 | gsap is set up only outside edit mode, and always for a mounted card outside edit mode |
| ItemCard.ImageErrorReport | app/components/ItemCard.tsx:155-157 | a failed image reports the card's own id with the error flag set |
| ItemCard.EffectivePointerX | app/components/ItemCard.tsx:102-104 | gsap's pointer x is used when present, else the drag offset plus the start pointer with missing parts read as 0 |
| ItemCard.FirstContaining | app/components/ItemCard.tsx:106-112 | the first region whose box holds the card's centre (edges included), or none |
| ItemCard.Others | app/components/ItemCard.tsx:120-122 | the region's items without the dragged element: every other item stays, nothing else appears; unchanged when it is not among them |
| ItemCard.OthersAppend | app/components/ItemCard.tsx:120-122 | the filter works piece by piece, so the other items keep their order |
| ItemCard.OthersSingle | app/components/ItemCard.tsx:120-122 | a single item is kept exactly when its key differs from the dragged one |
| ItemCard.Rects | app/components/ItemCard.tsx:126 | one box per item, in order |
| ItemCard.OnDrag | app/components/ItemCard.tsx:94-133 | no result iff no region holds the centre; otherwise the first such region's id and the midpoint-scan index over its other items |
| ItemCard.HitIndexExcludesDragged | app/components/ItemCard.tsx:120-131 | when the dragged card is in the region, the index is below the region's item count |
| Container.Name | app/components/UnrankedItemsContainer.tsx:45 | a container reports "unranked" iff it is the pool |
| Container.Placeholder | app/components/TierRow.tsx:57 | the placeholder record carries the container's placeholder id, the placeholder flag and the dragged item's image |
| Container.Preview | app/components/TierRow.tsx:55-58 | with the four-part guard, the list is the items with the placeholder spliced in at the clamped preview index; otherwise the items themselves |
| Container.ShowsPreview | app/components/TierRow.tsx:56 | the four-part guard of the splice; `Container.Preview` states what the list is with and without it |
| Container.ItemsWithPreview | app/components/UnrankedItemsContainer.tsx:37-40 | builds that preview list |
| Container.PreviewWithoutPlaceholder | app/components/TierRow.tsx:55-58 | removing the placeholder from the preview gives back the items |
| Container.WithoutInserted | app/components/TierRow.tsx:57 | removing a spliced-in record whose id was absent gives back the list |
| Container.PreviewPastEnd | app/components/TierRow.tsx:57 | a preview index at or past the end puts the placeholder last |
| Container.DropIndexMatchesPreview | app/components/TierRow.tsx:64 | the index handed to `onDropItem` is the placeholder's position in the preview; without a preview it is the end of the list |
| Container.OnDrop | app/components/TierRow.tsx:84 | the drop handler calls `onDropItem` iff a drag is on outside edit mode, with the drop index |
| Container.DropIndex | app/components/TierRow.tsx:64 | the preview index when this container is the drop target and has one, else the item count; `DropIndexMatchesPreview` states that it is the placeholder's position or the end |
| Container.OuterDragOver | app/components/TierRow.tsx:63 | the outer drag-over reports the collection and its length iff a drag is on outside edit mode |
| Container.Scanned | app/components/UnrankedItemsContainer.tsx:51 | every child that is not a placeholder box has its box scanned |
| Container.ScannedAppend | app/components/UnrankedItemsContainer.tsx:51 | the scan works piece by piece, so the boxes keep the children's order |
| Container.ScannedSingle | app/components/UnrankedItemsContainer.tsx:51 | a placeholder box adds no box and any other child adds its own |
| Container.InnerDragOver | app/components/TierRow.tsx:83 | the inner drag-over reports iff a drag is on outside edit mode, with the midpoint-scan index over the children that are not placeholder boxes |
| Container.Rendered | app/components/TierRow.tsx:86-101 | the box renders at least one child per list entry |
| Container.Hints | app/components/TierRow.tsx:86-87 | the hint texts of an empty list; `Rendered` and `EmptyPoolScanCanBeOne` state what they add to the children |
| Container.Cards | app/components/TierRow.tsx:88-101 | one child per entry: a placeholder box for the placeholder record, a card otherwise |
| Container.EmptyPoolScanCanBeOne | app/components/UnrankedItemsContainer.tsx:51-56 | with no preview during a drag, the empty pool's only child is its hint, and a pointer at or past the hint's midpoint yields index 1 |
| Container.RowScanBounded | app/components/TierRow.tsx:83-87 | during a drag a row's scan index never exceeds its item count |
| Container.CountPlaceholders | app/components/TierRow.tsx:88 | a list holds no more placeholders than entries, and none exactly when no record is a placeholder |
| Container.CountPlaceholdersAppend | app/components/TierRow.tsx:88 | the count adds up over pieces |
| Container.DragStartArgs | app/components/TierRow.tsx:94 | a drag start records the item, its collection, and its first index there, or -1 when absent |
| Container.CardDrop | app/page.tsx:809-810 | a card accepts a drop only outside edit mode, at the card's own index |
| TierName.NameEditor.constructor | app/components/TierRow.tsx:35-36 | the draft starts as the tier's name, with the field hidden |
| TierName.NameEditor.SyncName | app/components/TierRow.tsx:38 | a new tier name replaces the draft |
| TierName.NameEditor.StartEditing | app/components/TierRow.tsx:70 | a click opens the field only in edit mode |
| TierName.NameEditor.HandleNameChange | app/components/TierRow.tsx:40 | typing replaces the draft |
| TierName.NameEditor.SaveName | app/components/TierRow.tsx:41-44 | a non-blank draft gives a name patch with the trimmed draft; a blank one restores the tier's name; the field closes either way |
| TierName.NameEditor.HandleKeyDown | app/components/TierRow.tsx:45-48 | Enter saves, Escape restores the name and closes, other keys change nothing |
| TierName.ColorPatch | app/components/TierRow.tsx:49 | the colour picker's patch sets the colour only |
| TierName.SavedNameIsClean | app/components/TierRow.tsx:42 | a saved name is non-empty, not blank, and starts and ends with a non-space |
| TierName.ColorPatchRecolours | app/components/TierRow.tsx:49 | recolouring keeps name, id and items and derives the text colour from the new colour |
| ItemForm.Message | app/components/AddItemModal.tsx:75-96 | every error the form shows has a non-empty message |
| ItemForm.FinalImageUrl | app/components/AddItemModal.tsx:101-108 | the saved image is never ""; on the URL tab it is the trimmed input or none; on the upload tab it is the cached upload iff there is one |
| ItemForm.Form.constructor | app/components/AddItemModal.tsx:22-27 | the form starts empty on the URL tab, with no error and no cached upload |
| ItemForm.Form.OnOpen | app/components/AddItemModal.tsx:29-53 | opening clears the error. A new item resets every field. An item with a `data:image` URL opens on the upload tab with that image cached. Any other item opens on the URL tab with its URL |
| ItemForm.Form.HandleNameChange | app/components/AddItemModal.tsx:55-60 | typing sets the name and clears the error iff the new name is not blank |
| ItemForm.Form.HandleImageUrlInputChange | app/components/AddItemModal.tsx:62-68 | the preview shows the trimmed URL or nothing; the cached upload and the error are cleared; on the URL tab the preview is what a submit saves |
| ItemForm.Form.HandleFileChange | app/components/AddItemModal.tsx:70-79 | the error is cleared. A file over 2 MiB sets the too-large error and is not read. A smaller file starts a read |
| ItemForm.Form.OnLoadEnd | app/components/AddItemModal.tsx:80-85 | the reader's result, the data URL or none after a failure, becomes both the preview and the cached upload |
| ItemForm.Form.OnFileReadError | app/components/AddItemModal.tsx:86-88 | the error event sets the read error and changes nothing else |
| ItemForm.Form.ReadFails | app/components/AddItemModal.tsx:80-88 | a failed read shows the read error and clears both the preview and the cached upload |
| ItemForm.Form.HandleSubmit | app/components/AddItemModal.tsx:93-112 | a blank name saves nothing and sets the name-required error. Otherwise it saves the trimmed name and the tab's image, with the edited item's id |
| ItemForm.Form.SwitchImageInputMode | app/components/AddItemModal.tsx:114-126 | switching tabs clears the error and makes the preview what that tab would save |
| ItemForm.Form.PreviewError | app/components/AddItemModal.tsx:168 | a preview that fails to load sets the preview error and clears the preview |
| ItemForm.PreviewOfTab | app/components/AddItemModal.tsx:114-126 | the preview chosen on a tab switch equals the image a submit would save |
| ItemForm.FailedPreviewStillSaved | app/components/AddItemModal.tsx:104-105 | a non-blank URL is saved (trimmed) even after its preview failed |
| ItemForm.ResubmitKeepsImage | app/components/AddItemModal.tsx:34-43 | opening an item for edit and submitting at once saves its image again: an uploaded image as it was, a URL trimmed |
| TierList.FindTier | app/page.tsx:225 | none iff no tier has the id, else a tier of the list with that id |
| TierList.MapTier | app/page.tsx:342-349 | exactly the tiers with the id get their items rewritten; every other field and tier is kept |
| TierList.RemoveFrom | app/page.tsx:338-350 | the source collection loses every entry with the id; `RemoveFromCount`, `RemoveFromSize` and `RemoveFromTouches` state the effect |
| TierList.TargetIndex | app/page.tsx:331-335 | `targetIndexInput ?? getTargetLength()`, the length taken before the removal and 0 for a missing tier; `DefaultIndexAppends` and `LargeIndexAppends` state that such an index appends |
| TierList.Moved | app/page.tsx:336 | the dragged item with its error flag cleared; `CommitItems` states where it lands |
| TierList.InsertInto | app/page.tsx:352-368 | the moved copy is spliced into the target collection; `InsertIntoCount`, `InsertIntoSize` and `InsertIntoTouches` state the effect |
| TierList.Commit | app/page.tsx:325-373 | `onDropItem`'s board update, the removal then the splice; `CommitItems`, `CommitCounts`, `CommitKeepsOwnership` and `CommitKeepsTiersValid` state its contract |
| TierList.MapAll | app/page.tsx:239-241 | every tier gets its items rewritten and keeps its other fields |
| TierList.FindTierAfterMap | app/page.tsx:359-368 | after a rewrite a lookup finds the same tier, with rewritten items when it is the rewritten one |
| TierList.CommitItems | app/page.tsx:325-373 | after a drop, each collection holds its old items, minus the dragged id if it is the source, with the moved item spliced in if it is the target and exists |
| TierList.SameMove | app/page.tsx:338-368 | a drop into its own source removes the item, then splices it in at the index computed before the removal |
| TierList.SameTierMoveExample | app/page.tsx:331-363 | moving the second of four items to index 3 of its own tier puts it last, not third |
| TierList.CrossMove | app/page.tsx:338-368 | a drop into another existing collection removes the item from the source, inserts it into the target, and leaves every other collection alone |
| TierList.DefaultIndexAppends | app/page.tsx:331-335 | a drop with no index appends to the target |
| TierList.LargeIndexAppends | app/page.tsx:355 | a drop index at or past the target's length appends |
| TierList.CommitKeepsTierFields | app/page.tsx:341-368 | a drop changes only items, and only those of the source and target tiers |
| TierList.MapTierCount | app/page.tsx:342-349 | rewriting one tier's items changes an id's count on the board by exactly that tier's change |
| TierList.RemoveFromCount | app/page.tsx:338-350 | the removal half of a drop removes exactly the source's entries with the dragged id |
| TierList.InsertIntoCount | app/page.tsx:352-368 | the insertion half adds one entry with the moved id iff the target exists |
| TierList.InsertCount | app/page.tsx:355 | a splice insertion adds one to the inserted id's count and nothing else |
| TierList.MapTierKeepsUnique | app/page.tsx:342-349 | rewriting items keeps tier ids unique |
| TierList.CommitCounts | app/page.tsx:325-373 | a drop changes only the dragged id's count: minus its count in the source, plus one if the target exists |
| TierList.CommitKeepsOwnership | app/page.tsx:325-373 | when every id has at most one place, a drop of an item held once in its source into an existing target keeps that, and keeps the board's size |
| TierList.CommitSize | app/page.tsx:325-373 | the board's size after a drop, in terms of the removed and inserted entries |
| TierList.StaleDropResurrects | app/page.tsx:329-368 | a drop whose item is no longer on the board still puts one copy into the target |
| TierList.RewriteAllItems | app/page.tsx:234-243 | a rewrite by id over tiers and pool is the rewrite of the whole board's item list |
| TierList.FlagItemErrorEffect | app/page.tsx:234-243 | after `handleItemError` exactly the entries with the id carry the new flag, each in place; tiers keep their other fields |
| TierList.FlagItemError | app/page.tsx:234-243 | `handleItemError` on the board; `FlagItemErrorEffect` and `FlagItemErrorKeepsTiersValid` state its contract |
| TierList.UpdateItem | app/page.tsx:250-269 | the update applied to every entry with the id, in the tiers and in the pool; `UpdateItemEffect` and `UpdateItemKeepsTiersValid` state its contract |
| TierList.UpdateItemFlagged | app/page.tsx:250-269 | `handleUpdateItemSubmit` as written: the tiers are updated, and the pool only when no tier held the id (`found`); `UpdateItemFlagIrrelevant` states that it equals `UpdateItem` under single ownership |
| TierList.UpdateItemEffect | app/page.tsx:250-269 | after an update the entries with the id have the new name and image and no error, and keep id, placeholder flag and place; others are unchanged |
| TierList.DeleteItem | app/page.tsx:278-291 | the deletion of every entry with the id, in the tiers and in the pool; `DeleteItemEffect` and `DeleteItemKeepsTiersValid` state its contract |
| TierList.DeleteItemFlagged | app/page.tsx:278-291 | `deleteItem` as written: the pool is filtered only when no tier lost an entry (`deletedInTiers`); `DeleteItemFlagIrrelevant` states that it equals `DeleteItem` under single ownership |
| TierList.DeleteItemEffect | app/page.tsx:278-291 | deleting removes every entry with the id and keeps every other id's count |
| TierList.NewItem | app/page.tsx:245-248 | the submitted data with the fresh id and no error flag; `AddItemEffect` states its use |
| TierList.AddItem | app/page.tsx:245-248 | `handleAddItemSubmit` on the board; `AddItemEffect` states its contract |
| TierList.AddItemEffect | app/page.tsx:245-248 | adding appends one error-free entry to the board; a fresh id keeps every id in one place |
| TierList.AddTier | app/page.tsx:194-203 | `addTier` on the board; `AddTierEffect`, `AddTierNewTier`, `AddTierKeepsTextColors` and `AddTierKeepsUniqueIds` state its contract |
| TierList.AddTierEffect | app/page.tsx:194-203 | adding a tier appends an empty tier with the fresh id and leaves every item in place |
| TierList.AddTierNewTier | app/page.tsx:196-200 | the new tier is named "New Tier " followed by the digits of the new tier count, and is grey `#cccccc` with black text |
| TierList.AddTierKeepsTextColors | app/page.tsx:199 | the new tier's text colour is derived from its colour |
| TierList.AddTierKeepsUniqueIds | app/page.tsx:196 | a fresh id keeps tier ids unique |
| TierList.NewTierTextIsBlack | app/page.tsx:198-199 | a new tier's grey background gets black text |
| TierList.UpdateTier | app/page.tsx:205-222 | exactly the tiers with the id are patched; the pool is kept |
| TierList.PatchTiers | app/page.tsx:209-220 | the per-tier patch of `updateTier` |
| TierList.PatchTier | app/page.tsx:209-220 | `{...tier, ...updatedProps, textColor}` for one tier; `UpdateTierEffect` and `TierName.ColorPatchRecolours` state its effect |
| TierList.UpdateTierEffect | app/page.tsx:205-222 | a patch keeps ids, items and derived text colours; the patched tier takes the given name and colour and keeps the others |
| TierList.DropTier | app/page.tsx:231 | no tier with the id is left, every tier with another id stays, and nothing new appears |
| TierList.DropTierAppend | app/page.tsx:231 | the tier filter works piece by piece, so the remaining tiers keep their order |
| TierList.DropTierSingle | app/page.tsx:231 | a single tier is kept exactly when its id differs |
| TierList.DropTierCount | app/page.tsx:231 | dropping a tier loses exactly its items' counts, and tier ids stay unique |
| TierList.DeleteTier | app/page.tsx:224-232 | `deleteTier` on the board; `DeleteTierEffect` and `DeleteTierContents` state its contract |
| TierList.DeleteTierEffect | app/page.tsx:224-232 | after `deleteTier` the tier is gone, every id keeps its count on the board, ids stay unique and text colours stay derived |
| TierList.DeleteTierContents | app/page.tsx:224-232 | the deleted tier's items, error flags cleared, follow the old pool in order, and every tier with another id stays |
| TierList.LightColor | app/page.tsx:86-101 | the three start colours get black text |
| TierList.InitialTiers | app/page.tsx:82-104 | `initialTiersData`; `InitialTiersValid` and `InitialTextColors` state its properties |
| TierList.InitialUnranked | app/page.tsx:106-117 | `initialUnrankedItemsData`; `InitialPoolIdsDistinct` and `ResetBoardValid` state its properties |
| TierList.InitialTiersValid | app/page.tsx:82-104 | the start tiers are three empty tiers with unique ids and derived text colours |
| TierList.InitialTextColors | app/page.tsx:87-101 | each start tier's text colour is the one its background gives |
| TierList.ResetBoard | app/page.tsx:375-387 | the board `resetAll` sets, with the pool's error flags cleared; `ResetBoardValid` states its contract |
| TierList.ResetBoardValid | app/page.tsx:375-387 | the reset board has valid tiers, two pool items, and every id in one place |
| TierList.InitialPoolIdsDistinct | app/page.tsx:106-117 | the two start items have distinct ids |
| TierList.FoundInTiersNotInPool | app/page.tsx:268 | while an id has at most one place, an id found in a tier is not also in the pool |
| TierList.UpdateItemFlagIrrelevant | app/page.tsx:254-268 | while the id has at most one place, the `found` flag makes no difference: the update is the update everywhere |
| TierList.DeleteItemFlagIrrelevant | app/page.tsx:279-290 | the same for `deletedInTiers` and deletion |
| TierList.CommitKeepsTiersValid | app/page.tsx:325-373 | a drop keeps tier ids unique and text colours derived |
| TierList.FlagItemErrorKeepsTiersValid | app/page.tsx:239-241 | flagging keeps the tier invariant |
| TierList.UpdateItemKeepsTiersValid | app/page.tsx:262-267 | an item update keeps the tier invariant |
| TierList.DeleteItemKeepsTiersValid | app/page.tsx:280-286 | an item deletion keeps the tier invariant |
| AppState.App.constructor | app/page.tsx:122-136 | the first render holds the start tiers and pool, browse mode, no drag and no open form |
| AppState.App.SetEditMode | app/page.tsx:517-524 | the toolbar sets the mode |
| AppState.App.AddTier | app/page.tsx:194-203 | the board becomes `TierList.AddTier` of the old one; with a fresh id the tier invariant is kept |
| AppState.App.UpdateTier | app/page.tsx:205-222 | the board becomes `TierList.UpdateTier` of the old one, keeping the tier invariant |
| AppState.App.DeleteTier | app/page.tsx:224-232 | the board becomes `TierList.DeleteTier` of the old one, keeping the tier invariant |
| AppState.App.HandleItemError | app/page.tsx:234-243 | the board becomes `TierList.FlagItemError` of the old one, keeping the tier invariant |
| AppState.App.HandleAddItemSubmit | app/page.tsx:245-248 | the new item is appended to the pool |
| AppState.App.HandleUpdateItemSubmit | app/page.tsx:250-269 | the update as written, with its `found` flag; while the id has one place it is the update everywhere; the tier invariant is kept |
| AppState.App.HandleSaveItemFromModal | app/page.tsx:271-276 | a non-empty id updates, otherwise a new item is added; the form closes |
| AppState.App.OpenEditItemModal | app/page.tsx:293-296 | the form opens on the item |
| AppState.App.DeleteItem | app/page.tsx:278-291 | the deletion as written, with its `deletedInTiers` flag; while the id has one place it is the deletion everywhere; the tier invariant is kept |
| AppState.App.OnDragStartItem | app/page.tsx:298-307 | outside edit mode the drag is recorded (replacing any earlier one) and the global drag flag is set; in edit mode nothing changes |
| AppState.App.OnDragEndItem | app/page.tsx:309-314 | every trace of the drag is cleared, so no container shows a preview |
| AppState.App.HandleDragOverTier | app/page.tsx:316-320 | during a drag outside edit mode the hovered collection and index are recorded; otherwise nothing changes |
| AppState.App.OnDropItem | app/page.tsx:325-373 | with a drag recorded outside edit mode the board becomes `TierList.Commit` of the old one and the drag record and preview are cleared; otherwise nothing changes; the tier invariant is kept |
| AppState.App.ResetAll | app/page.tsx:375-387 | once confirmed the board is the start board with error flags cleared and edit mode is on; otherwise nothing changes |

## Left out

- `generateId()` and `window.confirm`: random, clock-based or interactive. Their results are
  parameters (`newId`, `confirmed`). Fresh ids are assumed where a lemma needs them.
- `localStorage` loading and saving, the theme switch, the settings context and class-name
  strings: I/O and styling.
- The gsap plumbing in app/components/ItemCard.tsx: the dynamic import, plugin registration,
  animation, `onPress`/`onRelease` forwarding and cleanup. Only the hit test is modelled.
- `FileReader`: reading a file is asynchronous I/O. Its outcomes are the callbacks
  `OnLoadEnd` and `OnFileReadError` (a failed read runs both, `ReadFails`), and the file size
  is a parameter.
- Resetting the file input's value after a too-large file: a DOM side effect.
- The in-file copy of the item form in app/page.tsx, which alerts instead of showing an error:
  the component in app/components/AddItemModal.tsx is the one modelled.
- Contrast.ByLuminance: the floating-point luminance `(0.299r + 0.587g + 0.114b) / 255 > 0.5`
  is modelled as the exact integer comparison `299r + 587g + 114b > 127500`. This is equal for
  exact arithmetic; the model does not capture binary rounding at the boundary.
- Contrast.LengthOnly: strings are sequences of Unicode scalar values, and `|s|` counts those,
  while JavaScript's `length` counts UTF-16 code units. A colour holding a character outside
  the Basic Multilingual Plane therefore has a different length in the model: `"#ab😀"` is
  three characters long here after the `#` goes and four in JavaScript, so the model answers
  white where the code answers black. The same holds for the other length and index
  computations on strings (`Trim`, `IndexOf`, `Contrast.Validated`).
- `console.warn`: the validating revision's warning is a boolean in its result.
- Contrast.Validated: the regular expression is modelled as "three or six hex digits". JavaScript
  regular-expression semantics in general are not modelled.
- Container.Rendered: only the number and kind of the children are modelled, not their markup.
- A tier whose id is the literal string "unranked": collection ids are a datatype, so such a tier
  is not confused with the pool as it would be in the source.
- The double save when Enter is followed by the field's blur: each handler call is modelled on
  its own.
- React's batching. Each functional updater is applied in call order to the state it receives.
  The `found`/`deletedInTiers` flags are read after the tier updater has run. The
  `FlagIrrelevant` lemmas show that the other reading order gives the same board whenever each
  id has one place.
- AppState.App.constructor and AppState.App.ResetAll: these do not state the tier invariant
  themselves. `TierList.InitialTiersValid` and `TierList.ResetBoardValid` state it for the boards
  they install.
- ItemForm.Form.OnOpen: `PreviewMatchesSave` is not claimed for an item opened on the URL tab,
  because its preview is the untrimmed URL and a submit saves the trimmed one.
