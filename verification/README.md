# Guild bank inventory dump — a Dafny model

The guild-bank web app keeps its state in a Pinia store,
`src/stores/bankStore.js`. An officer pastes the Lua saved-variables dump of
the bank characters. `parseData` then does the following:

- It re-indents the dump with `prettifyLua`.
- It walks the dump line by line. It recognises each character header, skips
  characters that are not on the allow list and skips `["equip"]` sections.
- It adds up item counts and money per character. It hands every counted
  item id to `scrapeItem`, which enriches the id from a cache or from a
  remote item lookup.
- It totals the money.
- Finally it writes the inventory documents and the gold/silver/copper split
  to Firestore.

This project models that core as pure functions over immutable data and
proves what the code promises.

The modules follow the store's structure:

- `Text`: the JavaScript string primitives the store relies on:
  - `trim` and the `\s` and `\d` classes;
  - `includes`, `split('\n')` and `join('\n')`;
  - `parseInt` of a digit run, `Number`/`String` of an id, and `toLowerCase`.
- `Normaliser`: `prettifyLua`, both as a reference definition (`Normalise`:
  each line is trimmed and indented by four spaces per level of brace
  nesting) and as the loop that computes it.
- `Patterns`: the regular expressions of the loop body, written out as
  leftmost matchers. These are the character header, the race/class/level
  fields, the indexed `[n] = "id::::::::x:::::::::;;count"` and bare item
  slots, and the money digit run.
- `Ledger`: the `inventories` object, which records characters in insertion
  order, with item counts and money per character.
- `Tracker`: one iteration of the `forEach`, as two parts. The tracker
  handles the header, the allow-list flag, the equip flag and opening the
  entry. The aggregator handles the field captures, items and money. Around
  them sit the whole loop (`RunLines`) and `parseData` up to the save phase
  (`ParseData`).
  - A line of an allow-listed character, outside an equip section, that
    contains `race`, `class` or `level` but does not match the field pattern
    makes `match(...)[1]` throw.
    This is modelled as the outcome `Failed(line, inventories)`, and
    `totalMoney` then stays at 0.
- `Runs`: laws of the whole loop:
  - runs compose and counts only grow;
  - disallowed characters and equip sections contribute nothing;
  - the header of an allow-listed character whose name contains one of those
    keys (e.g. "Grace") throws.
- `Currency`: the split `saveMoney` writes.
- `Enrichment`: `scrapeItem` and `itemQuality`. The cache is a map from item
  id to record. The cache query, the remote lookup, the icon download and the
  cache write are oracle outcomes in a `World`.
- `Records`: the data transforms around Firestore:
  - the documents `saveParsedItems` writes, under `${character}_${itemId}`;
  - the chunks of ten ids `getScrapedItemsByIds` queries with;
  - `isItemReserved` over the list `fetchReservedItems` stores;
  - the lower-cased allow list `fetchAllowedCharacters` stores.
- `Examples`: concrete instances of the laws.

I/O, the network, Firestore, `console` output and Pinia are not modelled.
Their results are parameters instead: the allow list is an argument of the
parse, and the outcomes of the foreign calls are a `World`.

## Model

| member | source | states |
|---|---|---|
| Text.Split | src/stores/bankStore.js:50 | `split('\n')` yields at least one piece, no piece holds a line feed, and joining the pieces with line feeds gives back the input |
| Text.SplitJoin | src/stores/bankStore.js:148-168 | splitting the join of newline-free lines gives back exactly those lines, so `parseData` sees the lines `prettifyLua` produced |
| Text.StripCarriageReturn | src/stores/bankStore.js:63 | `replace(/\r$/, '')` removes exactly one trailing carriage return and leaves any other line unchanged |
| Normaliser.PrettifyLines | src/stores/bankStore.js:147-169 | the `map` with its running `indentLevel` computes the reference normalisation: each trimmed line behind four spaces per level of nesting |
| Normaliser.NormaliseShape | src/stores/bankStore.js:155-165 | the line count is kept; every output line trims back to its trimmed input line, and its leading spaces are four times its nesting depth |
| Normaliser.IndentationStep | src/stores/bankStore.js:157-163 | the next line's indentation is the previous line's level, plus one if that line ends with `{`, minus one (floored at zero) if the next line closes a table |
| Normaliser.NormaliseIdempotent | src/stores/bankStore.js:147-169 | normalising an already normalised dump changes nothing |
| Normaliser.PrettifyLua | src/stores/bankStore.js:147-169 | splitting the prettified dump gives the normalised lines of the input, one per input line |
| Normaliser.NormalisedHasNoCarriageReturn | src/stores/bankStore.js:63 | on prettified lines the `\r$` replacement is a no-op, because `trim` already removed any carriage return |
| Patterns.HeaderName | src/stores/bankStore.js:64 | a header capture is a non-empty letters-only name, and the line is eight white-space characters, `["`, the name and `"] = {` |
| Patterns.HeaderNameOfHeaderLine | src/stores/bankStore.js:64 | conversely, every such line is a header that captures that name |
| Patterns.HeaderEquipMarker | src/stores/bankStore.js:64-74 | a header line contains `["equip"]` exactly when the character is named `equip` |
| Patterns.HeaderMatchesNoField | src/stores/bankStore.js:87-99 | no race, class or level field pattern matches a header line at any single position |
| Patterns.HeaderContainsNamePart | src/stores/bankStore.js:87-98 | a key inside a header's name makes the line's `includes` test for that key succeed |
| Patterns.FieldCrash | src/stores/bankStore.js:87-100 | a line can throw only if it contains `race`, `class` or `level` |
| Patterns.QuotedFieldOfText | src/stores/bankStore.js:88-93 | `["key"] = "v",` with a non-empty value free of `"` matches the quoted field pattern at its `[` |
| Patterns.NumberFieldOfText | src/stores/bankStore.js:98 | `["key"] = digits,` matches the numeric field pattern at its `[` |
| Patterns.FieldLineMatches | src/stores/bankStore.js:87-99 | a line holding a well-formed field has a match for that field's pattern, so `match(...)[1]` is defined |
| Patterns.FieldLineNoCrash | src/stores/bankStore.js:87-100 | a line holding a well-formed `["race"] = "v",`, `["class"] = "v",` or `["level"] = digits,`, and none of the other two keys, does not throw |
| Patterns.LineItem | src/stores/bankStore.js:103-108 | an item capture's id is a non-empty digit string |
| Patterns.LineItemSlot | src/stores/bankStore.js:103-110 | conversely, every item a line yields is spelled on that line as a well-formed slot `id::::::::x:::::::::;;count` with that id, and its count is `parseInt` of the slot's count digits, or 1 when they are empty; the slot is closed by `"` or the line holds no `[` |
| Patterns.ItemBodySpelled | src/stores/bankStore.js:103-104 | a match of `(\d+):{8}\d+:{9};*(\d*)` at a position spells a slot there, ending where no further digit follows |
| Patterns.IndexedItemSpelled | src/stores/bankStore.js:103 | a match of the indexed pattern spells a slot that is followed by `"` |
| Patterns.ItemBodyNeedsEightColons | src/stores/bankStore.js:103-104 | a digit run followed by a colon run of any length but eight is no item body |
| Patterns.IndexedItemWithoutBody | src/stores/bankStore.js:103 | an entry `[n] = "` whose quoted text is no item body is no indexed match |
| Patterns.FirstBracketOnly | src/stores/bankStore.js:103-106 | a line whose only `[` opens it, where the indexed pattern fails, yields no item, since the bare pattern is not tried |
| Patterns.BareItemLine | src/stores/bankStore.js:104-116 | on a line without `[` whose first digit starts a well-formed slot, that slot's id is captured, with `parseInt` of its count or 1 when the count is empty |
| Patterns.IndexedItemLine | src/stores/bankStore.js:103-116 | an entry `[n] = "<slot>"` whose `[` is the first on its line captures the slot's id and count, whatever follows |
| Patterns.LineMoney | src/stores/bankStore.js:126-131 | a line yields money exactly when it contains `money` and some digit |
| Patterns.MoneyLine | src/stores/bankStore.js:126-131 | such a line adds the value of its first maximal digit run |
| Ledger.Open | src/stores/bankStore.js:80-82 | an allow-listed character without an entry gets an empty one at the end of the insertion order; nothing else changes, and an existing entry is left alone |
| Ledger.AddItem | src/stores/bankStore.js:113-116 | the count of that character's item rises by the count; every other count, all money and the total stay the same; the item becomes held |
| Ledger.AddMoney | src/stores/bankStore.js:126-130 | that character's money and the total rise by the amount; all other money and every count stay the same |
| Ledger.SumMoneyBounds | src/stores/bankStore.js:136 | each summed entry's money is at most the sum, and the sum is zero exactly when every summed entry has none |
| Ledger.TotalMoneyBounds | src/stores/bankStore.js:136 | the total covers every character's money, and it is zero exactly when no character has any |
| Tracker.Classify | src/stores/bankStore.js:63-131 | the facts of a line are consistent: a header name is letters only, carries the equip marker exactly when it is "equip", and holds no `},`; an item id is digits |
| Tracker.HeaderMarkers | src/stores/bankStore.js:64-78 | on every line that is a header, `["equip"]` is present exactly for the name "equip" and, beyond that, `},` is absent |
| Tracker.Track | src/stores/bankStore.js:64-82 | tracking keeps the loop invariant, only extends the ledger, and dispatches nothing |
| Tracker.TrackFlags | src/stores/bankStore.js:64-78 | a header takes over the name and the allow-list verdict, and leaves the equip section unless named "equip"; otherwise `["equip"]` opens the section, `},` closes it, and other lines keep it |
| Tracker.TrackLedger | src/stores/bankStore.js:80-82 | tracking changes no count or money; it adds exactly the current allow-listed character's entry when that entry is missing |
| Tracker.Counted | src/stores/bankStore.js:112 | an item is counted exactly when its id's numeric value is not the hearthstone's 6948 |
| Tracker.AddLineItem | src/stores/bankStore.js:103-123 | the item step keeps the invariant and the characters, and extends the ledger |
| Tracker.AddLineItemLaws | src/stores/bankStore.js:108-123 | the item step adds the counted item to the current character's count and to the dispatched ids, and changes nothing else |
| Tracker.AddLineMoney | src/stores/bankStore.js:126-131 | the money step adds the line's money to the current character and to the total, and changes no count |
| Tracker.Absorb | src/stores/bankStore.js:102-131 | a line that does not throw keeps the invariant, the name, the flags and the set of characters |
| Tracker.AbsorbCounts | src/stores/bankStore.js:102-123 | a line adds its counted item to the current character's count and to the dispatched ids, and changes no other count |
| Tracker.AbsorbMoney | src/stores/bankStore.js:126-131 | a line adds its money to the current character and to the total, and changes no other character's money |
| Tracker.Extract | src/stores/bankStore.js:84-133 | a line throws exactly when the character is allow-listed, outside an equip section, and a field capture fails; nothing happens outside an allow-listed non-equip section; otherwise the line is absorbed |
| Tracker.Step | src/stores/bankStore.js:62-134 | one iteration keeps the invariant and extends the ledger; a throw leaves a recorded ledger |
| Tracker.RunLines | src/stores/bankStore.js:62-134 | the loop ends with the invariant and an extended ledger, or throws at a line inside the input with a recorded ledger |
| Tracker.ParseLines | src/stores/bankStore.js:62-136 | every ledger holds only allow-listed characters with letters-only names, and countable ids; after a full run the total is the sum of the characters' money; every dispatched id is countable |
| Tracker.ParseData | src/stores/bankStore.js:44-136 | the same for the raw dump: the ledger holds only allow-listed, letters-only names and countable ids; after a full run the total is the sum of the money and every dispatched id is countable; a throw is reported at a line of the dump |
| Runs.RunAppend | src/stores/bankStore.js:62-134 | after a prefix that does not throw, the rest runs from the state the prefix left, and a throw is reported at its position in the whole input |
| Runs.PrefixExtends | src/stores/bankStore.js:62-134 | counts and money never go down as more lines are read |
| Runs.PrefixExtendsCrash | src/stores/bankStore.js:62-134 | a throw after a prefix that ran through happens inside the rest, and what the prefix counted is still in the partial ledger |
| Runs.SilentOutsideAllowed | src/stores/bankStore.js:80-84 | lines without a header, read while no allow-listed character is current, change neither the ledger nor the dispatched ids |
| Runs.DisallowedSectionSilent | src/stores/bankStore.js:64-84 | a character who is not on the allow list contributes nothing, from the header up to the next one |
| Runs.SilentInEquip | src/stores/bankStore.js:72-84 | inside an equip section nothing is extracted until a `},` line or a header |
| Runs.StepGain | src/stores/bankStore.js:84-131 | a line that does not throw adds to each count its counted capture, and to each character's money its money, when it is read for that character outside an equip section, and nothing otherwise |
| Runs.RunGain | src/stores/bankStore.js:62-131 | after a run that does not throw, each character's count of an id is its count before plus the counted captures of that id on the character's extracted lines, and likewise for money |
| Runs.ParsedGain | src/stores/bankStore.js:113-131 | after a parse that does not throw, a character's count of an id is exactly the sum of those captures, and its money the sum of the money on its extracted lines |
| Runs.HeaderNoFieldMatch | src/stores/bankStore.js:87-99 | lifted to the whole line: the leftmost search for any field pattern on a header line finds nothing, so its `match` is `null` |
| Runs.HeaderCrash | src/stores/bankStore.js:64-100 | the header of an allow-listed character whose name contains `race`, `class` or `level` throws |
| Runs.NormalisedHeaderDepth | src/stores/bankStore.js:64 | in prettified output, a line the header pattern accepts sits at nesting depth two |
| Currency.SplitMoney | src/stores/bankStore.js:271-273 | the split is worth the total, and silver and copper are each below 100 |
| Currency.SplitUnique | src/stores/bankStore.js:271-273 | any purse with silver and copper below 100 is the split of what it is worth, so the split is the unique reduced purse |
| Enrichment.ItemQuality | src/stores/bankStore.js:211-222 | the rank is within the table, and any name outside the table gets Common's rank 1 |
| Enrichment.ItemQualityOfName | src/stores/bankStore.js:212-221 | each table name maps to its own position, Poor to Legendary being 0 to 5 |
| Enrichment.ItemQualityNamed | src/stores/bankStore.js:212-221 | a rank other than 1 comes only from its own table name |
| Enrichment.Placeholder | src/stores/bankStore.js:199-207 | the fallback record carries the requested id, Common quality, no icon, url `#`, and the name `Unknown Item (id)` |
| Enrichment.Resolve | src/stores/bankStore.js:171-208 | a cache hit returns the stored record without a lookup; the lookup is contacted exactly after a successful query that misses; the cache only ever gains the returned record under the requested id |
| Enrichment.ResolveItem | src/stores/bankStore.js:171-208 | a failed query, lookup or download returns the placeholder `Unknown Item (id)`; otherwise the record is built from the lookup |
| Enrichment.ResolveCache | src/stores/bankStore.js:329-336 | the cache changes exactly when a miss is followed by a successful lookup, download and write, and then it gains the built record |
| Enrichment.ResolveKeyed | src/stores/bankStore.js:173-179 | against a cache keyed by item id, the returned record carries the requested id and the cache stays keyed |
| Enrichment.ResolveQuality | src/stores/bankStore.js:187-193 | every returned or stored rank is one of the table's |
| Enrichment.ResolveStored | src/stores/bankStore.js:173-179 | once a record is stored, every later call whose query succeeds returns it without a lookup |
| Records.DocId | src/stores/bankStore.js:245 | the doc id is the name, then `_`, then the item id: its prefix is the name, the next character `_` and the rest the item id |
| Records.DocIdInjective | src/stores/bankStore.js:245 | a letters-only name and a digit id can be read back from their doc id |
| Records.FlattenDistinct | src/stores/bankStore.js:243-251 | no two inventory documents share an id, and every held item is written with its count |
| Records.Flatten | src/stores/bankStore.js:243-251 | every held item is written, and every write is a held item's document: its id joins the character and the item key, `item_id` is the key's number and `count` the item's count |
| Records.FlattenCountable | src/stores/bankStore.js:243-251 | a parsed ledger has digit ids and letters-only names, as the distinctness law needs; every document names one of its characters, and none has the hearthstone's id |
| Records.ParsedWritesDistinct | src/stores/bankStore.js:243-251 | saving what the parse counted writes every held item, and no two writes share a document id |
| Records.WriteIdSpelling | src/stores/bankStore.js:249 | `Number(itemId)` loses nothing for an id without leading zeros: its spelling is the id |
| Records.Chunks | src/stores/bankStore.js:299-302 | the chunks concatenate to the ids, hold one to ten ids each, are all full except the last, and there are ceil(n/10) of them |
| Records.ChunkIds | src/stores/bankStore.js:299-302 | the loop stepping `i` by ten builds those chunks |
| Records.ChunksUnique | src/stores/bankStore.js:299-302 | any chunking with those properties is the chunking of the ids |
| Records.ReservedList | src/stores/bankStore.js:416-423 | the stored reserved list holds every id as a string, in order |
| Records.IsItemReserved | src/stores/bankStore.js:395-398 | an id that is itself on the list is reserved; on a list of strings an id is reserved exactly when its `String` spelling is listed |
| Records.ReservedBySpelling | src/stores/bankStore.js:395-398 | on that list an item is reserved exactly when its spelling equals a stored id's spelling |
| Records.ReservedNumberOrString | src/stores/bankStore.js:395-398 | a number and its decimal spelling are reserved alike |
| Records.AllowList | src/stores/bankStore.js:401-408 | the stored allow list holds every name as a lower-cased string, in order |
| Records.AllowListedIgnoringCase | src/stores/bankStore.js:401-408 | a header name is allow-listed exactly when it equals a stored name up to case, and its own case does not matter |
| Examples.SplitExamples | src/stores/bankStore.js:271-273 | 150000 copper is 15 gold; 1234567 copper is 123 gold, 45 silver and 67 copper |
| Examples.QualityExamples | src/stores/bankStore.js:211-222 | Epic ranks 4; an unlisted name such as Artifact ranks 1 |
| Examples.PlaceholderExample | src/stores/bankStore.js:199-208 | a failed lookup for item 19019 yields `Unknown Item (19019)`, quality 1, no icon, url `#` |
| Examples.GraceCrashes | src/stores/bankStore.js:64-94 | the header of an allow-listed character called Grace throws |
| Examples.ReservedExample | src/stores/bankStore.js:395-398 | a stored number 6948 reserves "6948" but not "06948" |
| Examples.SingleColonSlotCountsNothing | src/stores/bankStore.js:103-108 | the entry `[6] = "12345:0:0:0:0:0:0:0;3"` yields no item |
| Examples.LevelLineReads | src/stores/bankStore.js:97-100 | the line `        ["level"] = 60,` does not throw |

## Left out

- Firestore traffic is not modelled. This covers the deletes and writes of `saveParsedItems`, its per-item error swallowing and the save-phase `try`/`catch`. It also covers `getScrapedItemById`, `getAllInventoryItems`, `upsertScrapedItem`, `updateLastUpdatedTime`, `getLastUpdatedTime`, `bankGold`, `init` and the queries of `getScrapedItemsByIds`. Only the pure data they compute is modelled: the set of inventory documents, the money split and the chunks.
- The network calls are not modelled: the remote item lookup, the icon download and `btoa`. Their outcomes are fields of a `World`, and the base64 text of the icon is given.
- `scrapeItem` is dispatched without being awaited. The parse records the dispatched ids in order. `Resolve` models one call on its own; concurrent calls racing on the cache are not modelled.
- Pinia state, `localStorage`, `console` output, `this.inventory.value = []` and the `output` object of race/class/level captures are not modelled. Of each capture, only whether it throws is kept.
- Tracker.ParseData: after a throw, the ids dispatched before the failing line are not reported. Their `scrapeItem` calls still run in the program.
- `\p{L}` is modelled on the Latin-1 range only. Letters beyond U+00FF are not letters here, so such names are not headers in the model.
- Text.Lower: `toLowerCase` is modelled on the Latin-1 range only. Characters beyond U+00FF are left unchanged.
- JavaScript numbers are not modelled beyond 2^53. Counts and money are unbounded naturals, while `parseInt` and the sums lose precision above that bound.
- Records.AsNumber: `Number` of a string is modelled only for digit strings. Any other string (empty, spaced, hexadecimal, exponent) is treated as having no number. On the reserved list as stored this does not matter: `Records.ReservedBySpelling` shows that only the string comparison can succeed there.
- Stored field values: only strings and whole numbers are modelled as stored field values. Fractional numbers, `null` and missing fields are not.
- Enrichment.ResolveKeyed: the query `where('item_id', '==', id)` is modelled as a lookup at key `id`. This requires the cache to hold every record under its own id, which `insertScrapedItem` ensures for records it writes but the model assumes for the existing collection.
- The fields of the lookup response are taken to be strings.
- Object keys that clash with JavaScript prototype properties are not modelled. A character called `constructor` would make `!this.inventories[name]` false before the entry exists. A quality name `constructor` or `toString` would make `map[qualityName] ?? 1` in `itemQuality` yield a function instead of 1.
- A line whose slot has single colons between fields (`[6] = "12345:0:0:0:0:0:0:0;3"`) matches neither item pattern, so it counts nothing (`Examples.SingleColonSlotCountsNothing`).
