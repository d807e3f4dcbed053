# Carrot Console: storage helper and console state

A Dafny model of the local-data core of the Carrot Console classroom page.

**The `DB` helper.** This typed read/write layer sits over the browser's
string-to-string local storage.
- `set` stores the JSON text of a value.
- `get` parses the stored text back. It returns the caller's fallback when
  the key is missing, the stored text is empty, or the text does not parse.

**The console's state logic.** The model covers:
- the clip ledger kept under `cc_clips`. Saving appends an entry. The
  ledger is rendered newest first.
- the carrot and reset counters under `cc_carrots` and `cc_resets`, with
  the +1, +5 and reset-token buttons.
- the meter width.
- the weekly digest, a filter of the ledger by time stamp.
- the escaping of notes in the HTML export.
- the clear-all button.

The model has three modules.
- `JsonCodec` is the JSON value type together with the text that
  `JSON.stringify` produces and the parser standing for `JSON.parse`.
  - The round trip `Decode(Encode(v)) == Some(v)` is proved for every value
    whose objects have distinct keys.
  - Every value `Decode` returns is proved to have distinct keys: a repeated
    key keeps its first position and takes its last value, as `JSON.parse`
    does.
- `Db` models the storage as the class `LocalStorage`, with a map field
  that `SetItem` and `RemoveItem` update in place.
  - `Get` is a function of the stored map.
  - `Set` is a method that writes through the storage object.
- `Console` models the page as the class `ConsolePage`. It holds the shared
  storage and the two in-memory counters, and its invariant `Valid` ties the
  counters to what a page load reads from the store. The save, +1, +5,
  reset and clear-all handlers are methods that keep `Valid`.

The outside world becomes inputs.
- Time stamps come from `Date.now()` and become parameters: `ts` of
  `SaveClip`, and `cutoff` of `ComputeDigest` (now minus seven days).
- The recording's object URL is the `audio` parameter.
- The user's answer to the clear-all confirmation is the `confirmed`
  parameter.

Facts about the code that shape the model:
- `saveClip` appends the new clip at the end of the stored list, and the
  display reverses the list.
- Clear-all removes three keys: `cc_clips`, `cc_carrots` and `cc_resets`.
- The code keeps no settings record and has no import and no CSV export.

## Model

| member | source | states |
|---|---|---|
| JsonCodec.Encode | db.js:10 | The text of a value is never empty and starts like a JSON value. For every value with distinct object keys, `JSON.parse` of the text gives back the same value |
| JsonCodec.Decode | db.js:4 | Every value the parser returns has distinct keys in all its objects |
| JsonCodec.EscapedSurrogatePair | db.js:4 | The escaped UTF-16 pair `\ud83d\ude00` in a string literal reads as the one character U+1F600 |
| JsonCodec.Hex4 | db.js:4 | Four hexadecimal digits that read back as the given UTF-16 code unit |
| JsonCodec.SurrogatePairEscape | db.js:4 | Every supplementary character, escaped as its UTF-16 surrogate pair, reads back as that one character |
| JsonCodec.Prepend | db.js:4 | Merging a member into the members parsed after it keeps its key in front, at its first position, and adds at most one member |
| JsonCodec.PrependWellFormed | db.js:4 | Adding a member in front of parsed members keeps the keys distinct and every value well formed |
| JsonCodec.PrependLookup | db.js:4 | When a key is repeated in the parsed text, reading it gives the later value. Other keys read as before |
| Db.Get | db.js:2-8 | Reading never fails. With a fallback whose keys are distinct, the result's keys are distinct too |
| Db.Set | db.js:9-11 | The store maps the key to the JSON text of the value and nothing else changes. Afterwards `get` of that key returns the value, whatever the fallback |
| Db.LocalStorage.SetItem | db.js:10 | `setItem` overwrites exactly one key |
| Db.LocalStorage.RemoveItem | console.js:142-144 | `removeItem` deletes exactly one key. Removing a missing key changes nothing |
| Db.SetThenGet | db.js:2-11 | Round trip: `get(k, fb)` after `set(k, v)` is `v` for every fallback |
| Db.GetMissing | db.js:4 | A key never written yields exactly the fallback |
| Db.GetEmpty | db.js:4 | A stored empty string reads as if the key were absent |
| Db.GetMalformed | db.js:5-7 | Stored text that does not parse yields the fallback |
| Db.GetStored | db.js:4 | Stored text that parses yields its parsed value, which has distinct keys |
| Db.SetOtherKey | db.js:9-11 | Writing one key leaves what every other key reads unchanged |
| Db.LaterSetWins | db.js:9-11 | Of two writes to one key, `get` returns the later value |
| Console.ClipJson | console.js:43-48 | A saved entry is an object with distinct keys whose `ts`, `tag`, `note` and `audio` read back as given |
| Console.Ledger | console.js:49 | The ledger's elements have distinct keys. An empty store gives the empty ledger |
| Console.Trim | console.js:46 | The trimmed note is never longer than the input |
| Console.TrimSlice | console.js:46 | The trimmed note is a slice of the input with only whitespace on either side of it. The slice is empty or starts and ends with a non-whitespace character |
| Console.TrimIdempotent | console.js:46 | Trimming a trimmed note changes nothing |
| Console.DisplayOrder | console.js:57-62 | The rendered list has the ledger's length and its entries in reverse order. It fails exactly when the ledger is not a list or holds a null, whose `ts` the card template cannot read |
| Console.SavedClipShownFirst | console.js:49-62 | After a save, the new clip is displayed first, followed by the earlier display unchanged. If the old ledger holds a null, the display still fails |
| Console.SaveClipGrowsLedger | console.js:49-51 | After a save, the ledger is the old entries in order followed by the new one |
| Console.Percent | console.js:80 | The width is the carrot count modulo 100, between 0 and 99 for a non-negative count, between -99 and 0 for a negative one |
| Console.MeterAdvance | console.js:80-85 | Adding k carrots to a non-negative count advances the meter by k modulo 100 |
| Console.TsNumber | console.js:106 | The number `>=` compares for a `ts`: a number as itself, null as 0, false as 0 and true as 1. Strings, arrays and objects give no number |
| Console.InWindow | console.js:106 | The filter test throws exactly on null. It accepts an object exactly when its `ts` converts to a number that is at least the cutoff |
| Console.WindowEntries | console.js:106 | The filter keeps exactly the stored clips whose `ts` is at least the cutoff, and never grows the list. It fails exactly when the list holds a null |
| Console.WindowEntriesAppend | console.js:106 | The filter distributes over concatenation, so it keeps the stored order |
| Console.ComputeDigest | console.js:102-111 | The digest exists exactly when the ledger is a list without nulls. Its entries are the filtered ledger and its totals carry both counters and the entry count |
| Console.DigestAfterSave | console.js:102-111 | A clip saved inside the window is appended to the digest entries and adds one to the count. One saved before the cutoff changes neither |
| Console.ClipInWindow | console.js:106 | A saved clip passes the filter exactly when its time stamp is at least the cutoff |
| Console.SavedLedgerWindow | console.js:103-106 | For a ledger the console wrote, the window is exactly the saved clips with a time stamp at or after the cutoff, in saving order |
| Console.EscapeLt | console.js:116 | The escaped note is never shorter than the note |
| Console.EscapeLtChar | console.js:116 | A `<` becomes `&lt;` and every other character is kept. With EscapeLtAppend this fixes the escaped note exactly |
| Console.EscapeLtSafe | console.js:116 | No `<` is left. Text without `<` is unchanged |
| Console.EscapeLtAppend | console.js:116 | Escaping distributes over concatenation |
| Console.EscapeLtLength | console.js:116 | The escaped text is three characters longer for each `<` in the note |
| Console.NoteCell | console.js:116 | A note cell never contains `<`. A string note gives the note escaped, and an entry without a note gives the empty cell |
| Console.NoteCells | console.js:116 | The export succeeds exactly when every entry's note cell does. There is one cell per entry, in order |
| Console.NoteCellsHaveNoLt | console.js:116 | No cell of the exported table contains `<` |
| Console.SavedClipNoteCell | console.js:116 | A clip saved by the console exports its note escaped, without failing |
| Console.Counter | console.js:71-72 | A stored counter that is a number reads as that number. Any other value reads as 0 |
| Console.ConsolePage.Valid | console.js:71-72 | The in-memory counters equal what a page load reads. With no stored counter, the counter is 0 |
| Console.ConsolePage.WeeklyDigest | console.js:102-111 | `computeDigest()` on the page: it exists exactly when the stored ledger is a list without nulls. Its totals are the page's own counters and the entry count, and its entries are the filtered stored ledger |
| Console.ConsolePage.constructor | console.js:71-72 | The counters start as the stored values, 0 when absent |
| Console.ConsolePage.SaveClip | console.js:40-54 | The store holds the old ledger plus the new entry with the trimmed note. When the stored ledger is not a list, nothing is written. The counters are untouched |
| Console.ConsolePage.AddOne | console.js:84 | One more carrot, written to `cc_carrots`. Resets are unchanged |
| Console.ConsolePage.AddFive | console.js:85 | Five more carrots, written to `cc_carrots`. Resets are unchanged |
| Console.ConsolePage.ResetToken | console.js:87-88 | One more reset, written to `cc_resets`. Carrots are unchanged |
| Console.ConsolePage.ClearAll | console.js:140-146 | If confirmed, the three keys are removed, both counters are 0 and other keys remain. Otherwise nothing changes |
| Console.ClearedStoreLoadsEmpty | console.js:140-146 | After clear-all, a page load reads both counters as 0 and the ledger as empty |

## Left out

- Audio capture is not modelled. This covers `getUserMedia`, `MediaRecorder`, the recorder buttons (console.js:16-38) and the `Blob` and object URL. The URL is an input.
- DOM rendering is not modelled: the card markup of `renderClips`, the text of the counters and the style of the meter. The model keeps only the display order and the width value.
- `alert` and `confirm` are not modelled. The confirmation is an input.
- The file downloads in `exportHTML` and `exportJSON` are not modelled. Neither is the pretty-printed text of `exportJSON` nor the rest of the HTML page. Of the export, only the note cells are modelled.
- The reset-token cool-down animation (console.js:89-98) is not modelled. It changes only the bar's width for 60 seconds and never the counters or the store.
- Date arithmetic is not modelled. The time stamps and the cutoff are integers supplied by the caller.
- The digest's `generatedAt` field is not modelled.
- JsonCodec.Decode: numbers are integers only. The parser rejects fractions and exponents, so such text reads as the fallback where `JSON.parse` would accept it. Integers beyond 2^53, which JavaScript rounds, are exact here.
- JsonCodec.Encode: `JSON.stringify` writes integer-like object keys first, in ascending order. The model keeps the insertion order.
- JsonCodec.Decode: a `\u` escape of a lone surrogate is rejected. This covers a high surrogate that no escaped low surrogate follows, and a low surrogate on its own. `JSON.parse` accepts these and builds a string with an unpaired code unit, which a Dafny string of Unicode scalar values cannot hold. An escaped pair (a high surrogate escape followed by a low one) is decoded as its one character.
- Console.Trim: its own contract gives only the length bound. TrimSlice and TrimIdempotent state what the result is.
- Console.EscapeLt: its own contract gives only the length bound. EscapeLtChar (`<` becomes `&lt;`, every other character is kept) together with EscapeLtAppend fixes the result exactly.
- JsonCodec.Prepend: its contract gives only the position and the length. What each key reads after the merge is stated by PrependLookup.
- Db.Set: the model assumes that `setItem` always succeeds. In the browser it can throw, when the storage quota is exceeded or storage is disabled, and the exception leaves `DB.set` (db.js:10). The +1, +5 and reset-token handlers (console.js:84-88) raise the counter in memory before the write, so a failed write would leave the in-memory counter ahead of the stored one. Their `Valid` postcondition holds only because the write is assumed to succeed. In `saveClip` a failed write stores nothing new.
- A stored ledger that is not an array, such as `5`, `{}` or `null`, makes `renderClips` throw at console.js:59, because `slice` or `reverse` is not a function there. A ledger holding a null makes it throw at console.js:62. At page load (console.js:68) either throw stops the rest of the script, so the counters and buttons are never set up. The model still lets the constructor and every handler run.
- Console.TsNumber, Console.InWindow, Console.WindowEntries: a `ts` that is a string or an array is treated as NaN, so that clip is never in the window. JavaScript's `>=` would convert a numeric string such as `"5"` or an array such as `[7]` to a number.
- Console.InWindow, Console.DisplayOrder, Console.NoteCells: an object holding its own `toString` key that is not a function, such as `{"ts": {"toString": 0}}`, makes JavaScript's conversion to a primitive throw a TypeError. That happens in `c.ts >= …` (console.js:106) and when such a value is placed in the card or row templates (console.js:62, 116). The model does not look inside such values. `InWindow` answers false for them, and the display and the export succeed.
- Console.Counter, Console.ConsolePage.constructor: a stored counter that is not a JSON number is read as 0. JavaScript keeps the value as it is, and `+=` on a string then concatenates.
- The service worker and the lint configuration are not part of the core.
- The `False = false` assignment in `startRec` (console.js:24) is not part of this model.
