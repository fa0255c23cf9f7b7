# Travel assistant core, modelled in Dafny

The travel assistant keeps two things about each traveller:

- **Confirmed trip preferences.** These are a dictionary of `destination`, `season`, `group_size` and `budget` strings.
- **The chat history.**

After each user message, a structured-extraction call may return new values for the four fields. `_merge_preferences` folds them into the dictionary:

- A destination is first snapped onto a table of known place names by `normalize_destination`.
- A season is lower-cased.
- Numbers are stored as their decimal strings.

`preferences_to_text` renders the dictionary as the sentence placed in the system prompt. `PersistentMemory` stores both parts in a JSON state file. It rebuilds the chat history from `{type, content}` records when it loads, and writes it back out the same way when it saves.

The project models that core:

- `wrappers.dfy`: the `Option` type.
- `ascii_text.dfy`: the parts of Python's `str` the core relies on. These are `strip`, `title`, `lower`, `startswith` and `str(int)`, over ASCII.
- `corrections.dfy`: `normalize_destination`, and the comprehension that cleans the destinations file into the known table.
- `extraction.dfy`:
  - `TripPreferences`.
  - The preference dictionary, as an insertion-ordered list of entries with unique keys.
  - `_merge_preferences`, as a method proved equal to a fold of dictionary assignments.
  - The fallback rule of `extract_preferences`.
  - `preferences_to_text`.
- `memory.dfy`:
  - The stored-record codec, as loop methods proved equal to reference functions.
  - The load defaults and the `save` payload.
  - The `PersistentMemory` class.

## Model

| member | source | states |
|---|---|---|
| Corrections.CleanKnown | utils/corrections.py:18-19 | the table contains the stripped, title-cased form of every list item, and nothing else |
| Corrections.KnownEntriesAreClean | utils/corrections.py:19 | every name in the loaded table is unchanged by stripping and title-casing it again |
| AsciiText.TitleIdempotent | utils/corrections.py:33 | `title()` applied twice equals `title()` applied once |
| AsciiText.Strip | utils/corrections.py:33 | the result is a slice of the input with only whitespace before and after it; it has no whitespace at either end, and it is empty exactly when the input is all whitespace |
| AsciiText.Title | utils/corrections.py:33 | a letter is upper-cased when it starts the string or follows a non-letter, lower-cased otherwise; every other character is kept |
| Corrections.Normalize | utils/corrections.py:28-46 | an empty value comes back as it is; otherwise the result is the cleaned value or a known name; an exact member, an empty table or no prefix match gives the cleaned value; a different result is a name the cleaned value is a case-insensitive prefix of |
| Corrections.NormalizeDestination | utils/corrections.py:28-46 | the guard sequence and the first-match search loop return exactly `Normalize(value, known)` |
| Corrections.FirstPrefixMatch | utils/corrections.py:42-44 | the index found is the first, in iteration order, whose lower-cased name starts with the lower-cased stem; none is found only if no name matches |
| Corrections.NormalizePicksFirstMatch | utils/corrections.py:38-44 | when the cleaned value is not in the table, the result is the first prefix match in iteration order |
| Corrections.WhitespaceOnlyPicksKnown | utils/corrections.py:30-44 | a non-empty, all-whitespace value cleans to "", which prefixes every name, so the result is a known name: the first one unless "" is in the table |
| Corrections.NormalizeIsClean | utils/corrections.py:28-46 | against a table of clean names, every result is stripped and title-cased |
| Corrections.NormalizeAgainstLoadedTableIsClean | utils/corrections.py:19-46 | against the table loaded from any destinations list, in any iteration order, every result is stripped and title-cased |
| AsciiText.IntToDecimal | agent/extraction.py:63-67 | `str(n)` is an optional minus sign followed by decimal digits, with the sign present exactly for negative numbers and no leading zero except for 0 itself |
| AsciiText.IntDecimalRoundTrip | agent/extraction.py:63-67 | `int(str(n)) == n` for every integer, so the stored group size and budget lose nothing |
| Extraction.Assign | agent/extraction.py:58-67 | `m[k] = v` replaces the value in place for an existing key, and appends the entry at the end for a new key |
| Extraction.AssignLookup | agent/extraction.py:58-67 | after `m[k] = v`, `k` maps to `v` and every other key keeps its value |
| Extraction.AssignAllKeys | agent/extraction.py:55-67 | a run of assignments keeps the existing keys in their order and appends the new keys in assignment order |
| Extraction.MergePreferences | agent/extraction.py:51-69 | the copy-then-four-conditional-assignments method returns exactly the reference fold `Merged` |
| Extraction.MergedLookup | agent/extraction.py:57-67 | the merged map stores a supplied (non-empty) destination normalised and a supplied season lower-cased; it stores a present group size or budget as `str(n)`, including 0 and negative values; absent or empty fields and all other keys keep their current values |
| Extraction.MergedKeys | agent/extraction.py:55-67 | merging never removes or reorders keys; only the newly supplied field keys are appended |
| Extraction.MergedKeepsOtherEntries | agent/extraction.py:55-69 | an entry whose key is none of the four field names keeps both its position and its value |
| Extraction.MergeNothingSupplied | agent/extraction.py:57-69 | an extraction with every field absent, or with empty destination and season strings, returns the map unchanged |
| Extraction.MergeIdempotent | agent/extraction.py:51-69 | merging the same extraction twice gives the same map as merging it once |
| Extraction.ExtractPreferences | agent/extraction.py:72-83 | a failed extraction returns the current map unchanged; a successful one returns the merge |
| Extraction.PreferencesToText | agent/extraction.py:86-91 | the "no preferences" sentence is returned exactly for the empty map; any other map renders as the confirmed lead-in, the entries joined, and a full stop |
| Extraction.JoinEntriesSnoc | agent/extraction.py:90 | the entries are joined in insertion order: a run of two or more entries renders as the join of all but the last, `", "`, and `key: value` of the last |
| Extraction.JoinConcat | agent/extraction.py:90 | joining two non-empty runs of entries puts exactly one `", "` between them |
| Extraction.RenderAppend | agent/extraction.py:90-91 | rendering follows insertion order: a key newly added to a non-empty map is rendered last, after a comma |
| Extraction.RenderSingle | agent/extraction.py:90-91 | a one-entry map renders as the lead-in, `key: value`, and a full stop |
| Memory.TurnOf | agent/memory.py:56-61 | a record yields a turn exactly when its type is `human` or `ai`; the role follows the type; a missing content becomes "" |
| Memory.HistoryFromMessages | agent/memory.py:53-62 | the loop over the records returns exactly `DecodeHistory(messages)` |
| Memory.MessagesFromHistory | agent/memory.py:64-72 | the loop over the turns returns exactly `EncodeHistory(history)`: one tagged record per turn, in order |
| Memory.DecodeConcat | agent/memory.py:55-61 | decoding keeps record order: decoding a concatenation is the concatenation of the decodings |
| Memory.DecodeLength | agent/memory.py:55-61 | the history is never longer than the records, and it is equally long exactly when every type is known |
| Memory.DecodeAt | agent/memory.py:55-61 | when every type is known, the i-th turn is the i-th record read back |
| Memory.HistoryRoundTrip | agent/memory.py:53-72 | serialising a history and reading it back gives the same history |
| Memory.LoadedPreferences | agent/memory.py:26-27 | the preferences start empty when the file is missing or undecodable or has no `preferences` key, and are the stored map otherwise |
| Memory.LoadedHistory | agent/memory.py:26-28 | the history starts empty when the file is missing or undecodable or has no `history` key; otherwise it is the decoding of the stored records |
| Memory.SaveLoadRoundTrip | agent/memory.py:22-34 | loading the payload that `save` writes restores the same preferences and the same history |
| Memory.PersistentMemory.constructor | agent/memory.py:22-28 | the new store holds the loaded preferences (default empty) and the history decoded from the stored records (default empty) |
| Memory.PersistentMemory.Save | agent/memory.py:30-34 | the payload is exactly the current preferences plus the serialised history, and loading it back restores both fields |
| Memory.PersistentMemory.Reset | agent/memory.py:38-41 | both fields become empty, and the saved payload is an empty preference map plus an empty history |

## Left out

- The language-model extraction chain (prompt, model call, output parser). `ExtractPreferences` instead takes the outcome as a parameter, where `None` stands for any exception raised by the chain.
- The debug logging in the failure paths. `utils/logger.py` is not part of this model.
- File I/O and JSON encoding and decoding. The destinations file becomes a list of strings. The state file becomes `Option<Document>`, where `None` stands for a missing file or a `JSONDecodeError`. `Save` returns the payload instead of writing it, and `mkdir` is not modelled.
- `_load_known_destinations`: a missing file, a decode error or a non-list document gives the empty set. Only the list branch is modelled, as `CleanKnown`; the empty set is the `known == []` case of `Normalize`. `str(item)` on non-string items is not modelled, because list items are taken as strings.
- Corrections.Normalize: the module-global table becomes a parameter. Set iteration order is unspecified in Python, so the table is a list of distinct names in iteration order. The first-match result is therefore stated relative to that order.
- Python `str` over all of Unicode. Whitespace, letters and case mapping are modelled for ASCII only, so non-ASCII cased letters are treated as non-letters by `title()` and `lower()`.
- Exceptions other than `JSONDecodeError` while loading, and a stored `preferences` value that is not a string-to-string object. A record whose `content` is an explicit `null` is not modelled either; a missing key is `None`.
- Memory.MessagesFromHistory: history messages other than human and AI messages, such as system messages, are dropped by the source. A `Turn` here is always one or the other, so that branch does not arise.
- Extraction.MergePreferences: the `copy()` of the dictionary is implicit, because maps are values here and the caller's map is never changed.
- `agent/conversation.py` and `main.py` (the chat loop and the command-line interface) are not part of this model.
