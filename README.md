# Invoice processing: a Dafny model of its core rules

The repository is a Flask invoice service. Gemini extracts invoice fields from
an image. A FAISS index and a metadata list answer semantic searches, and web
routes shape the stored invoices into table rows and listings. This project
models the parts of that code that follow fixed rules, and proves what those
rules promise.

- `VectorStore` (vector_store.dfy) models the module-level FAISS index and its
  `metadata` ledger as a `Store` class with two position-parallel sequences.
  `AddInvoice` appends one vector and one record. `SearchInvoices` runs the
  guarded loop that maps search positions back to records. The embedding model,
  `json.dumps` and the flat index's search are function values passed to the
  constructor. The flat index's contract is a predicate: asked for k > 0
  positions it returns exactly k, padded with -1 past the number of stored
  vectors; asked for none it raises.
- `GeminiExtractor` (gemini_extractor.dfy) covers the clean-up of the model's
  reply:
  - removing the markdown fences;
  - appending the missing `}` and `]`;
  - handing the result to `json.loads`;
  - building the output file name from `os.path.basename` and
    `os.path.splitext`.
- `App` (app.dfy) holds the record rules of the web layer:
  - `table_page` flattens nested and legacy invoices into ten-key rows;
  - `submit_selected` picks rows by submit button and checkboxes;
  - `get_all_invoices` applies the tenant filter;
  - `/mobile-upload` projects the extracted fields into a row;
  - `rsplit` derives the `.json` file name.
- `Text` (text.dfy) models the Python string primitives these rely on:
  `str.isspace`, `strip`, `count`, `*` on strings, the last index of a
  character, `int()` on a string and `str()` on an int.
- `JsonValues` (json_values.dfy) holds the JSON values, `dict.get` and `str()`.
  `Optional` (optional.dfy) holds the option type.

## Model

| member | source | states |
|---|---|---|
| VectorStore.Store.constructor | vector_store.py:22-24 | A fresh start (no index file) has an empty index and an empty ledger, and the store invariant holds. |
| VectorStore.Store.AddInvoice | vector_store.py:31-50 | The invariant is kept: equal lengths, vector i is the embedding of record i's text, and that text is the serialised invoice. A vector of the index's dimension 384 is added, and then exactly one vector and one record with the given filename, tenant, location, timestamp, data and embedded text are appended. Earlier entries are unchanged. Otherwise nothing changes. |
| VectorStore.Store.SearchInvoices | vector_store.py:55-62 | Changes neither index nor ledger (no `modifies`). With a well-sized query the result is `Resolve` of the search positions. It fails exactly for a query of another dimension, for top_k = 0 (the index refuses it) or for an empty ledger. Otherwise it gives at most top_k results, each a ledger record. |
| VectorStore.Resolve | vector_store.py:58-62 | The loop as written: at most one result per position, and every result is a ledger record. |
| VectorStore.Kept | vector_store.py:59-60 | The positions that pass `i < len(metadata)`: a position is kept exactly when it was returned and is below the ledger length. |
| VectorStore.ResolveHits | vector_store.py:58-62 | The loop over the search positions yields exactly `Resolve` of them. |
| VectorStore.ResolveIsFilterThenIndex | vector_store.py:58-61 | The loop succeeds exactly when every kept position is at least -n. It then yields, in order, one record per kept position, with Python's negative indexing applied. |
| VectorStore.ResolveFlatHits | vector_store.py:57-61 | On what a flat index returns for top_k > 0, the loop fails exactly when the ledger is empty. |
| VectorStore.ResolvePaddingRepeatsLast | vector_store.py:59-61 | With 0 < n < top_k stored invoices, the loop returns top_k results, and every slot from n on is the last ledger record. |
| VectorStore.ResolveGuarded | vector_store.py:59-61 | The corrected loop (`0 <= i < n`): at most one result per position, each a ledger record. |
| VectorStore.ResolveGuardedFlatHits | vector_store.py:57-61 | On what a flat index returns, the corrected loop yields exactly min(top_k, n) results, result j being the record at returned position j. |
| VectorStore.Entry.AsRecord | vector_store.py:43-50 | The stored dictionary has exactly the six keys filename, tenant_id, location, timestamp, data and text, holding the given values. |
| VectorStore.Snapshot | vector_store.py:26-29 | The saved ledger has one dictionary per entry, in ledger order. |
| Text.TrimLeft | gemini_extractor.py:93 | lstrip: no longer than its argument; empty or starting with a non-space, and ending where the argument ends. |
| Text.TrimLeftDropsSpace | gemini_extractor.py:93 | Everything lstrip drops is whitespace. |
| Text.TrimRight | gemini_extractor.py:93 | rstrip: no longer than its argument; empty or ending with a non-space, and starting where the argument starts. |
| Text.TrimRightDropsSpace | gemini_extractor.py:93 | Everything rstrip drops is whitespace. |
| Text.TrimLeftIsSuffix | gemini_extractor.py:93 | What lstrip leaves is a suffix of its argument. |
| Text.TrimRightIsPrefix | gemini_extractor.py:93 | What rstrip leaves is a prefix of its argument. |
| Text.TrimLeftPadded | gemini_extractor.py:93 | lstrip removes exactly the whitespace put in front of text that starts with a non-space. |
| Text.TrimRightPadded | gemini_extractor.py:93 | rstrip removes exactly the whitespace put after text that ends with a non-space. |
| Text.Strip | gemini_extractor.py:93 | strip() is no longer than its argument and leaves no whitespace at either end. |
| Text.StripPadded | gemini_extractor.py:93 | strip() undoes whitespace padding: trimmed text padded with whitespace on both sides strips back to itself. |
| Text.StripUntrimmed | gemini_extractor.py:93 | Text with no whitespace at either end is its own strip. |
| Text.Count | gemini_extractor.py:97-100 | str.count of one character is at most the length, and zero exactly when the character is absent. |
| Text.CountAppend | gemini_extractor.py:97-105 | Counting over a concatenation adds the counts of the parts. |
| Text.Repeat | gemini_extractor.py:103-105 | `c * n` has length n and holds only c. |
| Text.CountRepeat | gemini_extractor.py:103-105 | `c * n` contains n copies of c and none of any other character. |
| Text.LastIndexOf | app.py:506 | None exactly when the character is absent; otherwise an index of that character with no later occurrence. |
| Text.LastIndexOfUnique | app.py:506 | Conversely, an occurrence with none after it is the one rsplit splits at. |
| Text.NatToString | app.py:253 | str() of a non-negative int is non-empty, all digits, without a leading zero unless it is "0", and its digits denote the number. |
| Text.ParseIntRoundTrip | app.py:253 | int() reads back every string str() writes for an int of at most 4300 digits. |
| Text.ParseIntSignedDigits | app.py:253 | int() of an optional minus sign followed by 1 to 4300 plain digits is the digits' value, negated after a minus. |
| Text.ParseIntShape | app.py:253 | What int() accepts is, once stripped, non-empty and ends in a digit; a negative result comes only from text starting with '-'. |
| Text.ParseIntIgnoresPadding | app.py:263 | int() gives the same answer with or without whitespace around the text, for whitespace other than U+001C-U+001F. |
| Text.ParseIntRejectsSeparators | app.py:253 | int() refuses any text holding one of U+001C-U+001F, which str.isspace counts as whitespace but int() does not skip. |
| Text.ParseIntTooLong | app.py:253 | int() refuses a run of more than 4300 digits (the default sys.int_max_str_digits). |
| JsonValues.Get | app.py:51-75 | dict.get: the stored value when the key is present, the default otherwise. |
| JsonValues.PyStr | app.py:59 | The f-string renders a string as itself, None as "None" and booleans as "True"/"False". |
| JsonValues.PyStrNumReadsBack | app.py:59 | A rendered integer of at most 4300 digits reads back through int(). |
| GeminiExtractor.OpeningFenceOff | gemini_extractor.py:93 | Dropping a leading ```json and the whitespace after it keeps text trimmed. |
| GeminiExtractor.ClosingFenceOff | gemini_extractor.py:93 | Dropping a trailing ``` and the whitespace before it keeps text trimmed. |
| GeminiExtractor.StripFences | gemini_extractor.py:93 | The cleaned reply has no whitespace at either end. |
| GeminiExtractor.OpeningFenceOffDrops | gemini_extractor.py:93 | ```json followed by whitespace and text starting with a non-space becomes exactly that text. |
| GeminiExtractor.ClosingFenceOffDrops | gemini_extractor.py:93 | Text ending with a non-space, then whitespace and ``` becomes exactly that text. |
| GeminiExtractor.StripFencesTruncated | gemini_extractor.py:93 | A reply cut off before its closing fence (```json, whitespace, a non-empty trimmed body not ending in ```) is cleaned to exactly that body. |
| GeminiExtractor.StripFencesFenced | gemini_extractor.py:93 | A reply made of ```json, whitespace, a non-empty trimmed body, whitespace and ``` is cleaned to exactly that body. |
| GeminiExtractor.StripFencesUnfenced | gemini_extractor.py:93 | A reply whose stripped text has neither fence is only stripped. |
| GeminiExtractor.StripFencesIsInfix | gemini_extractor.py:93 | The cleaned reply is a contiguous piece of the reply: nothing is added or reordered. |
| GeminiExtractor.RepairedCounts | gemini_extractor.py:97-105 | Repair only appends: the text is a prefix of the result. `{` and `[` counts are unchanged. `}` rises by max(0, `{`-`}`) and `]` by max(0, `[`-`]`). Closers then at least match openers. |
| GeminiExtractor.CountRepairedAt | gemini_extractor.py:102-105 | Per character: only `}` and `]` gain, by exactly the missing amounts. |
| GeminiExtractor.RepairedUnchangedIffClosed | gemini_extractor.py:102-105 | Repair leaves text unchanged if and only if its closers already match or exceed its openers. |
| GeminiExtractor.RepairedIdempotent | gemini_extractor.py:102-105 | Repairing twice equals repairing once. |
| GeminiExtractor.RepairBrackets | gemini_extractor.py:97-105 | The count-then-`+=` steps produce the repaired text: an extension of the input whose closers match its openers. |
| GeminiExtractor.ExtractFields | gemini_extractor.py:92-115 | The result is `json.loads` of the repaired, fence-free reply when that parses, and the repaired text itself otherwise. Unparsed text is always closed. |
| GeminiExtractor.Basename | gemini_extractor.py:32 | basename has no '/', is a suffix of the path, and is preceded by '/' when shorter. |
| GeminiExtractor.Stem | gemini_extractor.py:32 | splitext's root is a prefix of the name. When shorter, it stops at the last dot and is not made only of dots. When it is the whole name, there is no dot or only dots precede the last one. |
| GeminiExtractor.OutputFileNameInOutputDir | gemini_extractor.py:32-34 | The name is `output/`, then the image's stem (which has no '/'), then `_` + timestamp + `.json`. With a slash-free timestamp, nothing after `output/` contains a '/', so the file lands directly in `output/`. |
| App.Row | app.py:50-75 | A table row has exactly the ten keys. Each of the eight invoice fields is the source's value or "". image_url and timestamp are as given. |
| App.FlattenInvoice | app.py:47-75 | A row exists unless "data" holds a non-dictionary. Its keys are the ten row keys. Nested invoices take their fields from "data" and get image_url `/uploads/` + filename. Flat ones take fields and image_url from the record. timestamp comes from the invoice; a missing field is "". |
| App.TableRows | app.py:45-76 | Succeeds exactly when every invoice flattens. Then there is one row per invoice, row i being invoice i flattened. |
| App.FlattenLedgerEntry | app.py:47-61 | A stored ledger record flattens exactly when its data is a dictionary, with image_url from its filename and fields from its data. |
| App.ButtonPosition | app.py:250-257 | Fails exactly when a submit index is given and int() rejects it. Otherwise it yields the parsed index when it is in range, and no position when the button is absent or its index is out of range. |
| App.CheckboxPositions | app.py:260-267 | At most one position per checkbox value, each within range. |
| App.CheckboxPositionsMembers | app.py:260-267 | A position is chosen exactly when it is in range and some checkbox value parses to it. |
| App.CheckboxPositionsAppend | app.py:261-267 | The chosen positions keep the checkboxes' order: a split list selects piecewise. |
| App.CheckboxPositionsSingle | app.py:263-265 | One checkbox value selects its parsed position when that is in range, and nothing otherwise. |
| App.CheckboxStep | app.py:261-267 | The next checkbox value adds its own position, and its row, after those of the values before it. |
| App.Pick | app.py:264-265 | One row per position, row k being the table row at position k. |
| App.PickAppend | app.py:254-265 | Picking concatenated positions concatenates the picked rows. |
| App.ButtonRow | app.py:249-257 | Fails exactly when the submit index does not parse. Otherwise it gives the rows at the button's positions: the indexed row when in range, and none otherwise. |
| App.SubmittedPositions | app.py:250-267 | Fails exactly when the button's index fails to parse. Otherwise it is the button row followed by the checkbox rows, all in range. |
| App.CheckboxRow | app.py:262-267 | One pass of the checkbox loop appends exactly the row at the position that value selects, if any. |
| App.CheckboxRows | app.py:260-267 | The checkbox loop appends exactly the rows at the chosen positions, in order, duplicates kept. |
| App.SubmitSelected | app.py:243-270 | An empty table gives "no invoice data". An unparsable button index gives "invalid submission index". No chosen position gives "no valid invoices". Otherwise the submitted rows are the button row then the checkbox rows; they are non-empty and all come from the table. |
| App.FilterByTenant | app.py:545-548 | Each invoice occurs in the result as often as in the input when its tenant_id matches, and not at all otherwise. The result is no longer than the input. |
| App.FilterByTenantAppend | app.py:545-548 | The filter keeps input order. |
| VectorStore.SnapshotAppend | vector_store.py:26-29 | Saving a concatenated ledger concatenates the saved parts. |
| App.FilterLedgerByTenant | app.py:545-548 | Filtering the saved ledger by tenant equals saving only that tenant's entries. |
| App.AllInvoices | app.py:533-559 | A missing file gives "No invoices found" and malformed JSON gives "Invalid JSON format". An absent or empty tenant_id returns all invoices. A non-empty one returns the tenant filter of the invoices: that tenant's invoices, in order, with multiplicities. total_invoices is the returned count. |
| App.ExtractedRow | app.py:486-503 | The upload row has exactly the fourteen projected keys plus image_url and timestamp. Each projected field is the extraction's value or "". image_url is `/uploads/` + filename. |
| App.UploadRow | app.py:467-503 | A parsed dictionary is projected. A string, parsed or unparsed, goes through json.loads: no value is a parse failure, a dictionary is projected, any other value is "not a dictionary". A parsed value that is neither dictionary nor string, and only such a value, is an unexpected type. |
| App.UnparsedReplyFailsUpload | gemini_extractor.py:112-115 | A reply the extractor cannot parse makes the upload route report a parse failure. |
| App.JsonFileName | app.py:506 | The name ends in `.json` and what precedes it is a prefix of the filename. With no dot that prefix is the whole filename. Otherwise it stops at the last dot. |
| App.JsonFileNameIdempotent | app.py:506 | Deriving the JSON name of a JSON name changes nothing. |

## Left out

- Flask routing, request parsing, templates, HTML building, upload saving and camera decoding are I/O and are not modelled. Form values, the saved filename and the ledger file's contents are parameters.
- Reading and writing invoices.json and the FAISS index file is not modelled. The ledger file is a parameter: absent, malformed or loaded.
- The embedding model, the FAISS L2 arithmetic and `json.dumps`/`json.loads` are foreign numerics and parsing. They are function values. The flat index is characterised only by how many positions it returns and their range.
- Timestamps and uuids are nondeterministic and are parameters.
- The Gemini call, image resizing and API configuration are foreign calls. `ExtractFields` starts from the reply text.
- The `{"error": ...}` dictionary returned when extraction raises is not modelled, because it comes from the foreign call's failure.
- Background processing in a thread pool is not modelled. The model is sequential, so the unsynchronised updates of the index from several threads are not captured.
- The `/mobile-upload` call `add_invoice_to_db(json_data, filename)` (app.py:512) passes two arguments to a four-parameter function. It raises before indexing, so that path is not modelled as adding anything.
- The unreachable code after `return` in `table_page` and the commented-out routes are not modelled.
- MongoDB access (db_config.py) is not part of this model. The invoice lists it returns are parameters.
- Text.ParseInt: int() also accepts non-ASCII Unicode decimal digits; the model accepts ASCII digits only. The digit limit is the default 4300; a limit changed through PYTHONINTMAXSTRDIGITS or sys.set_int_max_str_digits is not modelled.
- Text.IntToString: str() raises ValueError for an int of more than 4300 digits; the model renders every int.
- GeminiExtractor.StripFences: the regular expression is applied with MULTILINE, so fences at interior line boundaries are also removed. The model removes only a leading ```json and a trailing ``` of the stripped reply.
- JsonValues.PyStr: `str()` of a list or dictionary filename is a placeholder, not Python's repr. Numbers are integers; floating-point JSON numbers are not modelled.
- GeminiExtractor.Basename: Windows separators are not modelled; paths are POSIX.
- VectorStore.Store.SearchInvoices: the result is None where the Python call raises (IndexError, or a dimension mismatch inside the index). The exception's type is not modelled.

## Findings

| source | as written | input that shows it | evidently intended | confidence | as-written member | corrected member |
|---|---|---|---|---|---|---|
| vector_store.py:59-61 | The guard `i < len(metadata)` has no lower bound. The -1 positions the flat index pads with pass it, and Python's negative indexing reads them as the last record. | A store holding 2 invoices searched with top_k = 5 returns 5 results, the last record three extra times. An empty store searched with top_k = 5 raises IndexError. | Only positions `0 <= i < len(metadata)` resolve: min(top_k, n) hits, and an empty store gives no results. | not executed | VectorStore.ResolvePaddingRepeatsLast | VectorStore.ResolveGuardedFlatHits |
