# thehook — a Dafny model of its core

thehook gives coding assistants a project memory. Session and knowledge records
are markdown files with a YAML front-matter block. They are indexed into a vector
collection. At session start (or on a prompt) the most relevant records are
fitted into a character budget and handed back to the assistant as additional
context. This project models, and proves properties of, the five pieces of
logic that make this work:

- **Index store** (`storage.dfy`, module `Storage`).
  - Front-matter parsing, which splits on the first two `---` markers.
  - Document id and metadata derivation.
  - Single-file upsert into the collection.
  - The drop-and-rebuild `reindex`.
  - The collection is a class `Collection` with a `present` flag and an `entries` map from id to (document, metadata). Its methods update them in place.
- **Retrieval shaping** (`retrieve.dfy`, module `Retrieve`).
  - The query sequence of `query_sessions`: empty guard, limit clamping, recency window, global fallback. The vector search is an oracle `respond`.
  - The budget loop of `format_context`.
  - The query-text choice.
  - The knob reading and the emit-only-when-non-empty rule of `run_retrieve`.
- **Transcript shaping** (`capture.dfy`, module `Capture`).
  - From records to role-tagged messages.
  - From messages to one labelled text, with tail truncation behind a fixed marker.
- **Configuration** (`config.dfy`, module `Config`). The recursive `_deep_merge` and the defaulting of `load_config`.
- **Project initialisation** (`init.dfy`, module `ProjectInit`).
  - The two hook tables and their filtering by the active hooks.
  - The renaming for the second host.
  - The `.gitignore` line merge.
  - The settings merge.

Shared pieces:
- `wrappers.dfy` holds `Option`.
- `text.dfy` holds Python's `strip`/`rstrip`, `join`, the left-to-right search behind `split`, and ASCII upper-casing.
- `values.dfy` holds the decoded YAML/JSON value type, with Python truthiness, `str()` on scalars and `int()`.

Edges of the system become parameters:
- YAML decoding of front matter is `decode: string -> map<string, Value>`.
- The configuration file is a `ConfigFile` (missing, unreadable, or a decoded value).
- Directory listings are sequences of `MarkdownFile(stem, content)`, already in sorted order.
- A transcript is a sequence of already-decoded lines.
- The vector search is `respond: QueryRequest -> QueryResponse`.
- Every `except Exception` path that the model covers is an explicit failure value (`None`, `Raised`). Most end in `[]`, `0` or no output. A config that fails to load in `_load_active_hooks` ends in every hook name instead. The ignored error of `delete_collection` for a missing collection is folded into `Storage.Collection.Delete`, which simply leaves no collection.

## Model

| member | source | states |
|---|---|---|
| Config.DeepMerge | src/thehook/config.py:13-20 | keys are the union of base and override keys; a key only in base keeps base's value; an override key wins unless both sides are mappings, in which case the two are merged recursively |
| Config.MergeEmptyOverride | src/thehook/config.py:13-20 | merging with an empty override returns the base |
| Config.MergeSelf | src/thehook/config.py:13-20 | merging a mapping with itself changes nothing, at every depth |
| Config.MergeOverrideTwice | src/thehook/config.py:13-20 | applying the same override twice gives the same result as once |
| Config.LoadConfig | src/thehook/config.py:23-29 | missing file or falsy decoded value gives `DEFAULT_CONFIG`; a mapping gives defaults merged with it; an unreadable file or a truthy non-mapping fails; a loaded config always has every default key |
| Config.PartialOverrideKeepsDefaults | src/thehook/config.py:23-29 | a file setting only some keys keeps the default value of every other default key |
| Text.Strip | src/thehook/storage.py:32 | `strip()` is empty exactly when the input is all whitespace, and otherwise neither starts nor ends with whitespace |
| Text.StripIsSlice | src/thehook/storage.py:32 | what `strip()` keeps is one contiguous slice of the input with only whitespace cut off on either side |
| Text.FindFrom | src/thehook/storage.py:28 | the search result is an occurrence at or after the start, and no occurrence lies between the start and it (none at all when nothing is found) |
| Storage.Markers | src/thehook/storage.py:28-30 | the two split points are non-overlapping `---` occurrences |
| Storage.MarkersAreFirstTwo | src/thehook/storage.py:28 | the split points are the first `---` and the first one after it: no marker starts before the first or between them, so a preamble is discarded |
| Storage.SplitAt | src/thehook/storage.py:31-35 | no parse exactly when the text after the second marker is blank; a parsed body is non-empty and neither starts nor ends with whitespace |
| Storage.ParseMarkdown | src/thehook/storage.py:23-35 | a parse implies two non-overlapping markers, and the body is non-empty and stripped |
| Storage.MalformedNeverParses | src/thehook/storage.py:28-30 | content without two non-overlapping `---` markers never parses |
| Storage.ParseLayout | src/thehook/storage.py:28-35 | `---` + front matter + `---` + rest parses to the decoded front matter and the stripped rest, later `---` kept in the body; a blank rest parses to nothing |
| Storage.LayoutMarkers | src/thehook/storage.py:28 | in that layout the split points are the opening marker and the one closing the front matter |
| Storage.DocId | src/thehook/storage.py:44-47 | the id is `str` of `knowledge_id` for knowledge records and of `session_id` otherwise, when that field is truthy; else the file stem |
| Storage.DocIdIgnoresOtherKind | src/thehook/storage.py:44-47 | the id never depends on the id field of the other record kind |
| Storage.BuildMetadata | src/thehook/storage.py:60-71 | metadata keys are `type`, `timestamp`, plus `session_id`/`knowledge_id` exactly when the front matter has them; `type` falls back to the default type when the front-matter value is falsy |
| Storage.DeriveEntry | src/thehook/storage.py:55-71 | a file yields an entry exactly when it parses; the entry's document is not blank and its metadata has a `type` |
| Storage.PlaceUpdatesOneId | src/thehook/storage.py:75 | an upsert adds or replaces exactly one id and leaves every other entry as it was |
| Storage.PlaceIdempotent | src/thehook/storage.py:75 | repeating an upsert changes nothing |
| Storage.IndexingUpdatesOneId | src/thehook/storage.py:55-75 | indexing a parseable file maps its derived id to its entry and leaves every other id unchanged; an unparseable file leaves the entries unchanged |
| Storage.IndexingIdempotent | src/thehook/storage.py:55-75 | indexing the same file twice gives the entries indexing it once gives |
| Storage.Collection.GetOrCreate | src/thehook/storage.py:74 | the collection exists afterwards and its entries are unchanged |
| Storage.Collection.Delete | src/thehook/storage.py:124-127 | afterwards the collection does not exist and holds nothing |
| Storage.Collection.Upsert | src/thehook/storage.py:75 | the one id is mapped to the given document and metadata, nothing else changes |
| Storage.Collection.Add | src/thehook/storage.py:168-169 | the new distinct ids are added with their documents and metadata, nothing else changes |
| Storage.IndexMarkdownFile | src/thehook/storage.py:50-75 | the new entries are the old ones with the file's derived entry upserted; the collection is created only when the file parses |
| Storage.IndexSessionFile | src/thehook/storage.py:78-97 | indexing with the default type `session`: the entries are the old ones with the file's derived entry upserted; the collection is created only when the file parses, and otherwise whether it exists is unchanged |
| Storage.IndexCount | src/thehook/storage.py:174-184 | the number of entries, and 0 when the collection does not exist |
| Storage.AllFiles | src/thehook/storage.py:138-142 | every session file (as `session`) comes before every knowledge file (as `knowledge`), each directory in its listed order |
| Storage.CollectedAppend | src/thehook/storage.py:146-166 | the pairs gathered from two runs of files are the pairs of each run, in order |
| Storage.UnparseableSkipped | src/thehook/storage.py:147-149 | a file that does not parse contributes nothing to the rebuild, wherever it sits |
| Storage.BatchOnlyGivenIds | src/thehook/storage.py:168-169 | a batch add creates no id outside the batch |
| Storage.BatchHoldsEveryPair | src/thehook/storage.py:168-169 | with distinct ids a batch add holds every pair under its own id and has as many entries as pairs |
| Storage.RebuildMatchesIndexing | src/thehook/storage.py:146-169 | a rebuild derives exactly the entries that indexing the same files one by one into an empty collection derives |
| Storage.GatherEntries | src/thehook/storage.py:134-166 | the gathering loop yields, in order, the id, document and metadata of every parseable file |
| Storage.Reindex | src/thehook/storage.py:100-171 | afterwards the collection exists and holds exactly the entries of the parseable files, sessions then knowledge, with no earlier entry surviving; the result is the number added and equals the index count; no files gives 0 and an empty collection |
| Retrieve.ExtractDocuments | src/thehook/retrieve.py:9-14 | `[]` when `documents` is absent, empty or its first list is None; otherwise the first list |
| Retrieve.ClampLimit | src/thehook/retrieve.py:47 | the requested count is `min(max(1, n), count)`, always between 1 and count |
| Retrieve.QueryPlan | src/thehook/retrieve.py:40-62 | no query and `[]` for a missing or empty collection; else one or two queries for the text with the clamped limit; exactly one unfiltered query without a positive window; otherwise a filtered first query, and a second unfiltered one exactly when the first answered without failure, found nothing, and the fallback is on; the result is the last query's answer; a bounded backend gives at most count documents |
| Retrieve.QuerySessions | src/thehook/retrieve.py:25-62 | the early-return sequence of calls issues exactly the planned queries and returns the planned documents |
| Retrieve.FitWithinAllowance | src/thehook/retrieve.py:72-83 | the kept pieces total at most `token_budget*4` characters, separators excluded |
| Retrieve.FitIsPrefix | src/thehook/retrieve.py:75-83 | all pieces but the last equal their documents; the last is whole, or a non-empty proper prefix cut exactly at the allowance |
| Retrieve.FitFillsAllowance | src/thehook/retrieve.py:77-83 | when the documents do not all fit, the kept pieces total exactly the allowance (0 when it is not positive): the document that overflows is cut to the space left, not dropped |
| Retrieve.FitAllWhenWithin | src/thehook/retrieve.py:75-84 | when everything fits, every document is kept whole |
| Retrieve.FormatContext | src/thehook/retrieve.py:65-84 | the loop's output is the fitted pieces joined by `"\n\n---\n\n"` |
| Retrieve.EmptyContext | src/thehook/retrieve.py:84 | no documents give the empty context |
| Retrieve.QueryFromHookInput | src/thehook/retrieve.py:87-97 | the stripped prompt when it is not blank, else the default query; never empty |
| Retrieve.NoPromptGivesDefaultQuery | src/thehook/retrieve.py:94-97 | a payload without a prompt gets the default query |
| Retrieve.ProjectDir | src/thehook/retrieve.py:115-121 | a non-empty string `cwd` wins; without a truthy `cwd`, missing or empty workspace roots give `.`, a list of roots gives its first when that is a string, and a string gives its first character; no directory (the path construction raises) exactly for a truthy non-string `cwd` or truthy roots that are neither a string nor a list starting with a string |
| Retrieve.ReadKnobs | src/thehook/retrieve.py:124-129 | settings are read exactly when the budget, the result count and the day count are numbers; the budget is the configured value, the count `max(1, n)`, the window `max(0, days)`, the fallback flag the truthiness of its setting; absent settings give 2000, 5, 0 and true |
| Retrieve.DefaultKnobs | src/thehook/retrieve.py:124-129 | the shipped default configuration gives budget 2000, 5 results, no window and fallback on |
| Retrieve.ConfiguredKnobsForwarded | src/thehook/retrieve.py:124-129 | budget 500, 2 results, 14 days and fallback off are forwarded unchanged; a count of 0 and a negative window are raised to 1 and 0 |
| Retrieve.Respond | src/thehook/retrieve.py:123-149 | once config and settings are read, the object is emitted exactly when the fitted context is non-empty; it carries that context and the payload's event name, defaulting to `SessionStart`; nothing is emitted when config or settings fail |
| Retrieve.EmptyIndexPrintsNothing | src/thehook/retrieve.py:44-46 | a missing or empty collection means nothing is printed |
| Retrieve.PrintedContextIsFittedAnswer | src/thehook/retrieve.py:133-149 | printed context is the fitted answer of the query plan made with clamped settings, within the character budget |
| Retrieve.RunRetrieve | src/thehook/retrieve.py:114-151 | an empty payload or an unusable directory prints nothing; otherwise the output is what `Respond` gives for the project's config and collection |
| Capture.NonTextBlockDropped | src/thehook/capture.py:22-23 | a non-text block leaves the flattened content unchanged wherever it occurs |
| Capture.TextBlockJoinedByNewline | src/thehook/capture.py:22-23 | a text block after others is joined to them by one newline |
| Capture.Messages | src/thehook/capture.py:18-20 | at most one message per line, each with role `user` or `assistant` |
| Capture.TextBlocksAppend | src/thehook/capture.py:22-23 | the text blocks of two block lists placed one after the other are those of each list, in order (the induction behind the block-flattening lemmas) |
| Capture.MessagesAppend | src/thehook/capture.py:20 | messages of a concatenated log are those of each part, in log order |
| Capture.SingleLine | src/thehook/capture.py:18-23 | a kept record gives its message with content flattened; anything else gives none |
| Capture.SkippedLine | src/thehook/capture.py:20 | invalid lines and records of other types are skipped wherever they occur |
| Capture.ParseTranscript | src/thehook/capture.py:15-31 | a missing or empty file gives no messages; never more messages than lines |
| Capture.UserAndAssistantTurns | src/thehook/capture.py:18-23 | a string user turn and an assistant turn with a text block and a tool call give exactly the two messages, the tool call dropped |
| Capture.AssembleTranscriptText | src/thehook/capture.py:34-49 | text within the cap is returned as is; longer text becomes the marker plus its last `max_chars` characters; length at most `max_chars` + 19 |
| Capture.LabelsAppend | src/thehook/capture.py:37-40 | the labels of two message lists placed one after the other are those of each list, in order (the induction behind the blank-message lemma) |
| Capture.BlankMessageIgnored | src/thehook/capture.py:38 | a message whose content is blank contributes nothing, wherever it occurs |
| Capture.TwoMessagesLabelled | src/thehook/capture.py:37 | two messages render as `[ROLE]: content` with upper-cased roles, separated by a blank line |
| Capture.DefaultCapBound | src/thehook/capture.py:34-40 | under the default cap of 50,000 the text never exceeds 50,019 characters |
| ProjectInit.TablesAgree | src/thehook/init.py:5-133 | the first host's table and the renaming cover the same five events |
| ProjectInit.RenamingInjective | src/thehook/init.py:127-133 | no two events are renamed to the same name |
| ProjectInit.RenamingOnto | src/thehook/init.py:67-133 | every renamed event has an entry in the second host's table, and every entry there is a renamed event |
| ProjectInit.LoadActiveHooks | src/thehook/init.py:109-119 | every event when config loading fails or `active_hooks` is not a non-empty list; otherwise the list with each item rendered as a string |
| ProjectInit.DefaultActiveHooks | src/thehook/init.py:109-119 | without a config file the active hooks are session end and session start |
| ProjectInit.BuildClaudeHooks | src/thehook/init.py:122-123 | the keys are exactly the active names that are table keys, each mapped to its table value |
| ProjectInit.AllActiveRegistersTable | src/thehook/init.py:122-123 | activating every event registers the whole table |
| ProjectInit.BuildCursorHooks | src/thehook/init.py:126-139 | the keys are exactly the renamed active events with a table entry, each mapped to its table value |
| ProjectInit.SameEventsBothHosts | src/thehook/init.py:122-139 | an event is registered with one host exactly when it is registered with the other |
| ProjectInit.MergeGitignoreLines | src/thehook/init.py:159-164 | existing lines kept in order; each required entry not already a line appended once; nothing else appended; nothing appended when both are present |
| ProjectInit.WriteGitignore | src/thehook/init.py:154-165 | a missing file gets exactly the two entries; an existing one gets its merged lines joined, right-stripped and newline-terminated |
| ProjectInit.AppendedEntriesSurviveStrip | src/thehook/init.py:165 | when an entry was appended, the right-strip removes nothing and the text ends with that entry |
| ProjectInit.MergeSettings | src/thehook/init.py:174-178 | every other settings key kept, `hooks` replaced by the built table |
| ProjectInit.MergeSettingsIdempotent | src/thehook/init.py:174-178 | re-running the settings merge with the same table changes nothing |
| ProjectInit.CursorDocumentShape | src/thehook/init.py:188-191 | the `hooks.json` document has exactly the keys `version`, which is 1, and `hooks`, which holds the table |
| ProjectInit.InitProject | src/thehook/init.py:142-194 | the written `.gitignore`, settings and second-host hook table are the ones above, for the active hooks of the loaded config; `hooks.json` is that table wrapped with version 1 |
| ProjectInit.DefaultInitRegistersEndAndStart | src/thehook/init.py:167-191 | without a config file both hosts register exactly session end and session start, with the table's commands |

## Left out

- ChromaDB itself is outside the model: the client, embeddings and similarity ranking. A query is the oracle `respond`, and `Bounded` states the "at most n documents" assumption where a lemma needs it.
- ChromaDB's handling of duplicate ids inside one `add` call is outside the model. `Storage.Reindex` requires the gathered ids to be distinct.
- Storage.ParseMarkdown: front-matter decoding is a total `decode` into a mapping. A decoding error, and a front matter that decodes to a truthy non-mapping (for example a note with two `---` rules and plain text between them, which decodes to a string), both raise in the source. The model has no such failure, so it does not show the exception escaping `index_markdown_file`.
- Storage.Reindex: for the same reason it does not model a rebuild that raises part-way. In the source, such a rebuild leaves the collection created and empty, because the delete and recreate have already run.
- YAML decoding is the `decode` parameter, or a `ConfigFile` value. The datetime branch of `_normalize_timestamp` is not modelled: a timestamp is rendered with `str`.
- `Values.Render` is Python's `str()` only for scalars. Lists and mappings get a fixed placeholder text, and floats are not modelled at all.
- `Values.AsInt` treats `int()` of a string as a failure, including numeric strings such as `"5"` that Python would accept.
- `Retrieve.ReadKnobs`: a `token_budget` that is not a number fails. In the source, string repetition and a later comparison error also end in no output. The empty-documents case, where the source prints nothing without failing, yields the same observable result.
- The filesystem is outside the model: reading, `glob`, `sorted`, `exists`, `mkdir` and JSON file writes. Listings arrive already sorted. An existing `.gitignore` arrives as its `splitlines()`. A settings file arrives as a decoded JSON object, or `None` when absent. A settings file that is not valid JSON, or not an object, is not modelled.
- JSON key order and indentation of the written `hooks.json` and settings files are not modelled.
- The wall clock behind the recency cutoff is not modelled. A request only carries its window in days.
- Retrieve.QueryPlan: a window so large that the cutoff date falls before year 1 makes the date arithmetic raise. The source then returns `[]` without querying. That threshold depends on the clock, so the model always issues the filtered query.
- stdin and stdout are outside the model: `read_hook_input` is the `hook` parameter, and printing is the returned `HookOutput`.
- The normalisation of a path by `Path(cwd)` is not modelled. The directory string selects the config and the collection as given.
- `ProjectInit.InitProject` does not model directory creation.
- `get_chroma_client`, `cli.py`, the extraction subprocess, `write_session_file`, `write_stub_summary` and `run_capture` are not part of this model.
- `read_hook_input`, `parse_transcript` and `assemble_transcript_text` have stub bodies. The capture functions follow their documented contracts:
  - a message's role is its record's type;
  - `max_chars` is a natural number;
  - upper-casing is ASCII-only, which covers the two roles.
- `Text.Strip` works on whole characters. Whitespace is the set Python's `str.isspace` accepts; there is no Unicode normalisation.
