# AI Excalidraw: a Dafny model of the drawing pipeline

The web application lets a user describe a diagram in a chat panel. It sends
the request to an OpenAI-compatible chat-completions endpoint. It reads the
streamed reply as server-sent events and picks complete JSON objects out of
the growing reply text. Each object that carries an `id` is handed to the
Excalidraw canvas as soon as it is complete. The conversation is kept in a
chat history persisted in local storage, and the canvas keeps its own
snapshot there.

This project models the core of that pipeline and proves its properties:

- `element_parser.dfy` (module `ElementParser`) models
  `src/components/excalidraw/element-parser.ts`:
  - the brace-depth scanner that extracts complete `{...}` objects;
  - the cursor-based parser `parseExcalidrawElements`;
  - the element defaults and the incomplete-block check.
- `ai.dfy` (module `Ai`) models `src/lib/ai.ts`:
  - how the configuration is resolved and validated;
  - the line protocol of the stream;
  - the read loop of `streamChat`, with its error paths.
- `canvas_wrapper.dfy` (module `CanvasWrapper`) models
  `src/components/excalidraw/wrapper.tsx`:
  - loading the stored snapshot;
  - the imperative handle (`addElements`, with its id-conflict renaming,
    `clearCanvas` and `getElements`);
  - the change handler.
- `chat_history.dfy` (module `ChatHistory`) models
  `src/components/excalidraw/use-chat-history.ts`: the session list, as a
  class whose methods update the sessions, the current session id and the
  stored copy.
- `mobile_input.dfy` (module `MobileInput`) models `handleSend` of
  `src/components/excalidraw/mobile-input.tsx`. It covers the guards, the
  recording of the exchange, the per-chunk incremental parse with its cursor,
  the error callback and the final parse.
- `wrappers.dfy`, `json.dfy` and `collections.dfy` hold the shared vocabulary:
  - `Option`;
  - a decoded JSON value with JavaScript truthiness;
  - filter, map and flatten on sequences.

The main results:

- **Complete objects.** Every object the extractor returns is a balanced
  `{...}` slice. Depth stays at least 1 strictly inside it, and braces inside
  string literals, even escaped quotes, do not count (`ObjectBalanced`,
  `StringLiteralInert`). An unclosed object is never returned
  (`ObjectUnclosed`).
- **Chunk boundaries do not matter.** However the reply is cut into deltas, the
  batches handed to the canvas concatenate to exactly the id-carrying objects
  of the whole text, in order and each once (`OnChunk`, `FinalParse`,
  `ParseAtCursor`). The same holds after every delta, not only at the end.
  The batch of each delta is exactly what its arrival completed
  (`BatchesDeliverAll`, `DeliverChunks`). The cursor moves to the end of the
  last complete object exactly when a batch is delivered, and it never moves
  back (`CursorLogTrace`).
- **Line protocol.** The body's line splitting does not depend on how it was
  chunked (`SplitAppend`, `ChunkingIrrelevant`). The read loop is proved
  against that whole-body definition (`ReadBody`).
- **Canvas ids.** Adding elements keeps the canvas ids unique whenever the
  generated ids are fresh (`AppendKeepsIdsUnique`).
- **Chat history.** Each operation keeps the stored copy equal to the first 50
  sessions. Every operation except `switchSession` keeps a valid current
  session valid (the `ChatHistory` class contracts, `DeleteEffect`).
  `switchSession` accepts any id, as `use-chat-history.ts` does.

Two behaviours of the code worth noting:

- A `data: [DONE]` line does not end the stream. The loop skips that line and
  keeps reading, so later lines still yield deltas (`Ai.DoneDoesNotStop`). The
  final buffer is likewise only skipped when its whole trimmed text is
  `data: [DONE]` (`Ai.FinalBufferIsLastLine`).
- `handleSend` moves its cursor only when a parse kept at least one element.
  A complete object that fails to decode or has no `id` is therefore scanned
  again on the next delta instead of being consumed. The model keeps this
  behaviour (`MobileInput.OnChunk`: no new batch means the same cursor). The
  proof shows that it never duplicates or loses an element: after every
  delta the canvas holds exactly the objects with an id received so far
  (`MobileInput.OnChunk`). The final parse after the stream is therefore a
  safety net that never adds anything (`MobileInput.FinalParse`). Within one
  call of `parseExcalidrawElements` the cursor does pass over such objects,
  as one would expect (`ElementParser.ParseCursor`).

## Model

| member | source | states |
|---|---|---|
| ElementParser.Step | src/components/excalidraw/element-parser.ts:43-68 | a character that does not close the object never takes the depth below 1; inside a string, every character except a quote or a backslash leaves the scanner state unchanged |
| ElementParser.FoldAppend | src/components/excalidraw/element-parser.ts:40-69 | scanning a + b equals scanning a, then b from the resulting state |
| ElementParser.FindClose | src/components/excalidraw/element-parser.ts:40-69 | a found end lies after the scan start, within the text, just past a `}` |
| ElementParser.IndexOf | src/components/excalidraw/element-parser.ts:31-32 | a found index is at or after `from`, inside the text, and holds the sought character |
| ElementParser.IndexOfFirst | src/components/excalidraw/element-parser.ts:31-32 | the found index is the first occurrence at or after `from`; no result means the character does not occur from there on |
| ElementParser.NextObject | src/components/excalidraw/element-parser.ts:29-80 | one round of the outer loop returns a candidate that starts at or after the cursor and ends within the text |
| ElementParser.NextObjectSpan | src/components/excalidraw/element-parser.ts:71-76 | the candidate of one round is the `{...}` slice of the text from its start to its end index |
| ElementParser.FindObjectEnd | src/components/excalidraw/element-parser.ts:35-69 | the inner loop returns -1 or an end past the start, and it agrees with the scanner's definition of the closing position |
| ElementParser.ExtractJsonObjects | src/components/excalidraw/element-parser.ts:25-84 | the outer loop returns exactly the sequence of candidates defined round by round from index 0 |
| ElementParser.Extract | src/components/excalidraw/element-parser.ts:25-84 | the candidates `extractJsonObjects` finds from a cursor: the next `{`, the object it opens if it closes, then the rest from its end; stop at an unclosed object or when no `{` is left (its properties are stated by ExtractSpans, ExtractDrop and ExtractExtend) |
| ElementParser.ExtractSpans | src/components/excalidraw/element-parser.ts:71-76 | every candidate is a `{...}` slice of the text after the cursor, and the candidates are increasing and non-overlapping |
| ElementParser.ExtractSpan | src/components/excalidraw/element-parser.ts:71-76 | each single candidate is a `{...}` slice of the text after the cursor |
| ElementParser.StateAtNext | src/components/excalidraw/element-parser.ts:40-41 | the scanner state after k + 1 characters is one step from the state after k |
| ElementParser.ScanFrom | src/components/excalidraw/element-parser.ts:40-69 | when the scan finds an end, no earlier character closed the object and the last one does; when it finds none, no character of the text closes it |
| ElementParser.OpenUpToNext | src/components/excalidraw/element-parser.ts:64-67 | a character that does not close the object keeps it open one more position |
| ElementParser.DepthPositive | src/components/excalidraw/element-parser.ts:60-68 | once an object has opened and has not closed, its depth is at least 1 |
| ElementParser.DepthInside | src/components/excalidraw/element-parser.ts:60-68 | the depth is at least 1 at every position strictly inside an open object |
| ElementParser.ObjectBalanced | src/components/excalidraw/element-parser.ts:60-67 | a returned object ends at depth 0, with depth at least 1 at every position strictly inside it |
| ElementParser.ObjectUnclosed | src/components/excalidraw/element-parser.ts:71-80 | when no end is found, the depth stays at least 1 up to the end of the text, so the partial object is not returned |
| ElementParser.StringLiteralInert | src/components/excalidraw/element-parser.ts:43-58 | a string literal (braces and escaped quotes included) leaves depth and flags exactly as they were before it |
| ElementParser.BodyInert | src/components/excalidraw/element-parser.ts:43-58 | the body of a string, escapes included, leaves the in-string state unchanged |
| ElementParser.IndexOfExtend | src/components/excalidraw/element-parser.ts:31 | an occurrence found in a text is still the first one found after more text is appended |
| ElementParser.FindCloseExtend | src/components/excalidraw/element-parser.ts:40-69 | an end found in a text is still the end found after more text is appended |
| ElementParser.ExtractExtend | src/components/excalidraw/element-parser.ts:25-84 | the objects of a text are a prefix of the objects of any extension of it |
| ElementParser.IndexOfSuffix | src/components/excalidraw/element-parser.ts:31 | searching a suffix finds the same occurrence as searching the whole text, shifted by the offset |
| ElementParser.FindCloseSuffix | src/components/excalidraw/element-parser.ts:40-69 | scanning a suffix finds the same end as scanning the whole text, shifted by the offset |
| ElementParser.ShiftBy | src/components/excalidraw/element-parser.ts:71-76 | shifting the candidates keeps their number |
| ElementParser.ShiftByCons | src/components/excalidraw/element-parser.ts:71-76 | shifting distributes over the first candidate and the rest |
| ElementParser.ShiftByAt | src/components/excalidraw/element-parser.ts:71-76 | the k-th shifted candidate is the k-th candidate shifted |
| ElementParser.ExtractSuffix | src/components/excalidraw/element-parser.ts:98-101 | extracting from `text.slice(d)` gives the objects of the whole text after d, with indices lowered by d |
| ElementParser.NextObjectSuffix | src/components/excalidraw/element-parser.ts:98-101 | one round on a suffix finds the same object as on the whole text, shifted by the offset |
| ElementParser.ExtractDrop | src/components/excalidraw/element-parser.ts:76 | restarting the scan at the end of the n-th object yields exactly the remaining objects |
| ElementParser.EndsIncrease | src/components/excalidraw/element-parser.ts:71-76 | end indices of later objects are never smaller |
| ElementParser.Slice | src/components/excalidraw/element-parser.ts:98 | `slice` gives the suffix from the cursor, or the empty string past the end |
| ElementParser.KeptHaveIds | src/components/excalidraw/element-parser.ts:104-112 | every element returned decoded to a value with a truthy `id`, and no more elements than objects are returned |
| ElementParser.Kept | src/components/excalidraw/element-parser.ts:104-120 | the objects that decode to a value with a truthy `id`, in order; an object that does not decode or has no id is dropped (stated by KeptHaveIds, KeptAppend and KeptSnoc) |
| ElementParser.KeptAppend | src/components/excalidraw/element-parser.ts:104-120 | the elements kept from two runs of objects are those of each run, concatenated |
| ElementParser.KeptSnoc | src/components/excalidraw/element-parser.ts:104-120 | one more object adds its decoded value exactly when it decodes and has an id, and the last end moves to it |
| ElementParser.ParseExcalidrawElements | src/components/excalidraw/element-parser.ts:93-129 | the loop returns the kept elements of the pending objects and the text after the new processed length |
| ElementParser.Parse | src/components/excalidraw/element-parser.ts:93-129 | the kept elements of the objects after the cursor, and the text after the last complete object (stated by ParseCursor and ParseAtCursor) |
| ElementParser.ParseCursor | src/components/excalidraw/element-parser.ts:122-127 | the new processed length lies between the old one and the text length, and `remainingBuffer` is exactly the text after it |
| ElementParser.PendingAtBoundary | src/components/excalidraw/element-parser.ts:98-101 | parsing from the end of the n-th object sees exactly the objects after the n-th |
| ElementParser.ExtractAfterCursor | src/components/excalidraw/element-parser.ts:76 | scanning from the end of the n-th object yields exactly the objects after it |
| ElementParser.ShiftByKeepsJsons | src/components/excalidraw/element-parser.ts:71-76 | shifting keeps each object's text and moves the last end by the offset |
| ElementParser.ParseFromBoundary | src/components/excalidraw/element-parser.ts:93-129 | parsing from an object boundary keeps the elements of the objects after it and consumes the text up to the last complete object |
| ElementParser.JsonsSplit | src/components/excalidraw/element-parser.ts:104 | the texts of a split run of objects are the texts of its two parts |
| ElementParser.ParseAtCursor | src/components/excalidraw/element-parser.ts:93-129 | elements kept before a boundary plus those parsed from it are exactly the elements of the whole text, and the cursor only moves forward |
| ElementParser.GrowText | src/components/excalidraw/element-parser.ts:25-84 | appending text keeps the first n objects and their boundary, so a cursor stays valid as the reply grows |
| ElementParser.VaryingNotFixed | src/components/excalidraw/element-parser.ts:134-154 | the random or clock-valued keys are disjoint from the constant keys |
| ElementParser.RandomBelow | src/components/excalidraw/element-parser.ts:143 | `Math.floor(Math.random() * scale)` lies in [0, scale) |
| ElementParser.DefaultElementProps | src/components/excalidraw/element-parser.ts:134-154 | the defaults have exactly the listed keys, the fixed values, a seed below 100000, a version nonce below 10^9 and `updated` equal to the clock |
| ElementParser.DefaultsDifferOnlyInDraws | src/components/excalidraw/element-parser.ts:143-150 | two calls agree on every key except seed, versionNonce and updated |
| ElementParser.OrElse | src/components/excalidraw/element-parser.ts:168 | the or-fallback gives the value when it is truthy and the fallback otherwise |
| ElementParser.TypeSpecificProps | src/components/excalidraw/element-parser.ts:159-190 | text gets the text keys, arrows and lines get the path keys, and every other type gets only roundness type 3 |
| ElementParser.TextDefaults | src/components/excalidraw/element-parser.ts:160-171 | `originalText` is the element's text, or empty when there is none; font size 20, font family 1, centred and middle alignment, baseline 18, no container and line height 1.25 |
| ElementParser.PathDefaults | src/components/excalidraw/element-parser.ts:173-184 | truthy points are kept; otherwise the path runs from [0,0] to [width, or 100 when falsy; height, or 0 when falsy], which is [[0,0],[100,0]] when width and height are absent; only an arrow gets an end arrowhead, no type gets a start arrowhead, and the last committed point and both bindings are null |
| ElementParser.HasId | src/components/excalidraw/element-parser.ts:110 | a decoded object is kept when its `id` is truthy (stated by ParseAtCursor and ParseCursor through Kept) |
| ElementParser.LastIndexOf | src/components/excalidraw/element-parser.ts:198-199 | the result is -1 or an index holding the character, with no occurrence after it |
| ElementParser.HasIncompleteBlock | src/components/excalidraw/element-parser.ts:196-201 | true exactly when some `{` has no `}` anywhere after it |
| Ai.GetAIConfig | src/lib/ai.ts:19-48 | a key and URL from the environment win outright; with nothing usable stored, the environment configuration is returned as it is; the model is never empty |
| Ai.Or | src/lib/ai.ts:22-24 | `a or b` on strings: the first when it is non-empty (used by EnvConfig, GetAIConfig and StoredFieldsOverride) |
| Ai.EnvConfig | src/lib/ai.ts:21-25 | the configuration from the build-time variables alone, with the model falling back to gpt-4o (stated by GetAIConfig and LoadedConfigValid) |
| Ai.StoredFieldsOverride | src/lib/ai.ts:33-45 | otherwise each non-empty stored field overrides the environment, and the model falls back to gpt-4o |
| Ai.LoadedConfigValid | src/lib/ai.ts:64-66 | a loaded configuration is valid exactly when it has a key and a URL, and always when both come from the environment |
| Ai.IsConfigValid | src/lib/ai.ts:64-66 | a configuration is usable when its key, URL and model are all non-empty (its consequences are stated by LoadedConfigValid and ValidConfigReachesServer) |
| Ai.TrimStart | src/lib/ai.ts:127 | removes exactly the leading JavaScript white space |
| Ai.TrimEnd | src/lib/ai.ts:127 | removes exactly the trailing JavaScript white space |
| Ai.TrimUnpadded | src/lib/ai.ts:127 | trimming a text without outer white space returns it unchanged |
| Ai.Trim | src/lib/ai.ts:127 | `trim()`: leading and trailing white space removed (stated by TrimExact) |
| Ai.TrimExact | src/lib/ai.ts:127 | the trimmed text is a slice of the text that neither starts nor ends with white space, and everything cut off on either side is white space |
| Ai.Split | src/lib/ai.ts:123 | `split('\n')` always yields at least one piece |
| Ai.SplitJoin | src/lib/ai.ts:123 | joining the pieces with newlines gives back the text, and no piece contains a newline |
| Ai.SplitCons | src/lib/ai.ts:123 | a leading non-newline character joins the first piece |
| Ai.SplitNewline | src/lib/ai.ts:123 | a leading newline adds an empty first piece |
| Ai.SplitAppend | src/lib/ai.ts:120-124 | splitting a + b equals the complete lines of a followed by the split of a's last line extended by b |
| Ai.LineDeltaSource | src/lib/ai.ts:126-142 | a line yields at most one delta, which is non-empty, comes from a trimmed `data: ` line whose payload is not `[DONE]`, and is that payload's content |
| Ai.LineDelta | src/lib/ai.ts:127-141 | one complete line yields at most one delta |
| Ai.FinalBufferIsLastLine | src/lib/ai.ts:145-159 | the leftover buffer yields exactly what it would as a complete line |
| Ai.FinalBufferDelta | src/lib/ai.ts:145-159 | the leftover buffer yields at most one delta |
| Ai.LinesDeltasAppend | src/lib/ai.ts:126-142 | the deltas of two runs of lines are those of each run, concatenated |
| Ai.LinesDeltas | src/lib/ai.ts:126-142 | the deltas of a list of lines, in line order (stated by LinesDeltasAppend, SilentLineSkipped and DoneDoesNotStop, and used by ReadBody) |
| Ai.DoneLineSilent | src/lib/ai.ts:131 | the `data: [DONE]` line yields no delta |
| Ai.SilentLineSkipped | src/lib/ai.ts:126-131 | a line yielding nothing can be removed without changing the deltas |
| Ai.DoneDoesNotStop | src/lib/ai.ts:131 | lines after `data: [DONE]` still yield their deltas |
| Ai.ChunkStep | src/lib/ai.ts:116-124 | one read keeps the buffer equal to the last line of everything received and adds the deltas of the newly completed lines |
| Ai.StreamChat | src/lib/ai.ts:71-163 | the deltas and the error equal the stream definition: config check, fetch, status, reader, then the body |
| Ai.Stream | src/lib/ai.ts:71-163 | what `streamChat` reports: the missing-configuration, fetch, status and reader errors before the body, then the body's deltas (stated by StreamFailures, ValidConfigReachesServer and ChunkingIrrelevant; StreamChat is proved against it) |
| Ai.Read | src/lib/ai.ts:113-159 | the deltas of every line of the concatenated body, or those of its complete lines and the read error (ReadBody is proved against it) |
| Ai.HandleLines | src/lib/ai.ts:126-142 | the inner loop emits exactly the deltas of its lines |
| Ai.ReadBody | src/lib/ai.ts:113-159 | the read loop emits the deltas of all lines of the concatenated body, or those of its complete lines and the read error |
| Ai.ValidConfigReachesServer | src/lib/ai.ts:79-82 | a valid configuration never yields the missing-configuration error |
| Ai.StreamFailures | src/lib/ai.ts:79-102 | failures before the body yield no delta; any delta or a clean end implies a valid configuration, a 2xx response and a readable body |
| Ai.ChunkingIrrelevant | src/lib/ai.ts:116-124 | two responses whose chunks concatenate to the same body yield the same result |
| Ai.ErrorMessage | src/lib/ai.ts:80-161 | the message of each error passed to `onError` (lines 80, 105, 110 and 161): the configuration notice, the fetch or read message, the status line with status and body, and the missing-reader notice (used by Reply) |
| Ai.Decimal | src/lib/ai.ts:105 | the status code in decimal, as the template literal writes it (stated by DecimalRoundTrip) |
| Ai.DecimalRoundTrip | src/lib/ai.ts:105 | the decimal text of a status reads back as the same number and has no leading zero |
| CanvasWrapper.Ids | src/components/excalidraw/wrapper.tsx:77 | the set holds exactly the ids of the elements |
| CanvasWrapper.IdsAppend | src/components/excalidraw/wrapper.tsx:93 | the ids of a concatenation are the union of the ids |
| CanvasWrapper.IdsCons | src/components/excalidraw/wrapper.tsx:77 | the ids of a first element and a rest are its id plus the rest's ids |
| CanvasWrapper.Resolve | src/components/excalidraw/wrapper.tsx:80-89 | the mapping returns one element per input element |
| CanvasWrapper.Renamed | src/components/excalidraw/wrapper.tsx:83 | a renamed id is the old id followed by a dash and the generated suffix |
| CanvasWrapper.ResolveStep | src/components/excalidraw/wrapper.tsx:81-88 | a conflicting element is renamed and the new id is taken; otherwise it is kept and its own id is taken |
| CanvasWrapper.ResolveAt | src/components/excalidraw/wrapper.tsx:80-89 | element i is renamed exactly when its id is among the canvas ids or the ids produced before it in the batch |
| CanvasWrapper.RuleAfterFirst | src/components/excalidraw/wrapper.tsx:80-89 | the renaming rule for later elements is unchanged when a first element is placed in front |
| CanvasWrapper.ResolveShape | src/components/excalidraw/wrapper.tsx:80-89 | each added element keeps all its properties, and its id is either its own or its renamed form |
| CanvasWrapper.ResolveFresh | src/components/excalidraw/wrapper.tsx:83-84 | with fresh renamed ids, an added id is neither a canvas id nor an id produced earlier in the batch |
| CanvasWrapper.AppendKeepsIdsUnique | src/components/excalidraw/wrapper.tsx:77-93 | a canvas with unique ids still has unique ids after the batch is appended |
| CanvasWrapper.ActiveElementsExact | src/components/excalidraw/wrapper.tsx:112 | exactly the non-deleted elements are kept, and a list without deleted elements is unchanged |
| CanvasWrapper.ActiveElements | src/components/excalidraw/wrapper.tsx:112 | the kept elements are no more than the input, and none of them is deleted |
| CanvasWrapper.IsDeleted | src/components/excalidraw/wrapper.tsx:112 | an element is deleted when its `isDeleted` is truthy (stated by ActiveElements and ActiveElementsExact) |
| CanvasWrapper.IsValidStored | src/components/excalidraw/wrapper.tsx:36 | a stored element is valid when it is truthy, has a truthy id and type, and numeric x and y |
| CanvasWrapper.HasElementsArray | src/components/excalidraw/wrapper.tsx:33 | the parsed snapshot is truthy and its `elements` is an array (stated by LoadCanvasDataCases) |
| CanvasWrapper.LoadCanvasData | src/components/excalidraw/wrapper.tsx:26-50 | a loaded snapshot is non-empty and holds only valid elements; the stored entry is removed exactly when it was present, non-empty and unusable |
| CanvasWrapper.LoadCanvasDataCases | src/components/excalidraw/wrapper.tsx:28-49 | nothing stored loads nothing and removes nothing; text that does not parse, or whose `elements` is not an array, is removed; otherwise exactly the valid elements, in order, are loaded when there is one, and the snapshot is removed when there is none |
| CanvasWrapper.LoadValidSnapshot | src/components/excalidraw/wrapper.tsx:33-40 | a stored snapshot of valid elements is loaded as it is, and not removed |
| CanvasWrapper.ExcalidrawWrapper.constructor | src/components/excalidraw/wrapper.tsx:66-68 | the wrapper starts from the given canvas and snapshot |
| CanvasWrapper.ExcalidrawWrapper.AddElements | src/components/excalidraw/wrapper.tsx:72-96 | without the canvas API or elements nothing changes; otherwise the scene becomes the old scene followed by the resolved batch |
| CanvasWrapper.ExcalidrawWrapper.ClearCanvas | src/components/excalidraw/wrapper.tsx:97-102 | with the canvas API the scene and the stored snapshot are emptied; without it nothing changes |
| CanvasWrapper.ExcalidrawWrapper.GetElements | src/components/excalidraw/wrapper.tsx:103-106 | the scene elements with the canvas API, otherwise none |
| CanvasWrapper.ExcalidrawWrapper.HandleChange | src/components/excalidraw/wrapper.tsx:110-115 | the non-deleted elements are stored and reported, and the scene is untouched |
| ChatHistory.SavedSessions | src/components/excalidraw/use-chat-history.ts:44-53 | the stored list is the first min(n, 50) sessions, all of them when there are at most 50 |
| ChatHistory.LoadSessions | src/components/excalidraw/use-chat-history.ts:31-39 | missing, empty or undecodable data loads no sessions; otherwise the decoded list |
| ChatHistory.Title | src/components/excalidraw/use-chat-history.ts:115-118 | a short message is its own title; a longer one gives its first 30 characters followed by "..." |
| ChatHistory.AppendMessage | src/components/excalidraw/use-chat-history.ts:103-126 | the message is appended, the timestamp updated, and only a first user message sets the title |
| ChatHistory.WithMessageEffect | src/components/excalidraw/use-chat-history.ts:104-126 | every session with the target id gets the message; every other session is unchanged and the order is kept |
| ChatHistory.WithMessage | src/components/excalidraw/use-chat-history.ts:104-126 | the list after `addMessage` keeps its length (its effect is stated by WithMessageEffect) |
| ChatHistory.Reword | src/components/excalidraw/use-chat-history.ts:140-142 | only the message with the given id changes, and only its content |
| ChatHistory.Reworded | src/components/excalidraw/use-chat-history.ts:138-144 | a session after `updateMessage` keeps its id, title, creation time and number of messages, and its update time is the new one |
| ChatHistory.WithContentEffect | src/components/excalidraw/use-chat-history.ts:136-145 | only the target session changes: its matching messages get the new content and its timestamp is updated |
| ChatHistory.WithContent | src/components/excalidraw/use-chat-history.ts:136-145 | the list after `updateMessage` keeps its length (its effect is stated by WithContentEffect and LaterUpdateWins) |
| ChatHistory.LaterUpdateWins | src/components/excalidraw/use-chat-history.ts:131-146 | two updates of the same message equal the later one alone |
| ChatHistory.CurrentSession | src/components/excalidraw/use-chat-history.ts:81 | the first session whose id is the current id, or none exactly when there is no current id or no such session |
| ChatHistory.DeleteEffect | src/components/excalidraw/use-chat-history.ts:149-160 | no remaining session has the id, every other session remains, the current id moves off the deleted one, and a valid current id stays valid |
| ChatHistory.Without | src/components/excalidraw/use-chat-history.ts:151 | the remaining sessions are sessions of the list, none with the deleted id |
| ChatHistory.NextCurrent | src/components/excalidraw/use-chat-history.ts:153-157 | the first remaining session when the current one was deleted, none when nothing remains, otherwise unchanged (stated by DeleteEffect) |
| ChatHistory.ChatHistory.constructor | src/components/excalidraw/use-chat-history.ts:64-71 | the loaded sessions, with the first one current, and the stored copy in step |
| ChatHistory.ChatHistory.CreateSession | src/components/excalidraw/use-chat-history.ts:84-95 | a new empty session is put first and made current; an empty title falls back to the default |
| ChatHistory.ChatHistory.AddMessage | src/components/excalidraw/use-chat-history.ts:98-128 | returns the new message id and appends the message to the target session, with the current id unchanged and the stored copy in step |
| ChatHistory.ChatHistory.UpdateMessage | src/components/excalidraw/use-chat-history.ts:131-146 | replaces the content of the message in the target session, with the current id unchanged and the stored copy in step |
| ChatHistory.ChatHistory.DeleteSession | src/components/excalidraw/use-chat-history.ts:149-160 | removes the sessions with the id and moves the current id off it, keeping a valid one valid |
| ChatHistory.ChatHistory.ClearAllSessions | src/components/excalidraw/use-chat-history.ts:163-166 | no sessions, no current session, and nothing stored |
| ChatHistory.ChatHistory.SwitchSession | src/components/excalidraw/use-chat-history.ts:169-171 | only the current id changes |
| MobileInput.NoSession | src/components/excalidraw/mobile-input.tsx:56-57 | no session is selected when the current id is null or empty (stated by RecordExchange) |
| MobileInput.TargetSession | src/components/excalidraw/mobile-input.tsx:56-59 | the exchange goes to the new session when none is selected, otherwise to the current one (stated by RecordExchange and HandleSend) |
| MobileInput.Recorded | src/components/excalidraw/mobile-input.tsx:55-65 | the sessions once the exchange is recorded: a new session first when none is selected, then the user message and an empty assistant message in the target session (RecordExchange is proved against it) |
| MobileInput.CursorTraceGrows | src/components/excalidraw/mobile-input.tsx:78-83 | the trace of cursor values stays non-decreasing and bounded when the cursor moves forward |
| MobileInput.Generated | src/components/excalidraw/mobile-input.tsx:78 | the objects with an id among the complete objects of the text, in order (stated by GeneratedGrows and BatchesDeliverAll) |
| MobileInput.GeneratedGrows | src/components/excalidraw/mobile-input.tsx:74-78 | more text never takes back an object with an id already found: the old list is a prefix of the new one |
| MobileInput.CursorAtEndGrows | src/components/excalidraw/mobile-input.tsx:81 | more text never moves back the end of the last complete object, and that end never passes the text |
| MobileInput.DeltaBatch | src/components/excalidraw/mobile-input.tsx:78-80 | the batch a delta hands to `onElementsGenerated`: the objects with an id that its arrival completed (stated by BatchStep and OnChunk) |
| MobileInput.BatchesAfter | src/components/excalidraw/mobile-input.tsx:73-84 | the batches handed over by the first n deltas, empty ones skipped (stated by BatchesDeliverAll; DeliverChunks is proved against it) |
| MobileInput.CursorAfterDeltas | src/components/excalidraw/mobile-input.tsx:78-83 | `processedLength` after n deltas: it moves to the end of the last complete object exactly when the delta delivered a batch, and stays otherwise (stated by CursorLogTrace) |
| MobileInput.CursorLog | src/components/excalidraw/mobile-input.tsx:78-83 | the cursor after each delta, in order (stated by CursorLogTrace; DeliverChunks is proved against it) |
| MobileInput.DeliverRest | src/components/excalidraw/mobile-input.tsx:79-80 | delivering what the new list has beyond the delivered prefix brings the delivered elements up to the new list |
| MobileInput.BatchStep | src/components/excalidraw/mobile-input.tsx:73-84 | one more delta keeps the delivered elements equal to the objects with an id of the text received |
| MobileInput.BatchesDeliverAll | src/components/excalidraw/mobile-input.tsx:73-84 | however the reply is cut into deltas, the batches are non-empty and together they are the objects with an id of the text received, each once and in order |
| MobileInput.CursorLogTrace | src/components/excalidraw/mobile-input.tsx:78-83 | the logged cursors never move back, one per delta, and the cursor never passes the end of the last complete object of the text received |
| MobileInput.InSync | src/components/excalidraw/mobile-input.tsx:78-83 | the delivered batches are non-empty and concatenate to the objects with an id among the first objects of the text, and the cursor stands right after those objects (kept by OnChunk, DeliverChunks and FinalParse) |
| MobileInput.Streamed | src/components/excalidraw/mobile-input.tsx:71-84 | the state after the first k deltas: the text received, and the batches, cursor and cursor log the deltas determine (kept by DeliverDelta) |
| MobileInput.RecordExchange | src/components/excalidraw/mobile-input.tsx:55-65 | a session is created only when none is selected, then the user message and an empty assistant message are appended to it |
| MobileInput.Deliver | src/components/excalidraw/mobile-input.tsx:79-80 | a batch is appended only when non-empty, the earlier batches are kept as a prefix, at most one batch is added, and the delivered elements grow by exactly the batch |
| MobileInput.OnChunk | src/components/excalidraw/mobile-input.tsx:73-84 | after a delta the earlier batches stay as they were and at most one batch is added, holding exactly the objects with an id completed since the last delivery; the delivered elements are then all the objects with an id so far; a delivery moves the cursor to just after the last complete object, no delivery leaves it where it was; the assistant message shows the text so far |
| MobileInput.DeliverDelta | src/components/excalidraw/mobile-input.tsx:73-84 | handling delta k takes the batches, cursor and cursor log from those of k deltas to those of k + 1 |
| MobileInput.DeliverChunks | src/components/excalidraw/mobile-input.tsx:71-84 | after all deltas the text is their concatenation, and the batches, the cursor and the cursor log are exactly those the deltas determine (BatchesAfter, CursorAfterDeltas, CursorLog); hence every object with an id is delivered once, in order, and the cursor never moves back |
| MobileInput.OnError | src/components/excalidraw/mobile-input.tsx:85-89 | the assistant message is replaced by the apology with the error message |
| MobileInput.Reply | src/components/excalidraw/mobile-input.tsx:87 | the final assistant text: the reply, or the apology with the error message (used by OnError and StreamReply) |
| MobileInput.FinalParse | src/components/excalidraw/mobile-input.tsx:92-97 | after the final parse the delivered elements are exactly the id-carrying objects of the whole reply, and "generated" holds exactly when a batch was delivered; after callbacks that delivered everything it adds nothing |
| MobileInput.AfterStream | src/components/excalidraw/mobile-input.tsx:85-102 | after the stream: the apology replaces the message exactly when it failed, the final parse hands over nothing once the callbacks delivered everything, and the notices are the failure one when it failed and the success one when a batch was delivered |
| MobileInput.StreamReply | src/components/excalidraw/mobile-input.tsx:67-102 | the batches and the cursor log are exactly those the streamed deltas determine, so the whole reply is delivered once, in order, in non-empty batches; the failure and success notices and the final message text follow |
| MobileInput.Answered | src/components/excalidraw/mobile-input.tsx:75-87 | the sessions at the end: untouched when no delta arrived and nothing failed, otherwise with the assistant message set to the reply or the apology (stated by StreamReply and HandleSend) |
| MobileInput.HandleSend | src/components/excalidraw/mobile-input.tsx:42-105 | blank input or a running send does nothing; an unusable configuration only shows the notice; otherwise the exchange is recorded in the target session and streamed as above, with exactly the batches and cursor log the deltas determine, and the notices |

## Left out

- The network, `fetch`, `ReadableStream` and `TextDecoder` are left out. A
  response is given as its status, its error text and its body already
  decoded into text chunks, plus an optional read error.
- The request body, the headers and the system prompt of `streamChat` are not
  modelled (`src/lib/prompt.ts` is not part of this model).
- `JSON.parse` is a parameter. For the stream it maps a payload to
  `choices[0].delta.content`, already coerced to a string. A non-string
  content value is not modelled.
- Local storage is modelled as values: the read string and the stored lists.
  A failing `setItem` (quota, stringify) and the `typeof window` checks are
  not modelled.
- `Math.random`, `Date.now`, `generateId`, `generateElementId` and the
  localised default session title are parameters. One `now` stands for every
  clock read in one operation.
- Text is a sequence of Unicode characters rather than UTF-16 code units, so
  lengths and `slice` agree with the source only for text without surrogate
  pairs.
- The Excalidraw library is left out: `updateScene`, `getSceneElements`, the
  `onChange` that follows an update, and rendering. The scene is a field of
  the wrapper.
- `saveAIConfig` and the settings dialog are left out. So are `index.tsx`,
  `App.tsx` and the rest of the UI: key handling, IME composition, the
  loading flag and clearing the input (implied by `Sent`), and toast
  durations.
- The hook's state before its initial load has run (`isLoaded` false) is left
  out. The class starts from the loaded sessions.
- React's asynchronous state batching is left out. The model applies each
  `setSessions` and `setCurrentSessionId` immediately.
- `handleSend` runs the stream first and then the callbacks. This is
  equivalent because `streamChat` calls `onError` only after every `onChunk`.
  Exceptions thrown by the callbacks themselves inside `streamChat` are not
  modelled.
- Console logging is left out.
- How `getDefaultElementProps` and `getTypeSpecificProps` are combined with a
  parsed element to build a canvas element happens outside the modelled files.
- ElementParser.DefaultElementProps: the real-valued draws stand for
  `Math.random()`. Only the `seed` and `versionNonce` ranges are stated, not
  their distribution.
- Ai.StreamFailures: it does not state the deltas emitted before a read
  error. `Ai.ReadBody` states them.
- ChatHistory.LoadSessions: stored text that parses to something other than
  a list of sessions is not modelled. `decode` yields either a session list
  or nothing. In the source such a value reaches the state unchecked: a
  stored `null` makes `loaded.length` throw, and an object or a number is
  kept as the session list.
