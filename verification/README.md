# findnach: the Hebrew normaliser, the embedding backfill and the corpus import

findnach is a semantic search over the Tanach. Every verse (*pasuk*) is a row of the `Pasuk` table.
A row holds the verse's Hebrew text. It may also hold a normalised "plain" text and an embedding
vector. This project models the four parts of the repository that hold logic, and proves
properties of the model:

- **`Hebrew`** models `normalizeHebrewText` (lib/hebrew.ts). It is four passes over a string:
  - delete the vowel points and cantillation marks U+0591..U+05C7;
  - blank every character that is neither white space nor in the Hebrew block U+0590..U+05FF;
  - map the five final letter forms to their standard letters;
  - collapse white-space runs to one space, then trim.

  Each pass is its own function. The lemmas prove what the output looks like
  (`NormalForm`), which letters survive, and that normalising twice changes nothing.
- **`Env`** models how lib/env.ts derives the embedding model and its dimensionality from the
  environment.
- **`Store`** models the `Pasuk` table as the class `PasukTable`. It holds the rows by serial id
  and the next value of the id sequence. Its methods are the backfill's query, the backfill's
  `UPDATE` and the import's upsert. Its invariant `Valid` is the unique constraint on
  (book, chapter, verse) plus "every id came from the sequence".
- **`Backfill`** models `main` of scripts/embed_tanach.ts as three nested imperative loops:
  - `Run` is the `while (true)` batch loop. It is proved with the loop invariant `RunInv`. Its
    body is the method `Pass`: the fetch and the embedding of one batch (`NextBatch`), then the
    progress line.
  - `EmbedBatch` is the loop over chunks of 20, with one provider call per chunk. It is proved
    against the recursive ghost function `BatchLoop`.
  - `EmbedChunk` is the loop over the rows of a chunk: it checks each returned vector and
    writes its row. It is proved against the recursive ghost function `ChunkLoop`.

  The run's invariant `RunInv` says three things:
  - every row the cursor has passed is written with its normalised text and a vector of the
    configured length, and every other row is as it was;
  - the ids written are ascending and are exactly the rows passed;
  - the cursor is the last id written.

  The run also returns, as ghost values, the provider calls it made and the ids whose texts
  they sent (`RunSent`). Counting answer slots across all calls in order (`SlotAt`), the k-th
  row written holds exactly the k-th slot, and that slot was a vector of the configured length
  (`Answered`). A run that aborts is `StoppedAt` the first row sent and not written: that
  row's slot is missing or of the wrong length, and the error is the one the slot calls for
  (`Verdict`). Each pass fetches the least BATCH_SIZE ids left and sends their plain texts in
  chunks of 20 (`Planned`).
- **`Import`** models `main` of scripts/import_tanach.ts. The method `Import` loops over the
  input lines: it skips blank ones, parses and checks each record by truthiness, and upserts it
  on its natural key. It is proved against the ghost function `ImportLoop`. The lemmas
  about `ImportLoop` state:
  - the count, and where and why the loop stops;
  - what the import keeps in every row;
  - the frame: which rows stay exactly as they were;
  - that the last record for a key wins.

External services are parameters of the model:
- The embedding provider is `embed: seq<string> -> seq<Option<Vector>>`, one call per chunk.
- `JSON.parse` is `parse: string -> Option<Record>`, where `None` means it throws.
- Input lines arrive as a `seq<string>`.
- Progress lines are returned as values: `Progress(totalEmbedded, lastId)` for the backfill, and
  the running count for the import.

## Model

| member | source | states |
|---|---|---|
| Hebrew.FinalToStandard | lib/hebrew.ts:4-10 | The result is never a final form. Each of the five final forms maps to its standard letter, the next code point, which lies in the Hebrew block and is not a mark. Every other character maps to itself. |
| Hebrew.StripMarks | lib/hebrew.ts:14 | The result contains no mark in U+0591..U+05C7, is no longer than the input, and has no character the input lacks. Which characters it keeps, and in what order, is stated by `StripMarksConcat` and `StripMarksChar`. |
| Hebrew.StripMarksConcat | lib/hebrew.ts:14 | Pass 1 works character by character: on a concatenation it is the concatenation of its results on the parts. |
| Hebrew.StripMarksChar | lib/hebrew.ts:14 | On one character, pass 1 gives nothing for a mark and the character itself otherwise. |
| Hebrew.CharClasses | lib/hebrew.ts:1-10 | The marks and the five final forms lie in the Hebrew block U+0590..U+05FF; a final form is not a mark; no white space lies in the block. |
| Hebrew.BlankForeignChar | lib/hebrew.ts:15 | The replacement is white space or in the Hebrew block. A character that is white space or in the block is kept; any other becomes ' '. |
| Hebrew.BlankForeign | lib/hebrew.ts:15 | Same length as the input. Character i of the result is character i of the input if that is white space or in the Hebrew block, and ' ' otherwise. |
| Hebrew.MapFinals | lib/hebrew.ts:16-18 | Same length as the input. Character i of the result is character i of the input mapped through the final-to-standard table, and no final letter form remains. |
| Hebrew.TrimStart | lib/hebrew.ts:20 | The result is a suffix of the input. Everything cut off is white space, and the result does not start with white space. |
| Hebrew.TrimEnd | lib/hebrew.ts:20 | The result is a prefix of the input. Everything cut off is white space, and the result does not end with white space. |
| Hebrew.Trim | lib/hebrew.ts:20 | The result neither starts nor ends with white space and is no longer than the input. Having no marks, only Hebrew or spaces, no final forms, or single spacing carries over from input to result. |
| Hebrew.TrimCuts | lib/hebrew.ts:20 | Trimming returns the contiguous piece of the input that remains after cutting a run of white space from the front and one from the back. |
| Hebrew.TrimEmpty | scripts/import_tanach.ts:27-28 | Trimming leaves the empty string exactly when every character is white space. |
| Hebrew.Collapse | lib/hebrew.ts:19 | The result is no longer than the input, and it starts with a space exactly when the input starts with white space. `CollapseSingleSpaced` and `CollapseLed` state where the spaces go. |
| Hebrew.CollapseSingleSpaced | lib/hebrew.ts:19 | After the collapse the only white space is ' ', never twice in a row. |
| Hebrew.Words | lib/hebrew.ts:19-20 | Every word is non-empty and holds no white space. This is the reference for where the last two passes put spaces. |
| Hebrew.UnwordsTrimmed | lib/hebrew.ts:19-20 | Words joined by single spaces neither start nor end with white space, and are non-empty when there is a word. |
| Hebrew.CollapseLed | lib/hebrew.ts:19 | For input that does not start with white space, the collapse is its words joined by single spaces, plus one space when the input ends with white space. |
| Hebrew.TrimCollapse | lib/hebrew.ts:19-20 | Collapsing and then trimming any string gives its words joined by single spaces. |
| Hebrew.CollapseKeeps | lib/hebrew.ts:19 | Collapsing adds no character other than ' '. |
| Hebrew.Normalize | lib/hebrew.ts:12-21 | The output is never longer than the input. Its exact contents are stated by `NormalizeWords`. |
| Hebrew.NormalizeWords | lib/hebrew.ts:12-21 | The output is the words of the first three passes' result, joined by single spaces. |
| Hebrew.NormalizeNormalForm | lib/hebrew.ts:12-21 | Every output has no marks, only Hebrew-block characters or ' ', no final forms, no double spaces, and no leading or trailing white space. |
| Hebrew.NonSpaceCollapse | lib/hebrew.ts:19 | Collapsing white space keeps every other character, in order. |
| Hebrew.NonSpaceTrim | lib/hebrew.ts:20 | Trimming keeps every non-white-space character, in order. |
| Hebrew.NonSpacePasses | lib/hebrew.ts:14-18 | After the first three passes, the non-space characters are exactly the input's Hebrew-block non-mark characters, final forms mapped, in order. |
| Hebrew.NormalizeKeepsLetters | lib/hebrew.ts:14-20 | Deleting the white space from the output gives exactly the input's Hebrew-block characters outside U+0591..U+05C7, in order, with final forms mapped. |
| Hebrew.NormalizeNoLetters | lib/hebrew.ts:14-20 | Input made only of marks, white space and non-Hebrew characters normalises to the empty string. |
| Hebrew.StripMarksFixes | lib/hebrew.ts:14 | Stripping marks from a string that has none changes nothing. |
| Hebrew.CollapseFixes | lib/hebrew.ts:19 | Collapsing a single-spaced string changes nothing. |
| Hebrew.NormalizeFixes | lib/hebrew.ts:12-21 | A string already in normal form normalises to itself. |
| Hebrew.NormalizeIdempotent | lib/hebrew.ts:12-21 | normalize(normalize(x)) == normalize(x). |
| Env.Load | lib/env.ts:10-15 | `databaseUrl` and `openaiApiKey` pass through unchanged. The model and the dimensionality are `ModelName` and `Dims` of the environment. The large model gets 3072 dimensions and the small model 1536. |
| Env.ModelName | lib/env.ts:1 | EMBEDDING_MODEL when it is set, else text-embedding-3-small. |
| Env.Dims | lib/env.ts:3-8 | The dimensionality is 3072, 1536 or the override. |
| Env.LargeModelDims | lib/env.ts:3-5 | text-embedding-3-large yields 3072 whatever the override is. |
| Env.SmallModelDims | lib/env.ts:6-7 | text-embedding-3-small yields 1536 whatever the override is. |
| Env.OtherModelDims | lib/env.ts:8 | Any other model yields the EMBEDDING_DIMENSIONS override when set, else 1536. |
| Env.UnsetModel | lib/env.ts:1-8 | With EMBEDDING_MODEL unset, the model is text-embedding-3-small and the dimensionality is 1536, override or not. |
| Store.PasukTable.SelectUnembedded | scripts/embed_tanach.ts:21-28 | It returns at most `limit` rows, each with id > after and no embedding, with its own text, in strictly ascending id order. They are the smallest such ids: a qualifying row is left out only when the answer is full and every returned id is below it. |
| Store.SetRow | scripts/embed_tanach.ts:60-66 | The same ids. The target row gets the plain text and the vector and keeps everything else. Every other row is unchanged. |
| Store.PasukTable.SetEmbedding | scripts/embed_tanach.ts:60-66 | The table becomes `SetRow` of the old table, the id sequence is untouched, and the unique constraint is kept. |
| Store.UpsertedFresh | scripts/import_tanach.ts:35-54 | An upsert keeps the unique constraint and the id sequence ahead of every id. The keys present become the old keys plus the upserted key. |
| Store.UpsertedRows | scripts/import_tanach.ts:35-54 | After an upsert, the row holding the key has the record's book order and text. Rows with other keys are unchanged. Existing rows keep their id, key, plain text and embedding. A new row has neither plain text nor embedding. |
| Store.PasukTable.Upsert | scripts/import_tanach.ts:35-54 | The table becomes `Upserted` of the old one, keeps `Valid`, and the returned id holds the key. |
| Store.InsertAddsKey | scripts/import_tanach.ts:47-53 | Inserting a new key under the next id adds exactly that key and keeps the keys unique. |
| Store.UpdateKeepsKeys | scripts/import_tanach.ts:43-46 | Updating book order and text keeps the keys and their uniqueness. |
| Store.Upserted | scripts/import_tanach.ts:35-54 | An upsert of a key already present keeps the same ids and the id sequence. An upsert of a new key adds exactly the id the sequence held, and advances the sequence by one. |
| Store.UpsertedUnembedded | scripts/import_tanach.ts:43-46 | An upsert never clears an embedding: a verse imported again with new text keeps the vector of its old text, so the backfill, which picks only rows without one, does not revisit it. Only an inserted row past the cursor joins the rows without an embedding. |
| Backfill.ChunksPartition | scripts/embed_tanach.ts:36-38 | The chunks of 20 cover the batch exactly once, in order. Each holds 1 to 20 rows, and all but the last hold exactly 20. |
| Backfill.BatchSize | scripts/embed_tanach.ts:12 | With EMBED_BATCH_SIZE unset, the batch size is 50; otherwise it is the value given. |
| Backfill.StartAfter | scripts/embed_tanach.ts:13 | With START_AFTER_ID unset, the run starts after id 0; otherwise after the id given. |
| Backfill.BatchLoopStop | scripts/embed_tanach.ts:36-57 | A chunk loop that stops has stopped on its own answers. Counting from the loop's start, the row it stopped at is a slot of the last provider call. That slot is missing or of the wrong length, and the error is that slot's `Verdict`. |
| Backfill.StoppedOnAppend | scripts/embed_tanach.ts:20-57 | A stop on a slot of the last call stays that stop when earlier calls go before it, counted from the run's first text. |
| Backfill.StoppedOnBound | scripts/embed_tanach.ts:36-57 | The slot stopped at lies within the texts sent. |
| Backfill.ChunkEnd | scripts/embed_tanach.ts:36-38 | A chunk starting inside the batch is non-empty, ends within the batch, holds at most 20 rows, and holds exactly 20 unless it reaches the end. |
| Backfill.ResponseAt | scripts/embed_tanach.ts:48 | Inside the answer, the slot read is exactly the answer's entry at that position. Past the end of the answer, the slot is missing. |
| Backfill.Verdict | scripts/embed_tanach.ts:49-57 | The error names the row. A missing slot gives the missing-embedding error. A present vector gives the length error with the configured length and the vector's own length. For a slot the loop rejects, those two lengths differ. |
| Backfill.ChunkLoop | scripts/embed_tanach.ts:45-70 | The inner loop ends at or after its start slot, within the chunk, and leaves the same row ids. |
| Backfill.EmbedChunk | scripts/embed_tanach.ts:45-70 | The table becomes what `ChunkLoop` says. The loop completes exactly when every slot is written. The cursor is the last id written, and the count grows by the rows written. |
| Backfill.ChunkLoopShape | scripts/embed_tanach.ts:45-57 | Every slot before the stop had a vector of the configured length. The loop completes exactly at the end of the chunk; otherwise it stops at the first slot whose vector is missing or has the wrong length, with that slot's error. |
| Backfill.ChunkLoopKeeps | scripts/embed_tanach.ts:45-70 | A row the inner loop did not reach is unchanged. |
| Backfill.ChunkLoopWrites | scripts/embed_tanach.ts:59-66 | A row the inner loop got past holds its own normalised text and its own answer slot's vector, and nothing else about it changed. |
| Backfill.Normalized | scripts/embed_tanach.ts:34 | One normalised text per fetched row; `NormalizedAt` gives text k. |
| Backfill.NormalizedAt | scripts/embed_tanach.ts:34 | Text k of the batch is the normalised Hebrew text of row k. |
| Backfill.BatchLoop | scripts/embed_tanach.ts:36-71 | The chunk loop stops within the batch and leaves the same row ids. |
| Backfill.EmbedBatch | scripts/embed_tanach.ts:36-71 | The table, outcome, rows written and provider calls are what `BatchLoop` says. The cursor is the last id written, and the count grows by the rows written. |
| Backfill.BatchLoopCalls | scripts/embed_tanach.ts:36-43 | There is one provider call per chunk, in order, each given that chunk's normalised texts. A completed loop makes every call; a stopped one makes the calls up to the chunk it stopped in. |
| Backfill.BatchLoopSent | scripts/embed_tanach.ts:36-43 | The texts the chunk loop sends, call after call, are the batch's texts from its start, up to the end of the chunk it stopped in. That covers every row written, and a completed loop has sent every text. |
| Backfill.BatchLoopChunkSized | scripts/embed_tanach.ts:36-43 | Each provider call sends between 1 and 20 texts. |
| Backfill.BatchCalls | scripts/embed_tanach.ts:34-57 | The calls of one batch send the plain texts of a prefix of the batch: the rows whose texts were sent, in fetch order. These rows had no embedding when the run started and come after the rows already done. They begin with the rows the batch wrote, all of them when it completed. A stopped batch is `StoppedAt` the first row sent and not written, on a bad slot of the answer. |
| Backfill.SlotAtPrefix | scripts/embed_tanach.ts:36-48 | Slot k of the run's answers, for k within the texts sent by the earlier calls, is the same slot whatever calls follow. |
| Backfill.SlotAtShift | scripts/embed_tanach.ts:36-48 | The slots of later calls keep their order: slot k of the later calls is slot (texts sent earlier + k) of the whole run. |
| Backfill.StoppedOnSlot | scripts/embed_tanach.ts:48-57 | The slot a stop names, counted across all calls, is missing or of the wrong length, and the error is that slot's `Verdict`. |
| Backfill.AnsweredAppend | scripts/embed_tanach.ts:20-71 | When the earlier rows hold their slots and a later pass leaves them unchanged, the rows of both hold their own slots of the joined calls. |
| Backfill.BatchLoopSlot | scripts/embed_tanach.ts:36-66 | A row the chunk loop wrote holds exactly the answer slot its position in the batch names, and that slot was a vector of the configured length. |
| Backfill.BatchAnswered | scripts/embed_tanach.ts:36-66 | The k-th row a batch wrote holds the k-th slot of the batch's answers, and that slot was good. |
| Backfill.BatchKeepsDone | scripts/embed_tanach.ts:36-71 | A batch past the cursor leaves the rows the run wrote before it unchanged. |
| Backfill.BatchAnswers | scripts/embed_tanach.ts:34-71 | The rows a fetched batch wrote hold their own good answer slots, and the rows done before it are unchanged. |
| Backfill.BatchPlan | scripts/embed_tanach.ts:21-43 | A fetched batch is sent as planned. Its calls are the chunks of 20 of its ids' plain texts, in order, all of them when it completed. The ids sent are a prefix of the fetch, all of it when it completed. |
| Backfill.NoRowsNoCalls | scripts/embed_tanach.ts:20-43 | When no row past the start lacked an embedding, no provider call was made. |
| Backfill.RunCalls | scripts/embed_tanach.ts:20-71 | The calls of one more pass, appended to the earlier ones, keep `RunCallsOk`. The rows done are a prefix of the rows sent. A pass that stopped on a bad answer slot leaves the whole run `StoppedAt` that same slot. Each row written, earlier or in this pass, holds its own slot of the whole run's answers, and that slot was good (`Answered`). |
| Backfill.BatchLoopShape | scripts/embed_tanach.ts:36-57 | The chunk loop completes exactly when it writes the whole batch. Otherwise it stops with an error naming the row it reached; a length error reports the configured length and a length other than it. |
| Backfill.BatchLoopKeeps | scripts/embed_tanach.ts:36-71 | A row the chunk loop did not reach is unchanged. |
| Backfill.BatchLoopWrites | scripts/embed_tanach.ts:45-69 | A row the chunk loop got past holds its normalised text and a vector of the configured length, and nothing else about it changed. |
| Backfill.BatchLoopEffect | scripts/embed_tanach.ts:36-71 | Over an ascending batch: the rows reached are written with their own text and an accepted vector, and all other rows are unchanged. The loop completes exactly at the end of the batch, else it stops with the error of the row it reached. |
| Backfill.FetchedIncreasing | scripts/embed_tanach.ts:21-28 | A fetch comes back in strictly increasing id order; `AscendingIncreasing` gives the same for any batch whose ids ascend. |
| Backfill.FetchedTexts | scripts/embed_tanach.ts:34 | The normalised texts of a fetch are the plain texts of the rows the run started with. |
| Backfill.StepRows | scripts/embed_tanach.ts:59-69 | After a batch that wrote rows, the rows the cursor has passed are filled and every other row is as it was. |
| Backfill.StepDoneOrder | scripts/embed_tanach.ts:68-69 | After a batch, the ids written are still strictly ascending and are all passed rows, and the cursor is the last of them. |
| Backfill.RunStep | scripts/embed_tanach.ts:59-69 | A batch that wrote rows keeps the run's invariant, with the cursor at the last row written. |
| Backfill.StepShrinks | scripts/embed_tanach.ts:20-32 | A batch that wrote rows strictly shrinks the set of starting-table rows without embedding past the cursor: the termination measure. |
| Backfill.StepLeast | scripts/embed_tanach.ts:48-57 | When a batch stops at an error after writing rows, the row it stopped at is the least unembedded id past the new cursor. |
| Backfill.FirstLeast | scripts/embed_tanach.ts:21-28 | The first row of a non-empty fetch is the least unembedded id past the cursor. |
| Backfill.EmptyFetchDone | scripts/embed_tanach.ts:21-32 | An empty fetch of a positive number of rows means no row past the start id lacks an embedding. |
| Backfill.RunKeepsKeys | scripts/embed_tanach.ts:60-66 | The backfill never changes a natural key, so the unique constraint holds. |
| Backfill.CompletedFillsAll | scripts/embed_tanach.ts:20-32 | Once no row past the start lacks an embedding, the ids written are exactly the rows that had none when the run started. |
| Backfill.LoggedExtend | scripts/embed_tanach.ts:73 | Writing more rows keeps the progress lines printed so far true. |
| Backfill.LoggedAppend | scripts/embed_tanach.ts:73 | A progress line for the current totals extends a true log, with strictly growing totals. |
| Backfill.AfterSome | scripts/embed_tanach.ts:36-73 | A batch that wrote rows keeps the invariant and the unique constraint. It either completed, leaving fewer rows to do, or stopped at the least row left. |
| Backfill.AfterNone | scripts/embed_tanach.ts:45-57 | A batch that wrote nothing left the table unchanged and stopped at its first row, the least row left. |
| Backfill.BatchDone | scripts/embed_tanach.ts:34-71 | For a fetched, non-empty batch: the invariant holds with the written ids appended. A completed batch wrote rows and left fewer to do. A stopped one stopped at the least row left. A length error reports the configured length and a length other than it. |
| Backfill.NextBatch | scripts/embed_tanach.ts:21-73 | One pass of the outer loop keeps the invariant and counts the rows written. An empty fetch ends the run with nothing left and makes no provider call. Otherwise it completes with fewer rows left, or stops at the least row left. `Planned`: the pass fetched the least min(batch size, rows left) ids past the cursor with no embedding, in ascending order. Its calls are the chunks of 20 of their plain texts, in order, all of them when it completed. The ids sent are a prefix of the fetch, all of it when it completed. `PassCalls`: the rows written are a prefix of the ids sent. The k-th row written holds the k-th answer slot of the pass, which was a vector of the configured length, and rows done earlier are unchanged. A pass that stops has sent the row it stopped at, the first row sent and not written. Its slot is missing or of the wrong length, and the error is that slot's `Verdict`. |
| Backfill.Pass | scripts/embed_tanach.ts:20-74 | One turn of the outer loop: `NextBatch`, then a progress line with the running total and the last id after a completed batch. It keeps the invariant, the log and `RunCallsOk`. Each row done holds its own answer slot of the run, which was good. A pass that stops is `StoppedAt` a bad answer slot: the row it names is the first row sent and not done, and the error is that slot's `Verdict`. |
| Backfill.Run | scripts/embed_tanach.ts:15-77 | Rows with an embedding, or with id at most START_AFTER_ID, are untouched, and so is every row not yet passed. Rows passed hold their normalised text and a vector of the configured length. The ids written are ascending, `lastId` is the last of them and `totalEmbedded` their number. With a positive batch size, a completed run leaves no row past the start without an embedding. An aborted run stopped at the least row left, and a length error reports the configured length. Each progress line reports a prefix of the ids written, and after completion the last line reports the final totals. `RunCallsOk`: every provider call sends 1 to 20 plain texts of rows that had no embedding when the run started, in ascending id order. The ids written are a prefix of the ids sent, all of them when the run completed. No call is made when there is nothing to embed. Counting answer slots across all calls, the k-th row written holds exactly the k-th slot, and that slot was a vector of the configured length. An aborted run is `StoppedAt` a bad answer slot: the row named is the first row sent and not written. Its slot is missing or of the wrong length, and the error is that slot's `Verdict`. |
| Import.Classified | scripts/import_tanach.ts:27-31 | A line is skipped exactly when it is all white space. Any other line is upserted exactly when its trimmed text parses to a record that passes the truthiness check `Complete` (book and text non-empty, book order, chapter and verse non-zero); the upsert uses that record's key, book order and text. |
| Import.ImportLoop | scripts/import_tanach.ts:26-60 | The loop stops within the lines. It completes exactly when it has read them all. |
| Import.ImportCounts | scripts/import_tanach.ts:26-56 | `processed` is the number of accepted records before the stop, and every earlier line was blank or accepted. It stops on a parse failure exactly at an unparsable line, and on an invalid row exactly at an incomplete record, which it reports as line `processed + 1`. |
| Import.ImportKeepsRows | scripts/import_tanach.ts:35-54 | The unique constraint holds, so each key appears at most once. Existing rows keep id, key, plain text and embedding. New rows have neither. The keys afterwards are the keys before plus those of the records upserted. |
| Import.ImportFrame | scripts/import_tanach.ts:26-54 | A row whose key no upserted record carries is left exactly as it was. |
| Import.KeptAfter | scripts/import_tanach.ts:35-54 | A key keeps its values through lines that upsert no record with that key. |
| Import.LastRecordWins | scripts/import_tanach.ts:35-54 | A record accepted before the stop, with no later upserted record for its key, is what its key holds afterwards. This also covers records upserted before a failing line. |
| Import.MilestonesThousands | scripts/import_tanach.ts:56-59 | There is one progress line per full thousand records, reporting 1000, 2000, ... in turn. |
| Import.ImportLine | scripts/import_tanach.ts:27-59 | One line advances the loop exactly as `ImportLoop` does: it stops unchanged on a failure, or goes on to the next line with the table upserted and the count updated. The progress lines stay those for the count. |
| Import.Import | scripts/import_tanach.ts:14-63 | The table, outcome and count are what `ImportLoop` says for the classified lines. `Valid` is kept. The progress lines are those for the final count. |

## Left out

- Strings are sequences of Unicode scalar values. JavaScript's regular expressions, `split('')` and `trim` work on UTF-16 code units, so pass 2 turns a character outside the Basic Multilingual Plane into two spaces where the model makes one. After the collapse the output is the same.
- JavaScript's `\s` and `String.prototype.trim` are written out as the fixed set `Hebrew.IsSpace`: the ECMAScript WhiteSpace and LineTerminator code points, with Zs as of current Unicode.
- `Number(...)` parsing of EMBED_BATCH_SIZE, START_AFTER_ID and EMBEDDING_DIMENSIONS is left out, including NaN, fractional and negative values. The batch size and the override are taken as given naturals and the start id as a given integer. A negative LIMIT, which the database rejects, cannot be expressed.
- The SQL text and Prisma calls are left out. So are `vectorLiteral` string building, `updated_at = NOW()` and the float values inside vectors; a vector is `seq<real>`, and only its length and identity matter.
- The embedding provider is a deterministic function of a chunk's texts. The model name passed to it and the lib/openai.ts client are not part of this model. A provider call that throws ends the run with the table exactly as an answer with no embeddings leaves it. The model reports that as `MissingEmbedding` for the chunk's first row instead of the thrown error.
- Thrown errors, `console.error`, `process.exit(1)` and `prisma.$disconnect` are left out. A failure is returned as an `Outcome`. After a failure the model also returns `lastId` and `totalEmbedded`, which the source does not print.
- Console output is modelled only for the per-batch and per-1000 progress lines. The final "complete" lines correspond to the totals returned.
- `JSON.parse` is an abstract `Parser`. A field of the wrong JSON type, such as a string `book_order`, is not modelled: `Record` fields are typed options.
- The import's file-existence check, the file stream and readline's line splitting are left out. The input is the sequence of lines.
- Concurrency between pipeline runs, and database errors other than the unique constraint, are left out.
- Backfill.Run: does not split its calls into per-batch groups of the least BATCH_SIZE ids left. That grouping is stated for one pass by `Backfill.NextBatch` (`Planned`), and `Run` keeps only what holds across passes: ascending ids, plain texts, chunks of 1 to 20.
- Backfill.Pass: does not carry `Planned` over from `NextBatch`, for the same reason as `Backfill.Run`.
- Backfill.Run: its `Logged` states only that each progress line reports a prefix of the ids written with strictly growing totals. That a line follows every completed batch is stated only by the method's loop, not as a separate postcondition.
- app/, components/, lib/openai.ts and scripts/set_embedding_dimensions.ts (UI, the search route, the client constructor and index DDL) are not part of this model.
