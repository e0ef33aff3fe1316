# Chat2DB-AI schema memory and SQL text pipeline, in Dafny

This project models the deterministic core of Chat2DB-AI, a chat front end
that turns questions into T-SQL for SQL Server. The model covers the
program's work on SQL text, schema memory and the chat context:

- **`schema.py`** (module `SqlSchema`). A SQL script's target database is
  its last `USE x;` that is not `master`. Each `CREATE TABLE` block yields
  per-column facts. The model covers the comma split that respects
  parentheses, the skipped constraint lines, nullability and primary keys.
  `DROP TABLE` and `DROP DATABASE` targets are collected too. Each regular
  expression is an explicit scanner over `seq<char>`.
- **`db.py`** (module `Batches`). `split_sql_batches` splits on whole-line
  `GO` and then at lines that open a statement. For `query_db` the model
  covers the inline-`GO` normalisation, the leading `USE` run apart, and
  sequential execution that stops at the first error. It also covers the
  shape of the result: a status text, one table, or a list of tables. The
  database is a `Connection` object, whose oracle answers each batch given
  every batch executed before it.
- **`memory.py`** (module `SchemaMemory`). The schema-memory file is a
  `FileState` field of the `SchemaStore` class. The model covers:
  - reading a missing or malformed file as no entries;
  - rendering entries as one system message per first-seen
    `(database, table)` key;
  - the append-only, duplicate-free save, which sorts each new entry's
    columns.
- **`llm.py`** (module `Assembly`). `sanitize_messages` is modelled, along
  with the fixed layout of the message list and the choice of reply text
  from the completion service's answer.
- **`rag.py`** (module `Retrieval`). The token-budgeted loop over the
  search results, which skips an overflowing chunk and stops once the
  budget is reached.
- **`chat_module.py`** (module `ChatTurn`):
  - renaming repeated result-column labels;
  - the sorted list of database names found in the schema messages;
  - the databases offered, and the ten-message memory window;
  - the schema update after an admin's reply, including its drop filter;
  - the prefix test that sends a reply to the database.
- **`summary.py`** (module `Summary`). `chunk_schema` and `batch_chunks`.

Module `Text` holds the string helpers shared by the modules: Python's
whitespace set, `strip`, `split`, `splitlines`, `join` and `lower`, plus
subsequences and lexicographic order.

Each operation that works by looping is a method whose loop is proved
against a specification function. The lemmas prove properties of those
functions. The following behaviours are deliberate and are reproduced
rather than corrected:

- The drops dictionary always has two keys, so it is never falsy.
- Records with role `admin` are dropped by `sanitize_messages`.
- The drop filter runs over rendered messages, so it can remove nothing
  (`ChatTurn.DropFilterKeepsMessages`, `ChatTurn.SyncNeverRemoves`).
- Renamed column labels can still collide
  (`ChatTurn.DeduplicatedNotUnique`).
- The constraint-line test matches a prefix
  (`SqlSchema.UniquePrefixSkipsColumn`).
- The saving key lower-cases without stripping, while rendering strips and
  then lower-cases.

## Model

| member | source | states |
|---|---|---|
| SqlSchema.UseAt | schema.py:8 | A `USE\s+([^\s;]+);` match ends after its start, and its capture is a non-empty run of characters that are neither whitespace nor `;`. |
| SqlSchema.UseTargetsAreNames | schema.py:8 | Every target that `findall` returns for the USE pattern is such a name. |
| SqlSchema.LastNonMasterIsLast | schema.py:11-17 | The reverse scan returns `None` exactly when every name is `master` in any case. Otherwise it returns a name that is not master and after which every name is master. |
| SqlSchema.DatabaseNameIsLastNonMasterUse | schema.py:3-17 | `extract_database_name` is `None` exactly when every USE target is master or there is none. Otherwise it is the last USE target that is not master. |
| SqlSchema.IdentAt | schema.py:27 | `\[?(\w+)\]?` captures a non-empty run of word characters. |
| SqlSchema.QualifiedNameAt | schema.py:27 | The optionally qualified table name captures a non-empty word as the table name. |
| SqlSchema.BlockClose | schema.py:27 | The closing `\)\s*;` found is at or after the scan position. |
| SqlSchema.BlockCloseFirst | schema.py:27 | No `\)\s*;` closes the block before the one found. |
| SqlSchema.LazyBody | schema.py:27 | The lazy `(.*?)` body ends inside the text and contains no `)` followed by optional whitespace and `;`. |
| SqlSchema.CreateAt | schema.py:26-28 | A CREATE TABLE match has a word as its table name and a body without terminator. |
| SqlSchema.CreateBlocksWellFormed | schema.py:26-30 | Every block that `findall` returns for the CREATE TABLE pattern is well formed in that sense. |
| SqlSchema.CutsAreSplittingCommas | schema.py:37-38 | A comma splits column definitions exactly when no `)` comes before the next `(`, so the comma in `decimal(10,2)` never splits. |
| SqlSchema.PiecesCount | schema.py:38 | `re.split` yields one more piece than there are splitting commas. |
| SqlSchema.PiecesRejoin | schema.py:38 | Rejoining the pieces with `,` restores the block's non-whitespace text. |
| SqlSchema.StripAll | schema.py:49 | Each primary-key name is stripped of spaces, brackets, backticks and double quotes. |
| SqlSchema.Elements | schema.py:50 | `set.update` adds exactly the listed names. |
| SqlSchema.SplitPartsCount | schema.py:61-63 | `re.split(r'\s+', line, maxsplit=2)` gives at least two parts exactly when the line holds whitespace. |
| SqlSchema.ParseDefinitionNone | schema.py:52-63 | A piece yields no column exactly when its stripped text is empty, starts with a constraint keyword, or is a single token. |
| SqlSchema.ParseDefinitionTokens | schema.py:61-66 | A parsed definition's type token is non-empty and holds no whitespace. The rest of the definition, when present, is non-empty. |
| SqlSchema.UniquePrefixSkipsColumn | schema.py:58 | The constraint test matches a prefix, so the column `UniqueCode int` is skipped. |
| SqlSchema.ExtractColumns | schema.py:36-83 | The columns of one block are the columns of its parsed declarations. |
| SqlSchema.ColumnsLoop | schema.py:52-83 | The column loop builds the column list while updating the primary-key set. |
| SqlSchema.ColumnsFromLength | schema.py:52-83 | Each declaration gives exactly one column. |
| SqlSchema.ColumnsFromAt | schema.py:61-83 | Column `k` has the declared name and type. Its nullability is `NOT NULL` exactly when the rest of the definition says NOT NULL, and `NULL` otherwise. |
| SqlSchema.ColumnsFromPrimary | schema.py:44-50 | Column `k` is a primary key exactly when one of these holds: the table-level key lists its name, its own definition says PRIMARY KEY, or an earlier inline key added the same name. |
| SqlSchema.ExtractTableSchema | schema.py:21-91 | `extract_table_schema` returns the entries of the script's CREATE TABLE blocks, filed under the resolved database or `UnknownDB`. |
| SqlSchema.SchemasLoop | schema.py:36-89 | The outer loop appends one entry per block. |
| SqlSchema.TableSchemasAt | schema.py:85-89 | Entry `k` carries block `k`'s table name without its qualifier, the script's database and block `k`'s columns. |
| SqlSchema.TableSchemasLength | schema.py:30-36 | There is exactly one entry per matched block, so no match gives `[]`. |
| SqlSchema.DropTableAt | schema.py:102-105 | A DROP TABLE match ends after its start. Its table name, and its qualifier when written, are non-empty `\w+` words. |
| SqlSchema.DropTableTargetsAreWords | schema.py:102-115 | Every DROP TABLE match that `findall` returns has word-shaped names, so `db or db_name` falls back only when no qualifier is written. |
| SqlSchema.DropDatabaseAt | schema.py:106-109 | A DROP DATABASE match ends after its start, and its captured name is a non-empty `\w+` word. |
| SqlSchema.DropDatabaseTargetsAreWords | schema.py:106-118 | Every DROP DATABASE name that `findall` returns is a non-empty word. |
| SqlSchema.ExtractDrops | schema.py:94-120 | Both lists are always present. The tables list has one entry per DROP TABLE, and the databases list has every DROP DATABASE name in source order. |
| SqlSchema.TablesLoop | schema.py:111-115 | The DROP TABLE loop builds the tables list. |
| SqlSchema.DatabasesLoop | schema.py:117-118 | The DROP DATABASE loop lists the matched names in order. |
| SqlSchema.DroppedTablesAt | schema.py:111-115 | DROP TABLE entry `k` is match `k`'s table, filed under its qualifier, or under the resolved database when it has none. |
| Batches.Segments | db.py:15 | There is always at least one GO segment. |
| Batches.SegmentsCover | db.py:15 | The GO lines only separate: the segments hold exactly the other lines, in order. |
| Batches.SegmentsHaveNoGoLine | db.py:15 | No segment contains a whole-line `GO`. |
| Batches.SplitSqlBatches | db.py:13-32 | `split_sql_batches` returns the non-empty rendered statements of every GO segment. |
| Batches.SegmentsLoop | db.py:20-30 | The outer loop appends the statements of each segment in turn. |
| Batches.GroupLines | db.py:21-30 | The inner loop appends the rendered groups of one segment's lines. |
| Batches.GroupsCover | db.py:22-30 | The statement groups cut the lines into consecutive pieces, losing and reordering nothing. |
| Batches.GroupStarts | db.py:24-28 | Every group is non-empty, and every group after the first opens with a line that starts a statement. |
| Batches.GroupContinues | db.py:24-28 | No line after the first in a group starts a statement. |
| Batches.SqlBatchesClean | db.py:25-32 | Every batch is non-empty and stripped. |
| Batches.CleanAt | db.py:32 | Batch `k` of a clean list is non-empty and equal to its own strip. |
| Batches.SqlBatchesContent | db.py:15-32 | Concatenated, the batches have the non-whitespace content of the input minus the GO lines, in source order. |
| Batches.SegmentContent | db.py:21-30 | The statements of one segment keep its non-whitespace content. |
| Batches.GroupedContent | db.py:22-30 | Grouping lines into statements keeps their non-whitespace content. |
| Batches.NonEmptyConcat | db.py:32 | Dropping empty statements does not change their concatenation. |
| Batches.NoMatchInsideMatch | db.py:38 | Two matches of the inline-GO pattern never overlap. |
| Batches.PerPositionAtMatch | db.py:38 | At a match, the rewrite produces `\nGO`. |
| Batches.NormalizeIsPerPosition | db.py:38 | The left-to-right, case-insensitive `re.sub` puts `\n` before every whole-word `GO` not preceded by `\n` or `\r` and upper-cases the matched word. Every other character is kept. |
| Batches.NormalizeGoPerPosition | db.py:38 | The same for the whole query: each whole-word `go`, `Go` or `GO` not after a line break becomes `\nGO`, and the rest is unchanged. |
| Batches.StripNonEmptyKeepsClean | db.py:40 | The second clean-up in `query_db` changes nothing. |
| Batches.Connection.Execute | db.py:47-51 | `cursor.execute` records the batch and returns the oracle's answer for it. |
| Batches.QueryDb | db.py:34-68 | `query_db` returns the shaped result of running the normalised batches, and the connection's history grows by the batches executed. |
| Batches.ExecuteBatches | db.py:44-68 | The `try` block runs a leading USE apart, then runs the rest in order until the first error. |
| Batches.UseFetchesNothing | db.py:46-48 | A leading USE batch never counts as a SELECT, so it yields no table. |
| Batches.RunExecutesPrefix | db.py:44-51 | A run executes a non-empty prefix of the batches, and all of them when nothing fails. |
| Batches.RunKeepsTables | db.py:53-58 | Tables fetched earlier stay in front of later ones. |
| Batches.RunStopsAtFirstError | db.py:50-68 | After an error, the last batch executed is the one that raised it, and the run stops there. |
| Batches.RunTablePerSelect | db.py:53-60 | A run without error fetches exactly one table per batch whose lower-case text starts with `select`. |
| Batches.QueryResultCases | db.py:62-68 | The result is one of: the error text after a failure; the success status when no table was fetched; the table itself when there is one; all tables in order when there are several. |
| SchemaMemory.LoadRaw | memory.py:38-44 | A missing or malformed file reads as no entries, and a stored file reads as its entries. |
| SchemaMemory.ConvertSchemaToMessages | memory.py:46-89 | The loop emits the message of each first-seen described entry. |
| SchemaMemory.RenderTable | memory.py:60-87 | The message of one table has role `system`. Its content is the header naming the database and table, followed by the formatted column lines joined by `\n`. |
| SchemaMemory.FormatColumns | memory.py:61-84 | One line per column, in order. |
| SchemaMemory.FirstSeenKeys | memory.py:55-58 | The rendered tables carry exactly the keys seen. |
| SchemaMemory.FirstSeenDistinct | memory.py:55-58 | No two rendered tables share a stripped, lower-cased `(database, table)` key. |
| SchemaMemory.FirstSeenPrefix | memory.py:50-58 | Input order is kept: later entries only add messages after the earlier ones. |
| SchemaMemory.FirstSeenStep | memory.py:50-58 | An entry is rendered exactly when its names are non-empty after stripping and its key was not seen before. It is then placed right after the tables of the entries before it. |
| SchemaMemory.FirstSeenNamed | memory.py:51-54 | Every rendered table has non-empty, stripped database and table names. |
| SchemaMemory.MessagesAt | memory.py:86-87 | There is one message per rendered table. Each has role `system`, and its content starts with the header naming its database and table. |
| SchemaMemory.ColumnFactsRules | memory.py:66-82 | Nullability is `NULL` when the third field is absent or None. PRIMARY KEY appears only when the fourth field is exactly `True`, and FOREIGN KEY when the fifth field is truthy. |
| SchemaMemory.OneIsNotTrue | memory.py:72 | A fourth field of `1` is truthy but does not mark a primary key. |
| SchemaMemory.SchemaStore.LoadSchemaMemory | memory.py:91-93 | `load_schema_memory` returns the rendered messages of the raw entries, not the entries themselves. |
| SchemaMemory.SchemaStore.SaveSchemaMemory | memory.py:95-125 | The file becomes the stored entries merged with the new ones. The caller's entries come back with their columns sorted, duplicates included. |
| SchemaMemory.MergeEntries | memory.py:111-121 | The loop sorts each new entry's columns and appends the entries whose key is not present yet. |
| SchemaMemory.SortEntryColumns | memory.py:116-117 | An entry's column list is replaced by its sorted version. |
| SchemaMemory.MergedExtends | memory.py:100-121 | Saving never removes or reorders stored entries; it only appends. |
| SchemaMemory.MergedKeys | memory.py:106-121 | After the merge, the stored keys and the new keys are all present, and no others. |
| SchemaMemory.MergedAppendsNewKeys | memory.py:119-121 | No appended entry repeats the key of an entry before it. |
| SchemaMemory.MergeKnown | memory.py:119 | Entries whose keys are all stored already change nothing. |
| SchemaMemory.SortAllKeys | memory.py:112-117 | Sorting columns does not change an entry's key. |
| SchemaMemory.SaveTwice | memory.py:95-125 | Saving the same entries a second time leaves the file as the first save left it. |
| SchemaMemory.InsertSorted | memory.py:117 | Inserting a column into a sorted list keeps it sorted and adds exactly that column. |
| SchemaMemory.SortColumnsSorted | memory.py:117 | `sorted` orders columns by lower-cased name and is a permutation. |
| SchemaMemory.SortColumnsStable | memory.py:117 | The sort is stable: columns with equal keys keep their order. |
| SchemaMemory.InsertStable | memory.py:117 | Inserting a column places it in front of the columns already there with the same key, so their order is kept. |
| Assembly.SanitizeMessages | llm.py:6-18 | The loop keeps, in order, every record with a chat role and string content, reduced to its role and content. |
| Assembly.SanitizedRoles | llm.py:13-17 | Every kept message has role system, user or assistant, and nothing is added. |
| Assembly.AdminDropped | llm.py:13-14 | A record with role `admin` adds nothing. |
| Assembly.SanitizedPrefix | llm.py:8-17 | The result is an order-preserving subsequence: later items only add after earlier ones. |
| Assembly.SanitizeMessagesUnchanged | llm.py:6-18 | Well-formed chat messages pass unchanged. |
| Assembly.SanitizeIdempotent | llm.py:6-18 | `sanitize_messages` is idempotent. |
| Assembly.PromptUseLines | llm.py:41-52 | Both USE lines of the prompt name the selected database when the reminder condition holds, and `<DatabaseName>` otherwise. |
| Assembly.ConcatSlice | llm.py:103-110 | Each tier sits at its offset within the concatenated tiers. |
| Assembly.AssembleMessages | llm.py:21-120 | The messages are laid out as: the system prompt; the five sanitized tiers in fixed order; the reminder exactly when a database was chosen; the user input. |
| Assembly.SanitizeTiers | llm.py:21-25 | Each tier is sanitized, in the order they are laid out. |
| Assembly.LayoutShape | llm.py:103-120 | The list has length 2 + the tier total + the reminder's length. The prompt comes first, the user input last, and the tiers then the reminder in between. |
| Assembly.TierPosition | llm.py:103-110 | Tier `k` sits right after the prompt and the tiers before it. |
| Assembly.ReplyText | llm.py:138-153 | For a successful response with a `choices` key, the reply is `choices[0].message.content`, or the exception text when that lookup fails. Otherwise it is `result`, else `completion`, else the unexpected-structure text. An HTTP error gives the status and body. A body that is not JSON, or a raised request, gives the exception text. |
| Assembly.ReplyFromAnswerOrError | llm.py:138-153 | The reply is one of the texts the answer carries, or an error text that starts with the cross mark. |
| Assembly.ChoicesLookupFailureIsException | llm.py:142-153 | A `choices` key whose lookup fails gives the exception reply, even when `result` or `completion` is present. |
| Assembly.FailureMarked | llm.py:148-153 | Every failure text starts with the cross mark. |
| Retrieval.RetrieveContextChunks | rag.py:59-92 | The loop returns the greedy selection from the results, and `[]` when there is no store or the search fails. |
| Retrieval.PickSubsequence | rag.py:73-81 | The chunks returned are search results, whole and in rank order. |
| Retrieval.PickWithinBudget | rag.py:77-82 | The tokens taken on top of the running total never exceed the budget. |
| Retrieval.PickRoles | rag.py:81 | Every returned item is a system message. |
| Retrieval.RetrievedWithinBudget | rag.py:59-92 | The token total of the returned chunks is within `max_tokens`, and the chunks form a subsequence of the results. |
| Retrieval.SkipsOverflow | rag.py:77-79 | For all inputs, a chunk that would take the total past the budget is skipped, and the scan goes on with the same total. |
| Retrieval.SkipsOverflowAndContinues | rag.py:77-81 | With budget 10 and chunks of 5, 20 and 3 tokens, the first and third chunks are taken. |
| Retrieval.StopsAtBudget | rag.py:84-85 | The scan stops once the total reaches the budget. |
| ChatTurn.Deduplicated | chat_module.py:37-47 | Renaming keeps the number of labels. |
| ChatTurn.DeduplicateColumns | chat_module.py:37-47 | The loop renames each label according to how often it occurred before, using the `counts` dictionary. |
| ChatTurn.OccurrencesCount | chat_module.py:40-45 | The dictionary holds, for each label, the number of earlier repeats. |
| ChatTurn.DeduplicatedUnchanged | chat_module.py:40-46 | Output `i` is the label after its `k` earlier occurrences: unchanged for `k = 0`, otherwise `label_k`. It equals the input exactly when the label does not occur earlier. |
| ChatTurn.DeduplicatedNotUnique | chat_module.py:37-47 | `["id", "id_1", "id"]` becomes `["id", "id_1", "id_1"]`, so the output can repeat a label. |
| ChatTurn.DatabaseAt | chat_module.py:25 | A `Database\s+'([^']+)'` match ends after its start. |
| ChatTurn.DatabaseNamesQuoteFree | chat_module.py:25-31 | Every captured name is non-empty and holds no quote. |
| ChatTurn.ExtractDatabasesFromSystemMessages | chat_module.py:23-35 | The result is strictly sorted, so it has no duplicates. It holds exactly the stripped names captured from the system messages. |
| ChatTurn.AddStripped | chat_module.py:32-33 | The stripped captures are added to the set. |
| ChatTurn.InsertNameSorted | chat_module.py:35 | Inserting a new name keeps the list strictly sorted and adds exactly that name. |
| ChatTurn.SortedNames | chat_module.py:35 | `sorted` of the set is strictly increasing and holds exactly its names. |
| ChatTurn.NamesInAt | chat_module.py:28-33 | The names captured from any system message are all in the collected set. |
| ChatTurn.HeaderNamesDatabase | chat_module.py:25 | The header of a schema message yields its database name, when the name holds no quote. |
| ChatTurn.RenderedDatabaseFound | chat_module.py:23-35 | Every table of the schema memory puts its database among the names extracted from the rendered messages, unless the name holds a quote. The name is offered only if the server also lists it (`ChatTurn.AvailableDbs`). |
| ChatTurn.AvailableDbs | chat_module.py:79 | The databases offered are the server's that the schema memory names, in server order. Each such name is kept as many times as the server lists it. |
| ChatTurn.TurnMemoryShape | chat_module.py:120-122 | After a turn, memory holds 2 to 10 messages ending with the user message and the reply. It is the tail of the extended history. |
| ChatTurn.DropFilter | chat_module.py:133-136 | The filter keeps exactly the entries whose table is not dropped and whose database is not dropped, compared case-sensitively. Every kept entry keeps all its occurrences, in order. |
| ChatTurn.DropFilterKeepsMessages | chat_module.py:135-136 | Applied to the rendered messages that `load_schema_memory` returns, the filter keeps everything. |
| ChatTurn.ExtractedColumnFacts | chat_module.py:126-131 | An extracted column is saved with its own nullability and primary-key flag. |
| ChatTurn.SyncSchema | chat_module.py:125-137 | On an admin's reply that mentions `create table`, `drop table` or `delete`, the file is rewritten as follows. Extracted tables are appended to the rendered memory. Otherwise, because the drops record is always truthy, the rendered memory is filtered and saved. |
| ChatTurn.SyncNeverRemoves | chat_module.py:125-137 | The update never removes or reorders a stored entry, whatever the reply drops. |
| ChatTurn.PrefixNotWord | chat_module.py:139-140 | The test matches a prefix, not a word: `Users` is sent to the database. |
| ChatTurn.RunReply | chat_module.py:139-148 | A reply runs through `query_db` exactly when its lower-case text starts with one of the seven keywords. Otherwise the result is cleared and nothing is executed. |
| Summary.BatchChunks | summary.py:80-82 | The generator yields the batches of `chunks[i:i+size]`. |
| Summary.BatchedConcat | summary.py:81-82 | Concatenating the batches gives back the chunk list. |
| Summary.BatchedSizes | summary.py:81-82 | Every batch holds 1 to `size` chunks, and every batch but the last holds exactly `size`. |
| Summary.BatchedCount | summary.py:81 | There are `ceil(len / size)` batches. No chunks give no batches. |
| Summary.ColumnItems | summary.py:48 | One `name (type)` item per column, in order. |
| Summary.ChunkSchema | summary.py:44-51 | There is one chunk per schema entry, in order, naming the database passed in. |
| Summary.ChunkLines | summary.py:49 | A chunk splits at line breaks into `Database: <db>`, `Table: <t>` and `Columns: <items joined by ", ">`, provided those values hold no line break. |
| Summary.ChunkWithoutColumns | summary.py:48-49 | A table without columns ends with an empty columns line. |
| Text.StripIdempotent | memory.py:51-54 | Stripping an already stripped name changes nothing. |
| Text.LexLessTransitive | chat_module.py:35 | The string order used by `sorted` is transitive. |
| Text.LexLessTotal | chat_module.py:35 | Any two different strings are ordered one way or the other. |
| Text.NonSpaceSplitLines | db.py:21 | `splitlines` loses only whitespace. |

## Left out

- File I/O in `memory.py` is not modelled: reading, writing and JSON encoding. The schema-memory file is a value (`FileState`), and the other memory files (global, user, users) are the input tiers of `Assembly`.
- The HTTP request, the pyodbc connection and cursor, the vector store and the tokenizer are replaced by parameters:
  - the completion service's answer is an `Exchange` value;
  - the database is the `respond` oracle of `Connection`;
  - the search result is a `Search` value;
  - the token count is an arbitrary `string -> nat`.
- `conn.commit()` after a non-SELECT batch is not modelled, because the connection is opened with autocommit.
- The search's `k=30` is not modelled, because the search results are a parameter.
- `get_connection`, `get_user_db_names` and the server's database list are not modelled; that list is an argument of `ChatTurn.AvailableDbs`.
- Streamlit session state and widgets are not modelled, nor are `show_chart`, the Excel export, and the display of results and memory.
- `embed_and_store`, `retrieve_chunks`, `summarize_schema_with_llm`, `extract_schema_for_database` and `run_summary_app` in `summary.py` are not modelled: they call the vector store, the language model or the database.
- The text of the system prompt around its two USE lines is the `Guidance` parameter, and the prompt is modelled after its surrounding whitespace is stripped. The two role instructions and the USE lines are written out.
- The floating-point parameters `temperature` and `top_p` and the request headers are not modelled.
- Exceptions are modelled as values. The search uses `Failed`. The HTTP call uses `Raised`, a body that is not JSON uses `NotJson`, and a failed `choices` lookup uses `LookupError`. A failing batch is an error answer from the connection.
- Memory records hold scalar JSON values (`Value`), column names and types are strings, and message contents in chat memory are strings. Nested lists or objects as field values are not modelled.
- `SchemaMemory.Value`: JSON numbers are integers. Floats are not modelled, so a stored `1.5` printed in a column line (memory.py:69-80) and a falsy `0.0` in the FOREIGN KEY test (memory.py:80) cannot be written down.
- `SchemaMemory.ConvertSchemaToMessages`: a stored column with fewer than two cells, where the source would raise `IndexError`, is not modelled, because columns always carry a name and a type.
- `ChatTurn.ExtractDatabasesFromSystemMessages`: the `"Database" in content` pre-check is folded into the pattern match, which already requires that word. Non-string contents are not modelled.
- `Text.Lower` and the `\w` class: case folding and word characters are ASCII only, while whitespace is Python's full `str.isspace` set.
- `Assembly.ReplyText`: answer fields that are not strings are not modelled. The source returns such a value (JSON `null` for the content, or a number for `result`) unchanged, and the caller then raises on `reply.lower()`.
- `SchemaMemory` raises are not modelled. A stored entry's `database` or `table` that is JSON `null` or a number makes `.strip()` and `.lower()` raise (memory.py:51-52, 107, 112-113). An empty column or a non-string column name makes `col[0].lower()` raise (memory.py:117). Entries have optional string names and columns have string names, so these inputs cannot be written down.
- `Summary.BatchChunks` requires a positive batch size, because Python's `range` raises on a step of 0. Its one caller, `summarize_schema_with_llm`, uses the default `BATCH_SIZE` of 25.
- `Batches.GoSegments` splits on whole `GO` lines at the level of lines. `re.split` may also consume whitespace lines around a `GO` line, but those only reach the ends of a segment, which the caller strips.
