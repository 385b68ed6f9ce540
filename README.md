# SAI-Editor: tooltip wrapping and parameter lookups

This project models two parts of the SAI-Editor, a Windows Forms editor for
"Smart AI" scripts kept in a SQLite file, and proves properties of them.

- **Tooltip captions** (`XToolTip.SetToolTipText`), in module `XToolTip`
  (`xtooltip.dfy`). A caption longer than 80 characters is split on single
  spaces. The words are grouped into chunks: a running length adds each
  word's length plus one. A chunk is closed as soon as that total exceeds 60,
  or at the last word. The caption is then rebuilt with every word followed
  by a space and every chunk followed by a line break. The loops are methods
  (`ChunkWords`, `CopyWords`, `RebuildCaption`, `SetToolTipText`). They are
  proved against the functions `Split`, `Chunks` and `Render`.
  `IsChunking` states what a chunking promises: no word lost, reordered or
  cut; no empty chunk; every non-last chunk over the limit; and the running
  length within the limit before each chunk's last word. `Chunks` is proved
  to be the only grouping that keeps all of these.
- **The data layer** (`SQLiteDatabase`), in module `SqliteDatabase`
  (`sqlite_database.dfy`). A table is a sequence of rows. A row maps column
  names to `Option<Value>`, where `None` is SQL NULL. The by-id queries
  (`SELECT * … WHERE <id column> = @id`) are modelled by `Select`: the rows
  whose id column holds the id, in table order. On top of this the module
  models:
  - the first-row getters;
  - hydration of a row into a record (NULL becomes -1 or the empty string);
  - the dispatch on script type;
  - the parameter label and tooltip lookups, with the defaults `Param <n>`
    and `""`.

  Lemmas connect a label or tooltip back to the column of the first
  matching row that it comes from.

The inputs that cannot be seen or computed here are parameters:
- the tables' contents (`Database`);
- the values a newly built event or target record holds in the fields its
  hydration does not set (`Database.newEvent`, `Database.newTarget`).

Every script type other than event, action and target is `ScriptTypeOther`.

The wrapping gives lines of no fixed width. `XToolTip.cs` keeps, commented
out at lines 55-56, a split into 60-character pieces, rejected because it
cuts words. The chunking kept instead never cuts a word, and a chunk can run
past 60 by as much as its last word's length plus one (`ChunkBound`).

## Model

| member | source | states |
|---|---|---|
| `XToolTip.Split` | SAI-Editor/Classes/XToolTip.cs:18 | There is always at least one piece. Consecutive, leading and trailing spaces give empty pieces. With `JoinSplit` and `SplitJoin`, it is the one space-free split that joins back to the caption |
| `XToolTip.JoinSplit` | SAI-Editor/Classes/XToolTip.cs:18 | Splitting on `' '` loses nothing: joining the pieces with single spaces gives back the caption, and no piece contains a space |
| `XToolTip.SplitJoin` | SAI-Editor/Classes/XToolTip.cs:18 | The other direction: joining space-free words (empty ones included) and splitting again gives back the same words |
| `XToolTip.SplitAtSpace` | SAI-Editor/Classes/XToolTip.cs:18 | For any two texts, splitting them joined by one space gives the pieces of the first followed by the pieces of the second |
| `XToolTip.SplitWeight` | SAI-Editor/Classes/XToolTip.cs:26-27 | The running length of all the words is the caption's length plus one. Each lost separator, including those around empty words, counts exactly once |
| `XToolTip.ConsecutiveSpaces` | SAI-Editor/Classes/XToolTip.cs:18-27 | For any texts `a` and `b`, `a` followed by two spaces and `b` splits into the pieces of `a`, one empty word, then the pieces of `b`. When `a` has no space, its pieces are `a` itself. An empty word adds 1 to any running length |
| `XToolTip.ChunkEnd` | SAI-Editor/Classes/XToolTip.cs:27-30 | A chunk ends at the first word where the running length exceeds 60, or at the last word; before that point the running length stays within 60 |
| `XToolTip.ChunkEndLeast` | SAI-Editor/Classes/XToolTip.cs:27-30 | Any point that closes the chunk, with no close before it, is the point `ChunkEnd` finds |
| `XToolTip.ChunksIsChunking` | SAI-Editor/Classes/XToolTip.cs:24-42 | The chunks, concatenated, are exactly the split words. Every chunk is non-empty. Inside a chunk the running total after every word but the last is at most 60. Every chunk but the last has a total above 60 |
| `XToolTip.ChunkingUnique` | SAI-Editor/Classes/XToolTip.cs:24-42 | Any grouping of the words that keeps those four promises is the chunking |
| `XToolTip.ChunkBound` | SAI-Editor/Classes/XToolTip.cs:27-32 | A chunk is non-empty, and its running length is at most 60 plus its last word's length plus one |
| `XToolTip.CloseChunk` | SAI-Editor/Classes/XToolTip.cs:30-40 | Closing the current chunk, when it is over 60 or at the last word, keeps what the loop promises of the closed chunks |
| `XToolTip.CopyWords` | SAI-Editor/Classes/XToolTip.cs:34-37 | The copy of the current chunk has the same words in the same order |
| `XToolTip.ChunkWords` | SAI-Editor/Classes/XToolTip.cs:20-42 | The chunking loop, with `totalLength`, `wordsSoFar` and `captionChunks` updated word by word, yields exactly `Chunks` of the split words |
| `XToolTip.RebuildCaption` | SAI-Editor/Classes/XToolTip.cs:44-52 | The nested rebuild loops yield every word followed by `" "` and every chunk followed by `"\n"` (`Render`) |
| `XToolTip.SetToolTipText` | SAI-Editor/Classes/XToolTip.cs:16-53 | A caption of at most 80 characters is kept unchanged; a longer one becomes its chunks rebuilt (`Wrap`) |
| `XToolTip.WrapInsertsOnlyLineBreaks` | SAI-Editor/Classes/XToolTip.cs:44-55 | For a long caption, taking all line breaks out of the result gives the caption (without its own line breaks) plus one trailing space. Nothing but line breaks and that space is added, and no character is lost or reordered. That the breaks fall only between whole words is `WrapBreaksBetweenChunks` |
| `XToolTip.LineBreakAfterWholeWords` | SAI-Editor/Classes/XToolTip.cs:46-52 | For chunks that are not empty, rebuilding adds, chunk by chunk, the chunk's words joined by single spaces, then `" \n"`. Every added line break follows a whole word and a space |
| `XToolTip.WrapBreaksBetweenChunks` | SAI-Editor/Classes/XToolTip.cs:16-52 | For a long caption, the chunks are the split words in order. The wrapped caption is built chunk by chunk, each chunk adding its words joined by spaces and then `" \n"`, so no word is cut by a line break |
| `XToolTip.WrapLineBreakCount` | SAI-Editor/Classes/XToolTip.cs:46-52 | A long caption gains exactly one line break per chunk |
| `XToolTip.RenderEnding` | SAI-Editor/Classes/XToolTip.cs:46-52 | Rebuilt chunks whose last chunk is not empty end with `" \n"` |
| `XToolTip.WrapEnding` | SAI-Editor/Classes/XToolTip.cs:46-52 | A wrapped caption ends with `" \n"` |
| `SqliteDatabase.Select` | SAI-Editor/Database/SQLiteDatabase.cs:21-23 | The query result holds only matching rows of the table. It is empty exactly when no row matches. Otherwise its first row is the table's first matching row |
| `SqliteDatabase.BuildEventTypeInformation` | SAI-Editor/Database/SQLiteDatabase.cs:135-148 | `event_type` is copied (NULL → -1). Labels and tooltips 1-4 are copied (NULL → `""`). Parameters 5 and 6 keep the new record's values |
| `SqliteDatabase.BuildActionTypeInformation` | SAI-Editor/Database/SQLiteDatabase.cs:150-167 | `action_type` is copied (NULL → -1). All six labels and tooltips are copied (NULL → `""`) |
| `SqliteDatabase.BuildTargetTypeInformation` | SAI-Editor/Database/SQLiteDatabase.cs:169-180 | `target_type` is copied (NULL → -1). Labels and tooltips 1-3 are copied (NULL → `""`). Parameters 4 to 6 keep the new record's values |
| `SqliteDatabase.BuildAreaTrigger` | SAI-Editor/Database/SQLiteDatabase.cs:182-186 | `id` and `mapId` are copied (NULL → -1) |
| `SqliteDatabase.GetEventTypeInformationById` | SAI-Editor/Database/SQLiteDatabase.cs:19-27 | Nothing when no row has the id. Otherwise the hydration of the first matching row, whose id is the one asked for |
| `SqliteDatabase.GetActionTypeInformationById` | SAI-Editor/Database/SQLiteDatabase.cs:75-83 | Nothing when no row has the id. Otherwise the hydration of the first matching row, whose id is the one asked for |
| `SqliteDatabase.GetTargetTypeInformationById` | SAI-Editor/Database/SQLiteDatabase.cs:85-93 | Nothing when no row has the id. Otherwise the hydration of the first matching row, whose id is the one asked for |
| `SqliteDatabase.GetAreaTriggerById` | SAI-Editor/Database/SQLiteDatabase.cs:125-133 | Nothing when no row has the id. Otherwise the hydration of the first matching row, whose id is the one asked for |
| `SqliteDatabase.GetAreaTriggers` | SAI-Editor/Database/SQLiteDatabase.cs:110-123 | Nothing (not an empty list) for a table with no rows. Otherwise one record per row, of the same length and in row order |
| `SqliteDatabase.GetTypeByScriptTypeId` | SAI-Editor/Database/SQLiteDatabase.cs:95-108 | Event looks in the event table, action in the action table, target in the target table; the record is the first matching row's; any other script type gives nothing |
| `SqliteDatabase.GetParameterStringById` | SAI-Editor/Database/SQLiteDatabase.cs:29-50 | For a parameter number outside 1-6 the label is `""`. With no record it is `Param <n>` |
| `SqliteDatabase.GetParameterTooltipById` | SAI-Editor/Database/SQLiteDatabase.cs:52-73 | For a parameter number outside 1-6, or with no record, the tooltip is `""` |
| `SqliteDatabase.EventParameters` | SAI-Editor/Database/SQLiteDatabase.cs:29-73 | For an event type with a row, label and tooltip n (1-4) are that row's `parameterString<n>`/`parameterTooltip<n>` columns (NULL → `""`). For 5 and 6 they are the new record's values |
| `SqliteDatabase.ActionParameters` | SAI-Editor/Database/SQLiteDatabase.cs:29-73 | For an action type with a row, label and tooltip n (1-6) are that row's `parameterString<n>`/`parameterTooltip<n>` columns (NULL → `""`) |
| `SqliteDatabase.TargetParameters` | SAI-Editor/Database/SQLiteDatabase.cs:29-73 | For a target type with a row, label and tooltip n (1-3) are that row's columns. For 4 to 6 they are the new record's values |
| `SqliteDatabase.MissingTypeParameters` | SAI-Editor/Database/SQLiteDatabase.cs:35-46 | When the selected table has no row for the type, or the script type selects no table, the label of parameter n (1-6) is `Param <n>` and its tooltip is `""` |

## Left out

- Showing the caption (`SetToolTip`) and everything else in Windows Forms: this is GUI code. `SetToolTipText` returns the caption it would show.
- Lengths are counted in Dafny characters: the caption's length (`XToolTip.cs` line 16) and each word's length in the running total (line 27). .NET counts UTF-16 code units, so a word holding a character outside the Basic Multilingual Plane counts one more per such character there, and can close its chunk earlier than in the model.
- `ExecuteQuery`, the `Database<…>` base class, the connection-string setup in the constructor and the SQL text: these are library I/O. Queries are modelled by `Select` over given tables. A query without `ORDER BY` is taken to return rows in table order.
- `async`/`await`: the calls run one at a time, so they are modelled as plain functions.
- The `double` position fields of `AreaTrigger` (`posX` … `field9`): floating point is not modelled. Only `id` and `mapId` are kept.
- `Convert.ToInt32` and `(string)` casts failing on a value of the wrong kind: `Database.Valid` requires every row to have the columns its hydration reads, with values of the right kind. This stands for the table schema. The source itself reads only the matching row.
- `Convert.ToInt32` overflow: an id or map id of 2^31 or more, or below -2^31, makes the source throw. The model puts no bound on integer values, and the `Build*` functions return the wide value in that case.
- A null caption: `caption.Length` throws at `XToolTip.cs` line 16. A Dafny `string` cannot be null, so this path is not modelled.
- The C# definitions of the record classes (`EventTypeInformation` etc.) and of the `ScriptTypeId` enumeration are not part of this model. The model's datatypes of those names have only the fields the code reads or sets, and the three script types it dispatches on. The values of fields that hydration never sets are left open (`Database.newEvent`, `Database.newTarget`).
- SqliteDatabase.GetParameterStringById: its own contract states only the two defaults. What a found record yields is stated, against the table rows, by `EventParameters`, `ActionParameters` and `TargetParameters`.
- SqliteDatabase.GetParameterTooltipById: the same holds as for the label lookup.
