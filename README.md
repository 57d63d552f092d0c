# goplay-music — a Dafny model of the music player and the GPCA awards cog

goplay-music is a Discord bot with two cogs. This project models the core of both and proves properties of the model.

- **Music cog.**
  - A per-guild `VoiceState` owns a `SongQueue` of songs and a buffer for playlists being pushed.
  - The `Music` cog keeps one voice state per guild and implements the commands `join`, `disconnect`, `queue` (paged listing), `clear`, `shuffle`, `remove`, `skip` and `play`.
  - The yt-dlp wrappers turn extractor output into `YTDLMetadata` / `BasicMetadata`. This covers the upload-date reformatting, `parse_duration` and the cut of a `watch…&list` link.
- **GPCA cog.**
  - `DbCommand` builds SQL text.
  - An `Entry` (award group, award or nominee) checks a table before inserting, updating or deleting.
  - `create_tables_if_missing` creates the tables that are absent.
  - `query_full_tree` and `Award.list_all_entries` group joined rows into insertion-ordered dicts and render messages.

Modules follow the source files:

| file | module | source |
|---|---|---|
| `wrappers.dfy` | `Wrappers` | `Option` and `Result` |
| `strings.dfy` | `Strings` | Python string operations the code uses: `str.join`, `str.find`, slicing, int formatting |
| `ytdl.dfy` | `Ytdl` | `src/cogs/music/ytdl.py` |
| `player.dfy` | `Player` | `src/cogs/music/player.py` |
| `music.dfy` | `Music` | `src/cogs/music/music.py` |
| `gpca.dfy` | `Gpca` | `src/cogs/gpca.py`: `DbCommand`, `Entry`, table creation, value strings |
| `gpca_listing.dfy` | `GpcaListing` | `src/cogs/gpca.py`: `query_full_tree`, `Award.list_all_entries` |

Modelling choices:

- **Object state becomes classes.**
  - `SongQueue`, `VoiceState`, `Music` and `Entry` are classes whose fields the methods update.
  - The deque is a `seq` field.
  - The cog's `voice_states` dict is a `map` field.
  - An sqlite table is a `map` from id to row. The executed SQL text is appended to a `log` field.
- **Loops in the source are `while` loops in the model.** Each loop method is proved equal to a specification function. The properties are lemmas about that function. This covers:
  - `push_queue_buffer`;
  - `parse_duration`'s conditional appends;
  - the playlist loop of `fetch_metadata`;
  - `create_source`'s pop loop;
  - `_queue`'s `+=` loop;
  - the `update_entry` accumulators;
  - the grouping loops.
- **Python semantics are written out.**
  - Deque indexing and `del` accept negative indices.
  - `islice` raises `ValueError` on a negative bound and clamps at the end.
  - `divmod` by a positive divisor is Dafny's Euclidean `/`/`%`.
  - An f-string renders `None` as `None`.
  - `int()` of a float truncates toward zero.
  - Dict keys keep first-insertion order. Such a dict is a sequence of nodes with distinct ids.
- **Inputs from outside become parameters.**
  - The extractor's dictionaries are an `Info` datatype. The extractor's answer is passed in as `Option<Info>`.
  - A key the code only reads with `data.get` is an `Option`. The keys it subscripts or tests with `in` (`title`, `url`, `entries`) are a `Field`: absent, or present with a value that may be `None`.
  - `validate_url`'s choice is made by the caller of `PlayCommand`, which receives the fetch result.
  - `random.shuffle`'s draws are a `seq<nat>`.
  - The voice channel is a number.
  - The SELECT results are row sequences. The effect of an INSERT or UPDATE is the row or assignments to store.
- **Defects in the source are modelled as written.**
  - The undefined `link` in the non-flat extractor is a `NameError`.
  - The stray quote in the award INSERT values is kept.
  - The trailing commas of the UPDATE clauses are kept.

`SongQueue` is a plain FIFO with no history or upcoming part and no operation for moving songs between such parts: the player task takes the head, and a song that has been played is dropped.

## Model

| member | source | states |
|---|---|---|
| Strings.Find | src/cogs/music/ytdl.py:107 | -1 exactly when the substring does not occur; otherwise the first position where it occurs |
| Strings.Slice | src/cogs/music/ytdl.py:28 | a Python slice `s[lo:hi]` with the end clamped: its length and that element k is `s[lo+k]` |
| Strings.SplitJoin | src/cogs/gpca.py:242 | splitting `sep.join(parts)` on `sep` gives back `parts` when no part contains the separator's first character |
| Strings.JoinEmptyIff | src/cogs/music/ytdl.py:65 | the join of non-empty parts is empty iff there are no parts |
| Strings.ConcatEmptyIff | src/cogs/gpca.py:372-373 | strings accumulated with `+=` give the empty string iff each of them is empty |
| Strings.NatToStringRoundTrip | src/cogs/music/ytdl.py:57-63 | the decimal text of a number reads back as that number |
| Strings.IntToStringInjective | src/cogs/gpca.py:84 | two integers with the same f-string text are equal |
| Strings.NatToStringInjective | src/cogs/gpca.py:84 | two naturals with the same decimal text are equal |
| Ytdl.ReformatDate | src/cogs/music/ytdl.py:27-28 | for an 8-character `YYYYMMDD` date: day, month and year parts joined by dots, and `RestoreDate` recovers the original; for others: the clamped slice lengths plus the two dots |
| Ytdl.SplitDuration | src/cogs/music/ytdl.py:51-53 | the three `divmod`s give hours < 24, minutes < 60, seconds < 60 that recompose the duration |
| Ytdl.SplitDurationUnique | src/cogs/music/ytdl.py:51-53 | any split with those bounds that recomposes the duration is the `divmod` split |
| Ytdl.PositivePartsEmptyIff | src/cogs/music/ytdl.py:55-63 | no part is appended iff every component is at most zero |
| Ytdl.ParseDuration | src/cogs/music/ytdl.py:50-65 | the appending loop produces `DurationText` of the duration |
| Ytdl.DurationTextEmptyIff | src/cogs/music/ytdl.py:50-65 | for a non-negative duration the text is empty iff the duration is 0 |
| Ytdl.DurationTextSplits | src/cogs/music/ytdl.py:55-65 | splitting a non-empty duration text on ", " gives back the appended parts in days/hours/minutes/seconds order |
| Ytdl.Truncate | src/cogs/music/ytdl.py:31 | `int()` of a float rounds toward zero: for a non-negative value the largest integer not above it, for a negative one the smallest integer not below it |
| Ytdl.MetadataFromInfo | src/cogs/music/ytdl.py:20-32 | succeeds iff `upload_date` and `duration` are present (otherwise the slice/`int` of `None` is a `TypeError`); copies the other fields and reformats date and duration |
| Ytdl.TruncateLink | src/cogs/music/ytdl.py:106-108 | the result is a prefix of the link; a link with both `watch` and `&list` is cut just before the first `&list` and no longer contains it; any other link is unchanged |
| Ytdl.TruncateLinkIdempotent | src/cogs/music/ytdl.py:106-108 | cutting a cut link changes nothing |
| Ytdl.BasicOf | src/cogs/music/ytdl.py:122 | a `None` entry is a `TypeError`; a missing `url`, then a missing `title`, is a `KeyError`; otherwise both values, `None` included, go into the item |
| Ytdl.BasicEntries | src/cogs/music/ytdl.py:120-123 | succeeds iff every playlist entry converts, then one `BasicMetadata` per entry in order; otherwise the error of the first entry that fails |
| Ytdl.FetchMetadataFlat | src/cogs/music/ytdl.py:103-123 | no data: the `YTDLError` naming the cut link; no `entries` key: one full metadata; `entries` holding `None`: the `TypeError` of iterating it; a list of entries: the playlist |
| Ytdl.FetchMetadataNonFlat | src/cogs/music/ytdl.py:146-161 | no data: `NameError` for the undefined `link`; no `entries` key: the extractor-results `YTDLError`; `entries` holding `None`: `TypeError`; an empty list: `IndexError`; a `None` first entry: `AttributeError`; otherwise the metadata of the first entry |
| Ytdl.FirstPresent | src/cogs/music/ytdl.py:207-210 | the first non-`None` entry, if any |
| Ytdl.SelectEntry | src/cogs/music/ytdl.py:195-212 | the `YTDLError` for no data; the data itself without an `entries` key; `entries` holding `None`: the `AttributeError` of popping it; otherwise the first non-`None` popped entry, or the no-match `YTDLError` when the entries run out |
| Player.Position | src/cogs/music/player.py:17 | a negative index counts from the end; the position is in range |
| Player.RemoveAt | src/cogs/music/player.py:31-32 | one element fewer, the others shifted in order, the multiset less the removed element |
| Player.Swap | src/cogs/music/player.py:28-29 | exchanges two positions and keeps the multiset |
| Player.SongQueue.constructor | src/cogs/music/player.py:51 | a new queue is empty |
| Player.SongQueue.GetItem | src/cogs/music/player.py:13-17 | succeeds iff the index is in `-n..n-1`, with the element at the wrapped position; otherwise `IndexError` |
| Player.SongQueue.GetSlice | src/cogs/music/player.py:13-15 | `ValueError` iff a bound is negative; otherwise the clamped window of the queue, element by element |
| Player.SongQueue.Length | src/cogs/music/player.py:22-23 | the number of queued songs |
| Player.SongQueue.Put | src/cogs/music/player.py:105 | appends at the tail |
| Player.SongQueue.Get | src/cogs/music/player.py:145 | takes the head iff the queue is non-empty |
| Player.SongQueue.Clear | src/cogs/music/player.py:25-26 | the queue becomes empty |
| Player.SongQueue.Shuffle | src/cogs/music/player.py:28-29 | the queue is a permutation of what it was |
| Player.SongQueue.Remove | src/cogs/music/player.py:31-32 | `del` at an index in `-n..n-1` removes that element; otherwise `IndexError` and no change |
| Player.SongQueue.AppendLeft | src/cogs/music/player.py:34-35 | prepends at the head |
| Player.VoiceState.constructor | src/cogs/music/player.py:41-57 | empty fresh queue, empty buffer, flag down, nothing current, no voice |
| Player.VoiceState.PushQueueBuffer | src/cogs/music/player.py:101-111 | the buffer is moved, in order, to the tail of the queue; the flag drops |
| Player.VoiceState.PushEntry | src/cogs/music/player.py:116-126 | a single song goes to the queue or, while buffering, to the buffer; a playlist goes after the buffered songs; no source changes nothing; a settled state stays settled |
| Player.VoiceState.TakeNext | src/cogs/music/player.py:145 | the head of the queue becomes current iff the queue is non-empty |
| Player.VoiceState.FinishCurrent | src/cogs/music/player.py:163-165 | nothing is current afterwards; the rest is unchanged |
| Player.VoiceState.Skip | src/cogs/music/player.py:177-179 | playback is stopped iff there is a voice connection and a current song |
| Player.VoiceState.Stop | src/cogs/music/player.py:183-189 | the queue is emptied; when connected, voice and current are cleared |
| Music.MusicCog.constructor | src/cogs/music/music.py:12-14 | no voice states, and the cog is `Valid`: no two guilds share a player or a queue |
| Music.MusicCog.GetVoiceState | src/cogs/music/music.py:27-33 | returns the guild's existing state unchanged, or registers a fresh empty one; keeps every guild's player its own |
| Music.MusicCog.Disconnect | src/cogs/music/music.py:74-81 | may change only the guild's own player and queue, and every other guild's entry, player and queue stay as they were; replies not-connected iff the guild's state has no voice, leaving an existing state untouched or registering a fresh empty one; otherwise empties the queue, clears voice and current, keeps the buffer, and deletes the guild's entry; keeps every guild's player its own |
| Music.PageCount | src/cogs/music/music.py:137-138 | the ceiling of n/10: zero iff n is zero, and the fewest pages of ten that hold n songs |
| Music.PageOf | src/cogs/music/music.py:137-141 | every position lies on a page between 1 and the page count, inside that page's window |
| Music.PageUnique | src/cogs/music/music.py:140-141 | a position lies on exactly one page |
| Music.ListingLines | src/cogs/music/music.py:144-145 | one line per song, line k labelled `start + k + 1` |
| Music.Window | src/cogs/music/music.py:144 | at most ten songs, the queue's songs from `start` on |
| Music.QueueCommand | src/cogs/music/music.py:130-147 | "Queue Empty." iff no songs; `ValueError` from the slice iff the page is below 1; otherwise total, page, page count and the concatenated lines of the page's window |
| Music.ClearCommand | src/cogs/music/music.py:113-116 | the queue becomes empty |
| Music.ShuffleCommand | src/cogs/music/music.py:156-163 | "Empty queue." iff empty; otherwise the queue is a permutation of itself |
| Music.DeletedPosition | src/cogs/music/music.py:172 | as written: label `index` deletes position `index - 1`, defined iff `-n < index <= n`, and labels 0 and below wrap to the end |
| Music.RemoveZeroDeletesLast | src/cogs/music/music.py:172 | label 0 deletes the last song, not the first |
| Music.RemoveCommand | src/cogs/music/music.py:166-173 | as written: "Empty queue." iff empty; deletes the position `DeletedPosition` gives; otherwise `IndexError` and no change |
| Music.LabelledPosition | src/cogs/music/music.py:145 | corrected: defined iff the label is one of the listing's labels `1..n`, and it is the label's position |
| Music.LabelledPositionInvertsLabel | src/cogs/music/music.py:145 | every listed label maps back to its song, and agrees with the as-written position there |
| Music.RemoveCommandChecked | src/cogs/music/music.py:166-173 | corrected: deletes the song shown with that label iff the label is in `1..n`; otherwise no change |
| Music.SkipCommand | src/cogs/music/music.py:119-126 | "Nothing is playing" iff not loaded; otherwise playback stops |
| Music.EnsureVoice | src/cogs/music/music.py:199-207 | the command may go on iff the author is in a voice channel and the bot is in no channel or in that one; otherwise the "Please join a voice channel!" error when the author is in none, and the "Bot already in a voice channel" error otherwise |
| Music.JoinCommand | src/cogs/music/music.py:64-71 | the state is connected to the caller's channel, whether it was connected before or not |
| Music.BasicSongs | src/cogs/music/music.py:195-197 | one queued song per playlist item, in order |
| Music.PlayCommand | src/cogs/music/music.py:176-197 | joins when not connected; a `YTDLError` is reported and nothing is queued; another error propagates; one video is announced and queued at the tail (when not buffering); a playlist is announced by count and queued after the buffered songs |
| Gpca.AddEntryCarriesItsValues | src/cogs/gpca.py:92-93 | equal INSERT texts for one table and column list carry the same values |
| Gpca.QueryEntryAddressesItsEntry | src/cogs/gpca.py:83-84 | equal SELECT texts for one table address the same entry id |
| Gpca.UpdateEntryAddressesItsEntry | src/cogs/gpca.py:108-109 | equal UPDATE texts for one table and value string address the same entry id |
| Gpca.RemoveEntryAddressesItsEntry | src/cogs/gpca.py:149-150 | equal DELETE texts for one table address the same entry id |
| Gpca.NomineeQueryAddressesItsAward | src/cogs/gpca.py:72-78 | equal nominee queries ask for the same award id |
| Gpca.ColumnsRoundTrip | src/cogs/gpca.py:240-242 | splitting `columns` on ", " gives back `columns_list`, for each entry kind |
| Gpca.MissingTables | src/cogs/gpca.py:186 | a table is missing iff it is listed and not existing, and there are no more missing than listed |
| Gpca.MissingTablesAppend | src/cogs/gpca.py:186 | the comprehension distributes over concatenation, so it keeps the listed order |
| Gpca.CreateTablesIfMissing | src/cogs/gpca.py:178-204 | the loop executes the CREATE statements of the missing tables, in `tables` order |
| Gpca.CreateStatementsDistinct | src/cogs/gpca.py:14-48 | the four CREATE statements are pairwise different |
| Gpca.InCreateStatements | src/cogs/gpca.py:189-202 | a statement is executed iff it is the CREATE statement of one of the visited tables |
| Gpca.CreateStatementInjective | src/cogs/gpca.py:190-202 | different tables have different CREATE statements |
| Gpca.CreatesExactlyTheMissing | src/cogs/gpca.py:186-202 | a table's CREATE statement is executed iff the table does not exist |
| Gpca.AddValuesQuoteParity | src/cogs/gpca.py:498 | for quote-free fields the group and nominee INSERT values hold 6 and 8 quotes; the award values hold 5, because of the stray quote after `group_id` |
| Gpca.AwardGroupUpdateValues | src/cogs/gpca.py:434-441 | the accumulating loop gives the SET text of the given name/image_link/description clauses |
| Gpca.AwardUpdateValues | src/cogs/gpca.py:513-520 | the same for name/description and a non-zero group id |
| Gpca.NomineeUpdateValues | src/cogs/gpca.py:589-600 | the same for name/link/non-zero award id/description/image_link |
| Gpca.AwardGroupClauseTexts | src/cogs/gpca.py:434-441 | the text of each of the three group clauses, with commas on all but the last |
| Gpca.AwardClauseTexts | src/cogs/gpca.py:513-520 | the text of each of the three award clauses, with commas on all but the last |
| Gpca.NomineeClauseTexts | src/cogs/gpca.py:589-600 | the text of each of the five nominee clauses, with commas on all but the last |
| Gpca.ClauseIncludedIff | src/cogs/gpca.py:435-441 | a field's clause appears in the SET text iff the field is given |
| Gpca.TrailingCommaIff | src/cogs/gpca.py:435-441 | the text ends in a comma iff the last given clause carries one, and it is empty iff no field is given |
| Gpca.AwardGroupUpdateShape | src/cogs/gpca.py:434-441 | the group's SET text is empty iff every field is empty, and ends in a trailing comma iff the description is empty and the name or image link is given |
| Gpca.Override | src/cogs/gpca.py:284 | the updated row takes the assigned columns and keeps the others |
| Gpca.Entry.constructor | src/cogs/gpca.py:230-238 | kind and table contents as given; nothing executed yet |
| Gpca.Entry.QueryEntry | src/cogs/gpca.py:247-258 | found iff the id is in the table, with its row; the table is unchanged; the SELECT is executed |
| Gpca.Entry.CheckThenAdd | src/cogs/gpca.py:263-272 | inserts iff the id is absent; an existing entry is returned untouched; SELECT then INSERT |
| Gpca.Entry.CheckThenUpdate | src/cogs/gpca.py:277-288 | updates iff the id is present, returning the rows before and after; otherwise no change; SELECT, UPDATE and SELECT again |
| Gpca.Entry.RemoveEntry | src/cogs/gpca.py:299-307 | deletes iff the id is present, returning the removed row; otherwise no change; SELECT, then DELETE |
| GpcaListing.IndexOf | src/cogs/gpca.py:327 | `key in d.keys()`: defined iff the id is a key, at its first occurrence |
| GpcaListing.IndexOfSnoc | src/cogs/gpca.py:327-331 | after a new key is inserted, the old keys are found where they were, the new one at the end, and no other key is found |
| GpcaListing.Dedup | src/cogs/gpca.py:327-331 | the keys after inserting ids in turn: distinct, the same ids, no more than inserted |
| GpcaListing.PutNominee | src/cogs/gpca.py:339-342 | assigning a nominee keeps an existing key in place or appends a new one, and the nominee is present afterwards |
| GpcaListing.WithAward | src/cogs/gpca.py:333-337 | a missing award id is appended with no nominees; a known one leaves the awards unchanged; earlier awards are kept in place |
| GpcaListing.AddAward | src/cogs/gpca.py:333-342 | a row's award is added only when its id is new |
| GpcaListing.WithGroup | src/cogs/gpca.py:327-331 | a missing group id is appended with no awards; a known one leaves the tree unchanged; earlier groups are kept in place |
| GpcaListing.AddRow | src/cogs/gpca.py:324-342 | a row's group is added only when its id is new |
| GpcaListing.TreeGroupIds | src/cogs/gpca.py:323-331 | the tree's groups are the rows' distinct group ids in first-occurrence order |
| GpcaListing.NoAwardRowAddsNoAward | src/cogs/gpca.py:333 | a row with a `None` award id leaves every group's awards as they were |
| GpcaListing.NoNomineeRowAddsNoNominee | src/cogs/gpca.py:338 | a row with a `None` nominee id leaves every award's nominees as they were |
| GpcaListing.RowIsRecorded | src/cogs/gpca.py:327-342 | after a row, its group, its award under that group and its nominee under that award are in the tree |
| GpcaListing.AddRowWellFormed | src/cogs/gpca.py:324-342 | a row keeps the ids unique at every level |
| GpcaListing.TreeWellFormed | src/cogs/gpca.py:323-342 | the built tree has unique ids at every level |
| GpcaListing.BuildTree | src/cogs/gpca.py:323-342 | the grouping loop builds the fold of the rows |
| GpcaListing.RenderedAt | src/cogs/gpca.py:345-380 | a loop that appends `f(x)` for each `x` gives one output per input, and output k is `f` of input k |
| GpcaListing.RenderTree | src/cogs/gpca.py:345-380 | the rendering loop appends the message of each group in tree order: the result is `GroupMessage` mapped over the tree |
| GpcaListing.NomineeTextNonEmpty | src/cogs/gpca.py:366-371 | every nominee line is non-empty and ends with a line break |
| GpcaListing.AwardQuotesItsNominees | src/cogs/gpca.py:358-374 | an award's text is its code block alone iff it has no nominees; otherwise the block, `>>> ` and its nominee lines |
| GpcaListing.QueryFullTree | src/cogs/gpca.py:312-383 | `(False, None)` iff there are no rows; otherwise the group messages of the built tree |
| GpcaListing.FullTreeMessagePerGroup | src/cogs/gpca.py:345-380 | there are as many messages as distinct group ids, and message k is for the k-th distinct id |
| GpcaListing.AddAwardRow | src/cogs/gpca.py:476-482 | a new group id opens a group; a known one appends to it |
| GpcaListing.ListedGroupsDedup | src/cogs/gpca.py:476-482 | each group id is listed once, in first-occurrence order |
| GpcaListing.ListedLinesInRowOrder | src/cogs/gpca.py:476-482 | a group lists exactly the award lines of its rows, in row order |
| GpcaListing.AddAwardRowLines | src/cogs/gpca.py:476-482 | one row appends its award line to its own group's lines and changes no other group's lines |
| GpcaListing.AwardlessGroupLine | src/cogs/gpca.py:480 | a group without awards lists the line "None. None: None" |
| GpcaListing.GroupRows | src/cogs/gpca.py:475-482 | the grouping loop builds the fold of the rows |
| GpcaListing.RenderGroups | src/cogs/gpca.py:484-490 | the rendering loop appends the message of each group in order: the result is `GroupListing` mapped over the groups |
| GpcaListing.ListAllAwards | src/cogs/gpca.py:465-492 | `(False, None)` iff there are no rows; otherwise the messages of the grouped rows |
| GpcaListing.AwardListingPerGroup | src/cogs/gpca.py:475-490 | there are as many messages as distinct group ids; message k is for the k-th distinct id, and its code block holds the award lines of that group's rows, in row order |

## Left out

- Async and timing: the 180 s timeout, the `asyncio.Event` wait, the voice `after` callback and `call_soon_threadsafe` are concurrency. The consumer task is modelled only as take-head (`TakeNext`) and finish (`FinishCurrent`).
- The timeout path of `audio_player_task` is dead code: it raises before the unreachable `destroy`, and `destroy`'s `cleanup` exists only as commented-out code.
- That a resolver failure in `create_source` ends the consumer task is concurrency, and is not modelled.
- Player.SongQueue.Shuffle: states a permutation only, not `random.shuffle`'s distribution. The draws are a parameter that must supply one value per swap.
- The `volume` setter is float arithmetic. The `loop` and `send_embed` setters are flags nothing in the core reads.
- The network and Discord calls are left out:
  - the yt-dlp `extract_info` calls; their answers are parameters;
  - `FFmpegOpusAudio.from_probe`;
  - voice connect, move and disconnect;
  - `ctx.send`, reactions, typing;
  - embeds (`create_embed`).
- `validate_url` is a regular-expression match. `PlayCommand` receives the result of the extractor the caller chose.
- `_pause`, `_resume` and `_nowplaying` only forward to voice or Discord calls.
- `cog_check` raises `NoPrivateMessage` for a command sent outside a guild. The model has no direct messages: every command is given a guild id.
- `ensure_voice` is modelled as the guard `Music.EnsureVoice`. `JoinCommand` and `PlayCommand` model the handler bodies once that guard has passed, so they do not check it themselves. In particular, `JoinCommand` takes any channel, but the guard has already refused a voice client in another channel, so `_join`'s `move_to` never switches channels.
- `cog_unload` schedules `Player.VoiceState.Stop` for every stored state as an event-loop task. Task scheduling is not modelled.
- Music.PageCount: `math.ceil` over float division agrees with the integer ceiling only while the queue length is exactly representable as a float. The model uses the integer ceiling.
- Ytdl.Truncate: modelled on Dafny `real`, not on IEEE doubles.
- `islice`'s step is left out: the cog never passes one.
- sqlite is left out:
  - the connection, cursor, commit and rollback;
  - SQL errors;
  - the exception path of `query_full_tree`, which logs and returns `None`.
  Each table is a map. The effect of an INSERT is the row given to `CheckThenAdd`, and that of an UPDATE the assignments given to `CheckThenUpdate`. The SQL text is logged but not interpreted.
- `AwardGroup`/`Award`/`Nominee.update_entry` are declared without `self`. The cog calls them on an instance with keyword arguments, which raises `TypeError` before the body runs. The model gives the value strings the bodies build.
- The `add_entry` wrappers: their value strings are modelled. Their parent check (`parent_entry_exists`, a query on a second table) and the embeds they return are left out.
- `AwardGroup.list_all_entries` and `Nominee.list_all_entries` format one line per row with no grouping. They are not part of this model.
- The markdown decoration of `query_full_tree` is modelled. The only property proved about its text is when the nominee quote appears.
- The slash-command handlers of the GPCA cog (argument parsing, replies, `a.missing`) are left out. So are `src/goplay-music.py` and `src/cogs/basics.py`: bootstrap, token reading and ping/status replies.

## Findings

| source | as written | input that shows it | evidently intended | confidence | as-written member | corrected member |
|---|---|---|---|---|---|---|
| src/cogs/music/music.py:172 | `remove(index - 1)` passes the label minus one straight to `del deque[i]`, which accepts negative indices | `remove 0` on a queue of three songs deletes the third song, the last, which is listed as `3.`; `remove -1` deletes the second | delete the song shown with that label in the `queue` listing (labels 1..n) and reject any other label | not executed | Music.RemoveZeroDeletesLast | Music.RemoveCommandChecked |
