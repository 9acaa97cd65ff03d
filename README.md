# AnimesTele ingestion and publication, modelled in Dafny

AnimesTele collects the animes that AnimeFire is releasing. It looks up
their metadata on MyAnimeList and stores animes and episodes in SQLite. It
then posts them to a Telegram channel and records what was posted. This
project models the bookkeeping core of that pipeline and proves what it
promises.

- **Scrape post-processing** (`DataCollect`). This covers:
  - which anchors of the release listing are kept and how many;
  - how far the probing of per-episode watch and download pages goes;
  - how download links are classified into SD, HD and temporary;
  - how the anime name is cut out of an AnimeFire URL;
  - how the per-anime lists are assembled.

  Every HTTP answer is an input sequence or function.
- **Record types** (`DbStructs`). `Anime`, `Episode`, `Platform`, `Channel`,
  `MessageAnime` and `MessageEpisode` are modelled with `from_dict` and
  `to_dict`. The model captures how Python binds `cls(**d)`.
- **The shared SQLite store** (`Tables`, `PyValues`, `SqliteStore`). There is
  one class per table. Each holds its rows as a map from autoincrement id to
  row. It enforces the table's NOT NULL, UNIQUE and CHECK constraints on
  `insert_data`, and models `get_primary_key` and `get_by_id`, both as written
  and as evidently meant.
- **The local SQLite database** (`LocalDatabase`). This is the `Database`
  class, with `added_to` markers and the Python objects it updates in place.
- **Ingestion into the shared store** (`DbAccess`). The model follows
  `_insert_animes_into_database`:
  - positional merging of watch and download lists;
  - the ordinal assertion;
  - check-then-insert on natural keys.

  It also models the publication records (`verify_if_anime_is_on_channel`,
  `save_msg_an`, `save_msg_ep`) and `init_animestele`.
- **The older local ingestion** (`LocalAccess`). Candidates are grouped by
  episode number, visited in sorted order and inserted when absent.
- **Publication to Telegram** (`TelegramPublish`). This is
  `add_anime_to_telegram`: the publish decision, the `#none` /
  `#telegram=<id>` marker strings, the message texts, and the early returns
  on a failed send. The Telegram sender is a script of outcomes.
- **The file-backed FIFO** (`FileQueue`). The file is its text. The `lines`
  field caches its line count.

Python values are `PyValue` (None, bool, int, str). `BAD_ID` is -1. The
absence sentinels `NOT_FOUND` and `EXISTS_IN_DB`, which `values.py` never
defines, are datatype constructors in the corrected members; the as-written
members raise AttributeError wherever the source evaluates one of them.

## Model

| member | source | states |
|---|---|---|
| DbStructs.Bind | src/shared_components/db_structs.py:22-24 | `cls(**d)` binds exactly when every key of `d` is a parameter and every parameter without a default is a key of `d`. |
| DbStructs.NoneFor | src/shared_components/db_structs.py:2-4 | Every optional parameter left out is bound to None. |
| DbStructs.AnimeToDict | src/shared_components/db_structs.py:26-27 | `to_dict` of a freshly built anime has exactly the sixteen constructor parameters as keys. |
| DbStructs.AnimeFromDict | src/shared_components/db_structs.py:22-24 | `Anime.from_dict(d)` succeeds iff `d`'s keys are constructor parameters and include `mal_id` and `title`; the result keeps those two values. |
| DbStructs.AnimeFromDictValues | src/shared_components/db_structs.py:2-24 | When `Anime.from_dict(d)` succeeds, the instance's `__dict__` is `d` over None for every parameter `d` leaves out. |
| DbStructs.AnimeDefaults | src/shared_components/db_structs.py:1-20 | From a dict of just `mal_id` and `title`, every other attribute is None. |
| DbStructs.AnimeRoundTrip | src/shared_components/db_structs.py:22-27 | `Anime.from_dict(a.to_dict())` rebuilds `a`. |
| DbStructs.AnimeExtraAttributeBreaksRoundTrip | src/shared_components/db_structs.py:22-27 | Once an attribute that is not a constructor parameter (such as `anime_id`) is attached, `from_dict(to_dict())` raises TypeError. |
| DbStructs.EpisodeToDict | src/shared_components/db_structs.py:48-49 | `to_dict` of an episode has exactly the seven constructor parameters as keys. |
| DbStructs.EpisodeFromDict | src/shared_components/db_structs.py:35-46 | Succeeds iff the keys are parameters and include all but `temp`; the result's dict is `d` with `temp` defaulting to 0. |
| DbStructs.EpisodeRoundTrip | src/shared_components/db_structs.py:44-49 | `Episode.from_dict(e.to_dict())` rebuilds `e`. |
| DbStructs.PlatformToDict | src/shared_components/db_structs.py:63-64 | `to_dict` of a platform has exactly the key `platform_name`. |
| DbStructs.PlatformFromDict | src/shared_components/db_structs.py:55-61 | Succeeds iff the keys are exactly `platform_name`, and then reproduces `d`. |
| DbStructs.PlatformRoundTrip | src/shared_components/db_structs.py:59-64 | `Platform.from_dict(p.to_dict())` rebuilds `p`. |
| DbStructs.ChannelToDict | src/shared_components/db_structs.py:81-82 | `to_dict` of a channel has exactly its four constructor parameters as keys. |
| DbStructs.ChannelFromDict | src/shared_components/db_structs.py:70-79 | Succeeds iff the keys are parameters and include `platform_id`; omitted attributes are None; no "name or id present" check is made. |
| DbStructs.ChannelRoundTrip | src/shared_components/db_structs.py:77-82 | `Channel.from_dict(c.to_dict())` rebuilds `c`. |
| DbStructs.MessageAnimeToDict | src/shared_components/db_structs.py:98-99 | `to_dict` has exactly `anime_id`, `message_id` and `channel_id`. |
| DbStructs.MessageAnimeFromDict | src/shared_components/db_structs.py:88-96 | Succeeds iff the keys are exactly the three parameters, and then reproduces `d`. |
| DbStructs.MessageAnimeRoundTrip | src/shared_components/db_structs.py:94-99 | `from_dict(to_dict(m))` rebuilds `m`. |
| DbStructs.MessageEpisodeToDict | src/shared_components/db_structs.py:115-116 | `to_dict` has exactly `episode_id`, `message_id` and `channel_id`. |
| DbStructs.MessageEpisodeFromDict | src/shared_components/db_structs.py:105-113 | Succeeds iff the keys are exactly the three parameters, and then reproduces `d`. |
| DbStructs.MessageEpisodeRoundTrip | src/shared_components/db_structs.py:111-116 | `from_dict(to_dict(m))` rebuilds `m`. |
| PyValues.Stored | src/database/db_sqlite3.py:314-321 | The value bound for a parameter is NULL exactly when the Python value is None. |
| PyValues.ClashSymmetric | src/database/db_sqlite3.py:285-286 | Two values violate a UNIQUE column in either order alike (NULLs never clash). |
| PyValues.SqlLessIsStrictTotalOrder | src/local/db_sqlite3.py:128-129 | SQLite's ordering of stored values (`ORDER BY`) is irreflexive, transitive and total. |
| Text.ContainsAfterPrefix | src/shared_components/api/bot_api/animestele_bot.py:117 | `t in s` stays true when text is put in front of `s`. |
| Text.ReplaceAllKeepsUntouched | src/shared_components/data_colect.py:182 | `s.replace(t, r)` leaves `s` unchanged when `t` does not occur in it. |
| Text.BeforeFirst | src/shared_components/data_colect.py:82 | `s.split(t)[0]` is a prefix of `s`. |
| Text.LastSegment | src/shared_components/data_colect.py:180-182 | `s.split('/')[-1]` is a suffix of `s` without a `/`. |
| Text.RStripChars | src/shared_components/data_colect.py:361 | `s.rstrip(chars)` is a prefix of `s` that ends in no character of the set, and everything it drops is in the set. |
| Text.LStripChars | src/shared_components/queue.py:24 | `s.lstrip(chars)` is a suffix of `s` that starts with no character of the set, and everything it drops is in the set. |
| Text.StripTrimmed | src/shared_components/queue.py:24 | A string that starts and ends with a character `str.isspace()` rejects (the whole Unicode whitespace set) is its own `strip()`. |
| Text.StripLine | src/shared_components/queue.py:24 | `strip()` also drops the line terminator. |
| Text.LineEnd | src/shared_components/queue.py:24 | `readline()` on the translated text ends after the first '\n', or at the end of the text. |
| Text.Lines | src/shared_components/queue.py:36-38 | Iterating a text file yields the lines of its translated text, each with its '\n'; the first line is the text up to `LineEnd`. |
| Text.Unlines | src/shared_components/queue.py:12 | A non-empty sequence of `write(x + '\n')` calls leaves a file ending in '\n'. |
| Text.Translate | src/shared_components/queue.py:22-24 | A text-mode read (universal newlines) turns "\r\n" and a lone '\r' into '\n': what it delivers holds no '\r' and is no longer than the file. |
| Text.TranslatePlain | src/shared_components/queue.py:36-38 | Text without '\r' reads back unchanged. |
| Text.TranslateAppend | src/shared_components/queue.py:11-12 | Text appended after a file that does not end in '\r' is read on its own: reading the whole is reading the old text, then the new. |
| Text.TranslateEndsLine | src/shared_components/queue.py:26-27 | A file ending in '\n' or '\r' reads as text ending in '\n'. |
| Text.LinesAppend | src/shared_components/queue.py:11-13 | Appending a newline-free `x` and '\n' to a file of complete lines adds exactly the line `x + '\n'` (on the translated text, which holds no '\r'). |
| Text.LinesAppendLine | src/shared_components/queue.py:26-27 | Appending a complete line to a file of complete lines adds exactly that line (on the translated text, which holds no '\r'). |
| Text.LinesSplit | src/shared_components/queue.py:24-27 | The first line is cut the same way whatever follows; the rest are the lines after it (on the translated text, which holds no '\r'). |
| Text.LinesCons | src/shared_components/queue.py:24-27 | A newline-free line written before `rest` reads back first, followed by `rest`'s lines (on the translated text, which holds no '\r'). |
| Text.LinesOfUnlines | src/shared_components/queue.py:10-14 | Reading back what the writes produced gives each written item, in order, with its '\n' (on the translated text, which holds no '\r'). |
| Text.NatToString | src/shared_components/api/bot_api/animestele_bot.py:147 | `str(n)` is decimal digits with no leading zero. |
| Text.NatToStringRoundTrip | src/shared_components/api/bot_api/animestele_bot.py:147 | The rendered message id can be read back. |
| Text.NatToStringInjective | src/shared_components/api/bot_api/animestele_bot.py:147 | Different ids render differently. |
| Text.IntToString | src/shared_components/api/bot_api/animestele_bot.py:142 | `str(i)` is non-empty and holds no '\n' and no ','. |
| Text.TextLessIrreflexive | src/local/db_sqlite3.py:129 | Text order is irreflexive. |
| Text.TextLessTransitive | src/local/db_sqlite3.py:129 | Text order is transitive. |
| Text.TextLessTotal | src/local/db_sqlite3.py:129 | Any two different texts are ordered. |
| Tables.EmptyTable | src/interface/db_factory_and_manager.py:17-24 | A freshly created table is empty and well numbered. |
| Tables.AppendKeepsInvariant | src/database/db_sqlite3.py:320-325 | An insert the constraints admit stores the row under a fresh id, keeps every other row, and keeps the table free of conflicts. |
| Tables.FirstMatchFrom | src/database/db_sqlite3.py:330-339 | The scan finds the lowest matching id at or after `from`, or BAD_ID iff none matches. |
| Tables.Lookup | src/database/db_sqlite3.py:330-339 | `SELECT id WHERE key = ?` gives a matching id (the lowest), or BAD_ID iff no row matches. |
| Tables.Get | src/database/db_sqlite3.py:341-347 | `SELECT * WHERE id = ?` finds the stored row iff the id is stored. |
| Tables.LookupFindsAppended | src/database/db_sqlite3.py:321-338 | After appending the only row that matches, the lookup returns its fresh id. |
| Tables.AppendExtends | src/database/db_sqlite3.py:320-325 | An insert keeps every earlier row unchanged. |
| Tables.First | src/local/db_sqlite3.py:128-129 | The candidate that sorts first (lowest id among equal keys), or BAD_ID iff there is none. |
| Tables.PrecedesOrder | src/local/db_sqlite3.py:128-129 | Ascending and descending `ORDER BY` are strict weak orders. |
| Tables.Without | src/local/db_sqlite3.py:128-129 | Removing one row keeps all others. |
| Tables.Ordered | src/local/db_sqlite3.py:128-129 | `ORDER BY key`: every kept row exactly once, in key order. |
| Tables.Limit | src/local/db_sqlite3.py:129 | `LIMIT n` keeps the first n rows; a negative n keeps all. |
| Tables.IdsFrom | src/local/db_sqlite3.py:125-126 | A query without ORDER BY reads every row once, in ascending id order. |
| SqliteStore.AnimeInsertThenLookup | src/database/db_sqlite3.py:320-338 | After an admitted insert, `get_primary_key(mal_id)` returns the new id. |
| SqliteStore.SQLiteAnimes.constructor | src/database/db_sqlite3.py:281-304 | `create_table` yields an empty, valid table. |
| SqliteStore.SQLiteAnimes.InsertData | src/database/db_sqlite3.py:306-328 | A fresh id iff `mal_id` and `title` are non-null and unused, and then the row is stored and found again by `mal_id` and by id; otherwise BAD_ID and no change. |
| SqliteStore.SQLiteAnimes.GetPrimaryKey | src/database/db_sqlite3.py:330-339 | The id of the one anime with that `mal_id`, or BAD_ID iff there is none. |
| SqliteStore.SQLiteAnimes.GetById | src/database/db_sqlite3.py:341-347 | The intended answer: the stored anime iff the id is stored, else NOT_FOUND. |
| SqliteStore.SQLiteAnimes.GetByIdAsWritten | src/database/db_sqlite3.py:341-347 | As written: TypeError for every stored id (the row has an `anime_id` column); AttributeError for a missing id, at the undefined `values.NOT_FOUND`. |
| SqliteStore.EpisodeInsertThenLookup | src/database/db_sqlite3.py:393-413 | After an admitted insert, `get_primary_key(mal_id, episode_number)` returns the new id. |
| SqliteStore.SQLiteEpisodes.constructor | src/database/db_sqlite3.py:362-381 | `create_table` yields an empty, valid table. |
| SqliteStore.SQLiteEpisodes.InsertData | src/database/db_sqlite3.py:382-401 | A fresh id iff NOT NULL holds and none of the five UNIQUE keys is taken, and then the row is stored and found again; otherwise BAD_ID and no change. |
| SqliteStore.SQLiteEpisodes.GetPrimaryKey | src/database/db_sqlite3.py:404-414 | The id of the one episode with that `(mal_id, episode_number)`, or BAD_ID iff none. |
| SqliteStore.SQLiteEpisodes.GetById | src/database/db_sqlite3.py:416-423 | The intended answer: the stored episode iff the id is stored. |
| SqliteStore.SQLiteEpisodes.GetByIdAsWritten | src/database/db_sqlite3.py:416-423 | As written: TypeError for every stored id; AttributeError for a missing id, at the undefined `values.NOT_FOUND`. |
| SqliteStore.PlatformInsertThenLookup | src/database/db_sqlite3.py:466-493 | After an admitted insert, `get_primary_key(platform_name)` returns the new id. |
| SqliteStore.SQLitePlatforms.constructor | src/database/db_sqlite3.py:457-465 | `create_table` yields an empty, valid table. |
| SqliteStore.SQLitePlatforms.InsertData | src/database/db_sqlite3.py:466-481 | A fresh id iff the name is non-null and unused, and then the row is stored and found again; otherwise BAD_ID and no change. |
| SqliteStore.SQLitePlatforms.GetPrimaryKey | src/database/db_sqlite3.py:483-493 | The id of the platform with that name, or BAD_ID iff none. |
| SqliteStore.SQLitePlatforms.GetById | src/database/db_sqlite3.py:495-511 | The intended answer: the stored platform iff the id is stored. |
| SqliteStore.SQLitePlatforms.GetByIdAsWritten | src/database/db_sqlite3.py:495-511 | As written: TypeError for every stored id; AttributeError for a missing id, at the undefined `values.NOT_FOUND`. |
| SqliteStore.ChannelInsertThenLookup | src/database/db_sqlite3.py:538-570 | After an admitted insert, the lookup by `(platform_id, chat_id)` returns the new id, or BAD_ID when `chat_id` is None. |
| SqliteStore.SQLiteChannels.constructor | src/database/db_sqlite3.py:517-536 | `create_table` yields an empty, valid table. |
| SqliteStore.SQLiteChannels.InsertData | src/database/db_sqlite3.py:538-555 | The intended insert: a fresh id iff `platform_id` is non-null, name or id is present, and neither `(platform_id, chat_name)` nor `(platform_id, chat_id)` is taken; otherwise BAD_ID and no change. |
| SqliteStore.SQLiteChannels.InsertDataAsWritten | src/database/db_sqlite3.py:538-555 | As written: the query is a tuple, so TypeError escapes and nothing is stored. |
| SqliteStore.SQLiteChannels.GetPrimaryKey | src/database/db_sqlite3.py:557-570 | The id of the channel with that `(platform_id, chat_id)`, or BAD_ID iff none. |
| SqliteStore.SQLiteChannels.GetById | src/database/db_sqlite3.py:572-579 | The intended answer: the stored channel iff the id is stored. |
| SqliteStore.SQLiteChannels.GetByIdAsWritten | src/database/db_sqlite3.py:572-579 | As written: TypeError for every stored id; AttributeError for a missing id, at the undefined `values.NOT_FOUND`. |
| SqliteStore.MessageAnimeInsertThenLookup | src/database/db_sqlite3.py:600-629 | After an admitted insert, `get_primary_key(anime_id, channel_id)` returns the new id. |
| SqliteStore.SQLiteMsgsAn.constructor | src/database/db_sqlite3.py:585-598 | `create_table` yields an empty, valid table. |
| SqliteStore.SQLiteMsgsAn.InsertData | src/database/db_sqlite3.py:600-617 | At most one row per `(anime_id, channel_id)`: a fresh id iff none exists yet, otherwise BAD_ID and no change. |
| SqliteStore.SQLiteMsgsAn.GetPrimaryKey | src/database/db_sqlite3.py:619-629 | The id of the row for `(anime_id, channel_id)`, or BAD_ID iff none. |
| SqliteStore.SQLiteMsgsAn.GetById | src/database/db_sqlite3.py:631-638 | The intended answer: the stored record iff the id is stored. |
| SqliteStore.SQLiteMsgsAn.GetByIdAsWritten | src/database/db_sqlite3.py:631-638 | As written: the query names a table that does not exist, so it always raises. |
| SqliteStore.MessageEpisodeInsertThenLookup | src/database/db_sqlite3.py:659-676 | After an admitted insert, the intended lookup by `(episode_id, channel_id)` returns the new id. |
| SqliteStore.SQLiteMsgsEp.constructor | src/database/db_sqlite3.py:644-657 | `create_table` yields an empty, valid table. |
| SqliteStore.SQLiteMsgsEp.InsertData | src/database/db_sqlite3.py:659-676 | At most one row per `(episode_id, channel_id)`: a fresh id iff none exists yet, otherwise BAD_ID and no change. |
| SqliteStore.SQLiteMsgsEp.GetPrimaryKey | src/database/db_sqlite3.py:678-688 | The intended lookup: the id of the row for `(episode_id, channel_id)` in `msgs_ep`, or BAD_ID iff none. |
| SqliteStore.SQLiteMsgsEp.GetPrimaryKeyAsWritten | src/database/db_sqlite3.py:678-688 | As written: it queries `msgs_ge`, which the manager never creates, so it always raises. |
| SqliteStore.SQLiteMsgsEp.GetById | src/database/db_sqlite3.py:690-697 | The intended answer: the stored record iff the id is stored. |
| SqliteStore.SQLiteMsgsEp.GetByIdAsWritten | src/database/db_sqlite3.py:690-697 | As written: TypeError for every stored id (extra `msg_ep_id` key); AttributeError for a missing id, at the undefined `values.NOT_FOUND`. |
| SqliteStore.MsgsEpLookupAsWrittenMissesStoredRow | src/database/db_sqlite3.py:678-688 | A freshly stored `msgs_ep` row is never found by the written lookup, but is found by the intended one. |
| SqliteStore.SQLiteDatabaseManager.constructor | src/interface/db_factory_and_manager.py:17-24 | `create_tables` creates the six tables, all empty. |
| LocalDatabase.AnimeEntry.constructor | src/shared_components/db_structs.py:1-20 | A new anime object carries its record, no `anime_id`, and the `added_to` and `channel` values its caller attaches (the class defines neither). |
| LocalDatabase.EpisodeEntry.constructor | src/shared_components/db_structs.py:33-42 | A new episode object carries its record, no `episode_id` or `release_date`, and the `added_to` value its caller attaches. |
| LocalDatabase.StoredEpisode | src/local/db_sqlite3.py:175-182 | The stored row has `temp` 0 (the insert omits the column) and the entry's `added_to`. |
| LocalDatabase.RowIdOf | src/local/db_sqlite3.py:166-170 | `WHERE id = ?` selects a row exactly when the bound value is stored as an integer. |
| LocalDatabase.AnimesList | src/local/db_sqlite3.py:123-130 | The ids the query reads are stored ids. |
| LocalDatabase.AnimesListLength | src/local/db_sqlite3.py:128-129 | `get_animes_list(n, False)` yields n animes, or all of them when there are fewer or n is negative. |
| LocalDatabase.AnimesListDescending | src/local/db_sqlite3.py:128-129 | Its animes come in strictly descending `mal_id`. |
| LocalDatabase.AnimesListTop | src/local/db_sqlite3.py:128-129 | Every anime left out has a smaller `mal_id` than every one returned. |
| LocalDatabase.OrderedCoversTable | src/local/db_sqlite3.py:128-129 | The unfiltered ordered query reads as many ids as the table holds. |
| LocalDatabase.DistinctMalIds | src/local/db_sqlite3.py:17 | `mal_id UNIQUE NOT NULL` gives different animes different sort keys. |
| LocalDatabase.EpisodesOfSorted | src/local/db_sqlite3.py:240-246 | The anime's episodes, each once, in strictly ascending episode number. |
| LocalDatabase.Database.constructor | src/local/db_sqlite3.py:6-56 | Opening a new file creates both tables, empty. |
| LocalDatabase.Database.InsertAnime | src/local/db_sqlite3.py:58-80 | On success the row is appended, `anime.anime_id` is set to the new id and returned, and `get_anime_id_by_mal_id` finds it; on a NULL or repeated `mal_id`/`title`, None and no change. |
| LocalDatabase.Database.InsertEpisode | src/local/db_sqlite3.py:175-188 | On success the row (with `temp` 0) is appended, `episode.episode_id` is set and returned, and the episode is found by `(mal_id, episode_number)`; on a constraint violation, None and no change. |
| LocalDatabase.Database.GetAnimeIdByMalId | src/local/db_sqlite3.py:337-360 | The id of the anime with that `mal_id`, or None iff none. |
| LocalDatabase.Database.GetEpisodeMalId | src/local/db_sqlite3.py:270-291 | The id of the stored episode with the same `(mal_id, episode_number)`, or None iff none. |
| LocalDatabase.Database.GetAnimeByMalId | src/local/db_sqlite3.py:94-121 | The stored anime with that `mal_id`, or ValueError iff none. |
| LocalDatabase.Database.GetAnimesList | src/local/db_sqlite3.py:123-159 | The rows of `AnimesList` in order: with `return_all` every anime in id order; otherwise at most n, in strictly descending `mal_id`. |
| LocalDatabase.Database.FetchAnimes | src/local/db_sqlite3.py:130-157 | The append loop yields exactly the rows of the given ids, in order. |
| LocalDatabase.Database.GetEpisodesByMalId | src/local/db_sqlite3.py:230-268 | ValueError iff the anime has no episode; otherwise all its episodes, in strictly ascending episode number. |
| LocalDatabase.Database.UpdateAnimeAddedTo | src/local/db_sqlite3.py:161-173 | Only the `added_to` of the row with the object's id changes; nothing changes when no row has that id. |
| LocalDatabase.Database.UpdateEpisodeAddedTo | src/local/db_sqlite3.py:322-335 | Only the `added_to` of the episode row with the object's id changes. |
| LocalDatabase.AllIdsCount | src/local/db_sqlite3.py:124-126 | With `return_all` every anime is read. |
| DbAccess.PairsLength | src/interface/db_acess.py:35-36 | Merging yields the sum over animes of min(watch list length, download list length) pairs. |
| DbAccess.PairAt | src/interface/db_acess.py:35-36 | Pair j of anime k sits right after the pairs of the earlier animes. |
| DbAccess.PairsLayout | src/interface/db_acess.py:35-36 | Every pair, at its position: anime order, then position within the anime; lists past the shorter outer list are dropped. |
| DbAccess.AgreeConcat | src/interface/db_acess.py:38 | A concatenation passes the ordinal assertion iff both parts do. |
| DbAccess.AgreeUpTo | src/interface/db_acess.py:36-38 | The pairs of the first n animes pass the assertion iff each of those animes' pairs agree. |
| DbAccess.CombinedMeaning | src/interface/db_acess.py:34-49 | The merge succeeds iff every paired ordinal agrees, else AssertionError; on success each candidate takes `mal_id`, `episode_number` and `watch_link` from the watch record and `hd`, `sd`, `temp` from the download record, in anime-then-position order. |
| DbAccess.MismatchFails | src/interface/db_acess.py:38 | One disagreeing pair anywhere aborts the whole merge. |
| DbAccess.MergeLinks | src/interface/db_acess.py:34-49 | The nested loops compute exactly the merge or its AssertionError. |
| DbAccess.AnimeStep | src/interface/db_acess.py:19-32 | One anime iteration keeps the table valid. |
| DbAccess.AnimesPass | src/interface/db_acess.py:19-32 | The anime loop keeps the table valid. |
| DbAccess.EpisodeDataBinds | src/interface/db_acess.py:55-61 | `Episode.from_dict` of the merged dict with `anime_id` added never raises. |
| DbAccess.EpisodeStep | src/interface/db_acess.py:55-74 | One episode iteration keeps the table valid. |
| DbAccess.EpisodesPass | src/interface/db_acess.py:55-74 | The episode loop keeps the table valid. |
| DbAccess.Ingest | src/interface/db_acess.py:7-75 | A whole call keeps both tables valid. |
| DbAccess.AnimesPassStep | src/interface/db_acess.py:19-32 | The anime loop is its iterations in order. |
| DbAccess.AnimesPassAborted | src/interface/db_acess.py:21 | Once `from_dict` has raised, no later metadata is looked at. |
| DbAccess.EpisodesPassStep | src/interface/db_acess.py:55-74 | The episode loop is its iterations in order. |
| DbAccess.InsertAnimes | src/interface/db_acess.py:19-32 | The loop on the `animes` table does exactly what `AnimesPass` says. |
| DbAccess.InsertParsedAnime | src/interface/db_acess.py:23-31 | A parsed anime is inserted and returned only when its `mal_id` is absent. |
| DbAccess.InsertEpisodes | src/interface/db_acess.py:55-74 | The loop on the `episodes` table does exactly what `EpisodesPass` says. |
| DbAccess.InsertAnimesIntoDatabase | src/interface/db_acess.py:7-75 | The store afterwards and the result (or exception) are exactly `Ingest`'s. |
| DbAccess.AnimeKeyGrows | src/interface/db_acess.py:23 | A `mal_id` found stays found after more inserts. |
| DbAccess.EpisodeKeyGrows | src/interface/db_acess.py:63 | An `(mal_id, episode_number)` found stays found after more inserts. |
| DbAccess.CreatesStep | src/interface/db_acess.py:25-27 | Recording a failed insert or the appended row keeps "the table grew by exactly the returned rows". |
| DbAccess.AnimeStepShape | src/interface/db_acess.py:23-32 | One anime iteration leaves the table alone or records one more anime whose `mal_id` was unknown. |
| DbAccess.AnimesPassCreates | src/interface/db_acess.py:19-32 | The anime loop adds exactly the rows it returns with a real id; every anime it returns had an unknown `mal_id`, so an existing anime is never re-inserted. |
| DbAccess.AnimesGrowCreates | src/interface/db_acess.py:23-31 | Both shapes of one anime iteration keep the `AnimesPassCreates` facts. |
| DbAccess.AnimeStepCreates | src/interface/db_acess.py:23-31 | One anime iteration keeps those facts. |
| DbAccess.EpisodeStepShape | src/interface/db_acess.py:63-74 | One episode iteration leaves the table alone or records one more episode whose key was unknown (even when its insert returned BAD_ID). |
| DbAccess.EpisodesPassCreates | src/interface/db_acess.py:55-74 | The episode loop adds exactly the rows it returns with a real id; every episode it returns had an unknown `(mal_id, episode_number)`. |
| DbAccess.EpisodesGrowCreates | src/interface/db_acess.py:63-71 | Both shapes of one episode iteration keep the `EpisodesPassCreates` facts. |
| DbAccess.EpisodeStepCreates | src/interface/db_acess.py:63-71 | One episode iteration keeps those facts. |
| DbAccess.AnimeStepCovers | src/interface/db_acess.py:21-27 | An iteration with no failure and no rejected insert leaves the dict's anime stored. |
| DbAccess.AnimesPassCovers | src/interface/db_acess.py:19-32 | When no insert failed, every metadata dict's anime is stored afterwards. |
| DbAccess.AnimeCoveredGrows | src/interface/db_acess.py:19-32 | Stored animes stay stored as the table grows. |
| DbAccess.AnimesPassStable | src/interface/db_acess.py:23-24 | When every dict's anime is already stored, the anime loop changes and returns nothing. |
| DbAccess.EpisodeStepCovers | src/interface/db_acess.py:63-68 | An iteration whose insert was not rejected leaves the candidate's key stored. |
| DbAccess.EpisodesPassCovers | src/interface/db_acess.py:55-74 | When no insert failed, every candidate's key is stored afterwards. |
| DbAccess.EpisodesPassCoversLast | src/interface/db_acess.py:63-68 | The last iteration extends the table and stores the last candidate's key. |
| DbAccess.EpisodesPassCreatedGrows | src/interface/db_acess.py:68 | The returned episode list only grows. |
| DbAccess.EpisodesPassLast | src/interface/db_acess.py:55-74 | The episode loop is its front followed by its last iteration. |
| DbAccess.EpisodeCoveredGrows | src/interface/db_acess.py:55-74 | Stored keys stay stored as the table grows. |
| DbAccess.EpisodesPassStable | src/interface/db_acess.py:63-64 | When every candidate's key is stored, the episode loop changes and returns nothing. |
| DbAccess.IngestIdempotent | src/interface/db_acess.py:23-25 | After a call in which every insert succeeded, a second call on the same input returns two empty lists and leaves both tables unchanged. |
| DbAccess.LocateChannel | src/interface/db_acess.py:144-159 | As intended: the not-found sentinel iff the platform name or the `(platform_id, chat_id)` channel is unknown; otherwise the two stored rows and their ids. |
| DbAccess.LocateChannelAsWritten | src/interface/db_acess.py:144-159 | As written it never returns: AttributeError exactly when the intended lookup finds nothing (`values.NOT_FOUND` is undefined), TypeError from the written `get_by_id` otherwise. |
| DbAccess.OnChannel | src/interface/db_acess.py:161-177 | As intended: NOT_FOUND iff the channel is not located; EXISTS_IN_DB iff `msgs_an` has `(anime_id, channel_id)`; False otherwise. |
| DbAccess.OnChannelAsWritten | src/interface/db_acess.py:161-177 | As written it never answers: AttributeError when the channel is not located, TypeError when it is; `msgs_an` is never consulted. |
| DbAccess.SaveAn | src/interface/db_acess.py:193-200 | `save_msg_an` keeps `msgs_an` valid. |
| DbAccess.SaveEp | src/interface/db_acess.py:218-225 | `save_msg_ep` keeps `msgs_ep` valid. |
| DbAccess.SaveAnMeaning | src/interface/db_acess.py:179-200 | At-most-once: None and no change iff the platform or channel id is missing; a new row iff `verify_if_anime_is_on_channel` would say False, after which it says EXISTS_IN_DB; a refused insert changes nothing. |
| DbAccess.SaveAnTwice | src/interface/db_acess.py:193-200 | A second save for the same anime and channel, whatever the message id, is refused and changes nothing. |
| DbAccess.SaveEpMeaning | src/interface/db_acess.py:202-225 | The same for episodes: None and no change iff the channel is unknown; a new row iff none exists for the episode and channel, after which one is found. |
| DbAccess.SaveEpTwice | src/interface/db_acess.py:218-225 | A second save for the same episode and channel is refused and changes nothing. |
| DbAccess.SaveMsgAn | src/interface/db_acess.py:179-200 | On the database: the new `msgs_an` table and result are `SaveAn`'s. |
| DbAccess.SaveMsgEp | src/interface/db_acess.py:202-225 | On the database: the new `msgs_ep` table and result are `SaveEp`'s. |
| DbAccess.InitPlan | src/interface/db_acess.py:259-285 | The intended `init_animestele` keeps both tables valid. |
| DbAccess.InitPlanSetsUp | src/interface/db_acess.py:259-285 | Afterwards the platform is stored under the returned id, and the channel is stored under the returned id and found by `(platform_id, chat_id)`, unless a stored channel clashes on a UNIQUE key; rows are only added. |
| DbAccess.InitChannelStep | src/interface/db_acess.py:270-271 | The channel insert stores a channel found by `(platform_id, chat_id)`, or is refused for a clashing row. |
| DbAccess.InitPlanIdempotent | src/interface/db_acess.py:259-285 | Once set up, a second call changes nothing and returns the same rows and ids. |
| DbAccess.InitAnimesteleAsWritten | src/interface/db_acess.py:266-285 | As written it never returns and inserts nothing (the `is None` tests never hold): TypeError from `get_by_id` for a stored platform, AttributeError at the undefined `values.NOT_FOUND` for an absent one. |
| DbAccess.InitAnimesteleAsWrittenCreatesNothing | src/interface/db_acess.py:266-285 | On a store without the telegram platform, the written code inserts nothing and raises AttributeError, while the intended one stores the platform and channel. |
| DbAccess.InitAnimestele | src/interface/db_acess.py:259-285 | On the database: the tables and results are `InitPlan`'s. |
| LocalAccess.WithKey | src/local/db_sqlite3_acess.py:54-56 | The candidates filed under key k all have episode number k. |
| LocalAccess.GroupAllMeaning | src/local/db_sqlite3_acess.py:54-63 | The dict holds under each episode number exactly the candidates with it, in their original order; its keys are those numbers, each once. |
| LocalAccess.WithKeyConcat | src/local/db_sqlite3_acess.py:55-56 | Filtering by key distributes over concatenation. |
| LocalAccess.WithKeyUniform | src/local/db_sqlite3_acess.py:55-56 | A list filed under key k is its own filter by k. |
| LocalAccess.InsertKey | src/local/db_sqlite3_acess.py:66 | Insertion into the sorted keys keeps the multiset of keys. |
| LocalAccess.SortKeys | src/local/db_sqlite3_acess.py:66 | `sorted` permutes the keys. |
| LocalAccess.InsertKeyAscending | src/local/db_sqlite3_acess.py:66 | Inserting into an ascending list keeps it ascending. |
| LocalAccess.SortKeysMeaning | src/local/db_sqlite3_acess.py:66 | For distinct sortable keys, `sorted` is strictly ascending and has the same keys. |
| LocalAccess.FlattenWithKey | src/local/db_sqlite3_acess.py:73-74 | Visiting the groups in key order visits group k as filed. |
| LocalAccess.FlattenAscending | src/local/db_sqlite3_acess.py:73-74 | The visiting order is non-decreasing in episode number. |
| LocalAccess.GroupAllUniform | src/local/db_sqlite3_acess.py:55-56 | Every list in the dict holds only its key's candidates. |
| LocalAccess.VisitOrderWithKey | src/local/db_sqlite3_acess.py:66-74 | The candidates of one episode number are visited in their original order. |
| LocalAccess.VisitOrderAscending | src/local/db_sqlite3_acess.py:66-74 | Candidates are visited by non-decreasing episode number. |
| LocalAccess.VisitOrderMeaning | src/local/db_sqlite3_acess.py:54-74 | The visiting order is a stable sort of the candidates by episode number across all animes. |
| LocalAccess.GroupStep | src/local/db_sqlite3_acess.py:55-63 | One more pair files one more candidate. |
| LocalAccess.FileStep | src/local/db_sqlite3_acess.py:50-63 | One inner-loop step keeps the agreement and the dict. |
| LocalAccess.SetdefaultAppend | src/local/db_sqlite3_acess.py:55-56 | `setdefault` then `append` files a candidate under its key. |
| LocalAccess.GroupAnime | src/local/db_sqlite3_acess.py:50-63 | The inner loop for one anime: the dict with its pairs filed iff all its pairs agree, else AssertionError. |
| LocalAccess.GroupLinks | src/local/db_sqlite3_acess.py:46-63 | The outer loop computes exactly the grouped dict, or the AssertionError of line 52. |
| LocalAccess.MetadataAnime | src/local/db_sqlite3_acess.py:26-43 | The anime is built iff all sixteen keys are present, else KeyError. |
| LocalAccess.MetadataAnimeReads | src/local/db_sqlite3_acess.py:26-43 | Each attribute is the dict's value under its key. |
| LocalAccess.LocalAnimeStep | src/local/db_sqlite3_acess.py:24-44 | One iteration, with the entry carrying `added_to = "#none"`, keeps the table valid. |
| LocalAccess.LocalAnimesPass | src/local/db_sqlite3_acess.py:24-44 | The anime loop, each entry carrying `added_to = "#none"`, keeps the table valid. |
| LocalAccess.LocalAnimeStepAsWritten | src/local/db_sqlite3.py:58-80 | As written: an iteration stores nothing and always fails, with KeyError for an incomplete dict and AttributeError (the missing `added_to`) otherwise. |
| LocalAccess.LocalAnimesPassAsWritten | src/local/db_sqlite3_acess.py:24-44 | As written: the loop leaves the table as it was and fails exactly when there is a dict, with the first dict's KeyError or AttributeError. |
| LocalAccess.CheckedAnimeStep | src/interface/db_acess.py:23-27 | A check-then-insert iteration keeps the table valid. |
| LocalAccess.CheckedAnimesPass | src/interface/db_acess.py:19-32 | A check-then-insert loop keeps the table valid. |
| LocalAccess.CheckedAnimeStepSame | src/local/db_sqlite3_acess.py:44 | One iteration with or without the existence check has the same effect. |
| LocalAccess.PrecheckRedundant | src/local/db_sqlite3_acess.py:24-44 | Leaving out the existence check changes nothing: the `mal_id` UNIQUE constraint refuses every anime the check would skip. |
| LocalAccess.AnimeRefusedGrows | src/local/db_sqlite3.py:17-18 | A refused anime stays refused as rows are added. |
| LocalAccess.LocalAnimeStepSettles | src/local/db_sqlite3_acess.py:44 | After one iteration the dict's anime is one the table refuses. |
| LocalAccess.LocalAnimesPassSettles | src/local/db_sqlite3_acess.py:24-44 | After a pass without KeyError, the table only grew and every dict's anime is refused. |
| LocalAccess.LocalAnimesPassStable | src/local/db_sqlite3_acess.py:24-44 | When every dict's anime is refused, the loop changes nothing. |
| LocalAccess.LocalAnimesPassStep | src/local/db_sqlite3_acess.py:24-44 | The loop is its iterations in order. |
| LocalAccess.LocalAnimesPassAborted | src/local/db_sqlite3_acess.py:27 | After a KeyError nothing later is looked at. |
| LocalAccess.InsertLocalAnimes | src/local/db_sqlite3_acess.py:24-44 | On the database: the table and the KeyError are `LocalAnimesPass`'s. |
| LocalAccess.LocalEpisodeAsWrittenRaises | src/local/db_sqlite3_acess.py:75 | As written: `Episode(**episode_data)` raises TypeError for every candidate. |
| LocalAccess.AnimeIdValue | src/local/db_sqlite3.py:337-360 | The anime's id, or None iff no anime has the `mal_id`. |
| LocalAccess.CorrectedDictBinds | src/local/db_sqlite3_acess.py:56-63 | With `anime_id` added, `Episode(**d)` binds and keeps every value of the candidate. |
| LocalAccess.LocalEpisodeStep | src/local/db_sqlite3_acess.py:75-82 | One iteration keeps the table valid. |
| LocalAccess.LocalEpisodesPass | src/local/db_sqlite3_acess.py:73-82 | The episode loop keeps the table valid. |
| LocalAccess.EpisodeRefusedGrows | src/local/db_sqlite3.py:49-53 | A refused episode stays refused as rows are added. |
| LocalAccess.LocalEpisodeStepSettles | src/local/db_sqlite3_acess.py:76-82 | After one iteration the candidate is refused: it was found, rejected, or just stored. |
| LocalAccess.LocalEpisodesPassSettles | src/local/db_sqlite3_acess.py:73-82 | After the loop the table only grew and every visited candidate is refused. |
| LocalAccess.LocalEpisodesPassStable | src/local/db_sqlite3_acess.py:76-82 | When every candidate is refused, the loop changes nothing. |
| LocalAccess.LocalEpisodesPassConcat | src/local/db_sqlite3_acess.py:73-82 | The loop is its iterations in order. |
| LocalAccess.FlattenStep | src/local/db_sqlite3_acess.py:73-74 | Visiting one more group appends that group. |
| LocalAccess.InsertCandidate | src/local/db_sqlite3_acess.py:75-82 | One candidate on the database: the table becomes `LocalEpisodeStep`'s. |
| LocalAccess.InsertGroup | src/local/db_sqlite3_acess.py:74-82 | The inner loop on the database matches `LocalEpisodesPass` over the group. |
| LocalAccess.InsertOrdered | src/local/db_sqlite3_acess.py:73-82 | The outer loop matches `LocalEpisodesPass` over the flattened groups. |
| LocalAccess.LocalIngest | src/local/db_sqlite3_acess.py:20-83 | A whole corrected run (`anime_id` looked up for each episode, `added_to = "#none"` on each entry) keeps both tables valid. |
| LocalAccess.LocalIngestAsWritten | src/local/db_sqlite3_acess.py:20-83 | As written: a run never changes either table, and with any metadata it fails with the first dict's KeyError or AttributeError. |
| LocalAccess.AddedToMissing | src/local/db_sqlite3.py:73 | When the first dict is complete, the run as written raises AttributeError and stores nothing, while the corrected anime loop stores (or finds) that anime. |
| LocalAccess.LocalIngestExtends | src/local/db_sqlite3_acess.py:20-83 | A run changes the tables only by inserting rows. |
| LocalAccess.LocalAnimesExtend | src/local/db_sqlite3_acess.py:24-44 | The anime loop only inserts rows. |
| LocalAccess.LocalIngestIdempotent | src/local/db_sqlite3_acess.py:20-83 | After a run that raised nothing, a second run on the same data raises nothing and changes nothing. |
| LocalAccess.DataCollectAndInsert | src/local/db_sqlite3_acess.py:7-83 | On the database: the tables and the exception are `LocalIngest`'s. |
| DataCollect.Take | src/shared_components/data_colect.py:24-26 | At most n items, a prefix, and none when n is not positive. |
| DataCollect.TakeSaturated | src/shared_components/data_colect.py:44-45 | Once n items are taken, later ones are never looked at. |
| DataCollect.TakeAppend | src/shared_components/data_colect.py:41 | Below the cap, one more item is taken. |
| DataCollect.Kept | src/shared_components/data_colect.py:35-41 | A page yields at most one pair per anchor. |
| DataCollect.KeptFiltered | src/shared_components/data_colect.py:38-40 | Every kept pair links to an anime page and is not a dub unless dubs are wanted. |
| DataCollect.KeptOfPagesFiltered | src/shared_components/data_colect.py:26-45 | The same across pages. |
| DataCollect.KeptOfPagesAppend | src/shared_components/data_colect.py:26-47 | The kept pairs of consecutive pages concatenate. |
| DataCollect.FirstStop | src/shared_components/data_colect.py:47-57 | The first page with an error or without anchors, or the end. |
| DataCollect.TitleAndHyperlinks | src/shared_components/data_colect.py:6-59 | Fails (the `requests.get` exception escapes) exactly when the listing reaches a page whose request raised before enough pairs were taken; otherwise the kept pairs of the pages before the first stop, capped at min(extract_amount, 100), none when extract_amount ≤ 0, every pair passing the filter. |
| DataCollect.ListingDone | src/shared_components/data_colect.py:44-49 | After the listing stops, later pages change nothing. |
| DataCollect.KeptOfPagesSaturated | src/shared_components/data_colect.py:26 | Once enough pairs are taken, later pages change nothing. |
| DataCollect.CollectStep | src/shared_components/data_colect.py:35-45 | A kept anchor adds its pair; any other anchor adds nothing. |
| DataCollect.KeptStep | src/shared_components/data_colect.py:35-41 | One more anchor extends the kept pairs by its own. |
| DataCollect.KeptAppend | src/shared_components/data_colect.py:35-41 | Kept pairs of concatenated anchors concatenate. |
| DataCollect.CollectFromPage | src/shared_components/data_colect.py:35-45 | The inner loop appends kept pairs until the amount is reached. |
| DataCollect.CollectDone | src/shared_components/data_colect.py:44-45 | Breaking once the amount is reached loses nothing. |
| DataCollect.KeptSaturated | src/shared_components/data_colect.py:44-45 | The rest of a page changes nothing once the amount is reached. |
| DataCollect.KeptSplit | src/shared_components/data_colect.py:35 | Kept pairs split with the anchors. |
| DataCollect.Run | src/shared_components/data_colect.py:84 | A run of reached ordinals stays within `range(1000)`. |
| DataCollect.RunFacts | src/shared_components/data_colect.py:84-100 | Every ordinal in the run was reached, and the one after it was not. |
| DataCollect.ProbingShape | src/shared_components/data_colect.py:84-105 | The ordinals collected are one contiguous ascending range starting at 0 or 1, at most 1000 long; 0 is skipped only when it was missed. |
| DataCollect.RunFrom | src/shared_components/data_colect.py:84-100 | A reached run that ends at `to` is the run. |
| DataCollect.RunAdvance | src/shared_components/data_colect.py:105 | A reached ordinal extends the collected run. |
| DataCollect.RunSkip | src/shared_components/data_colect.py:87-89 | A miss at ordinal 0 is skipped. |
| DataCollect.RunStop | src/shared_components/data_colect.py:90-100 | The loop stops with the whole run collected. |
| DataCollect.WatchEntries | src/shared_components/data_colect.py:82-105 | One record per ordinal, its link `base/i`. |
| DataCollect.WatchEntriesGrow | src/shared_components/data_colect.py:105 | One more ordinal appends its record. |
| DataCollect.WatchLinks | src/shared_components/data_colect.py:62-110 | None for a None URL, else one record per collected ordinal with link = URL before "-todos-os-episodios" + "/" + ordinal. |
| DataCollect.DownloadLinks | src/shared_components/data_colect.py:144 | At most one link per anchor. |
| DataCollect.DownloadLinksMeaning | src/shared_components/data_colect.py:143-144 | Every kept href is a download link and every download link of the page is kept. |
| DataCollect.PageLinks | src/shared_components/data_colect.py:131-144 | One link list per probed page. |
| DataCollect.PageLinksAt | src/shared_components/data_colect.py:142-144 | Page i's list is that page's download links. |
| DataCollect.Reachability | src/shared_components/data_colect.py:134-147 | One reachability per probed page. |
| DataCollect.ReachabilityAt | src/shared_components/data_colect.py:134-147 | A page counts as reached iff it has download links. |
| DataCollect.LastOfMeaning | src/shared_components/data_colect.py:151-155 | The last link filed under a quality, or None iff there is none. |
| DataCollect.AnyTemp | src/shared_components/data_colect.py:156-157 | True iff some link contains "mp4_temp". |
| DataCollect.ClassifiedMeaning | src/shared_components/data_colect.py:150-157 | `sd` is the last link containing "(SD)", `hd` the last containing "(HD)" but not "(SD)", and `temp` holds iff some link contains "mp4_temp". |
| DataCollect.ClassifyLinks | src/shared_components/data_colect.py:150-157 | The classification loop builds exactly `Classified`. |
| DataCollect.DownloadEntries | src/shared_components/data_colect.py:149-158 | One record per collected ordinal. |
| DataCollect.DownloadEntriesStep | src/shared_components/data_colect.py:158 | One more ordinal appends its record. |
| DataCollect.ReachAt | src/shared_components/data_colect.py:134-147 | A 404 is a miss, an exception ends the probing, a page is reached iff it has download links. |
| DataCollect.ProbeDownloadPage | src/shared_components/data_colect.py:132-158 | One pass stops iff an exception occurred or a page past 0 was not reached; it builds a record iff the page was reached. |
| DataCollect.DownloadLinksOf | src/shared_components/data_colect.py:112-165 | The loop returns exactly `DownloadResult`: contiguous from 0 or 1, a reachable link-less ordinal 0 skipped without stopping. |
| DataCollect.DownloadsStep | src/shared_components/data_colect.py:131-158 | One pass keeps the loop's state. |
| DataCollect.DownloadsDone | src/shared_components/data_colect.py:131-165 | When the loop stops, its records are the result. |
| DataCollect.SuffixCharsCoverSuffix | src/shared_components/data_colect.py:361 | The `rstrip` argument's character set is exactly the characters of the suffix. |
| DataCollect.LastSegmentAfterSlash | src/shared_components/data_colect.py:180-182 | The last `/` segment of `p/s` is `s` when `s` has no `/`. |
| DataCollect.ReplaceRemovesFinalSuffix | src/shared_components/data_colect.py:182 | `replace` of the suffix on `name + suffix` gives back `name` when the suffix does not start earlier. |
| DataCollect.AnimeNameFromUrlRecoversName | src/shared_components/data_colect.py:167-185 | For `{prefix}/{name}-todos-os-episodios`, the name extraction gives back exactly `name`. |
| DataCollect.NoOccurrence | src/shared_components/data_colect.py:182 | Where the suffix occurs at no position, `in` is false. |
| DataCollect.DashFreeNameHasNoEarlySuffix | src/shared_components/data_colect.py:182 | A name without '-' holds no early suffix. |
| DataCollect.RStripPastTail | src/shared_components/data_colect.py:361 | `rstrip` through a tail of stripped characters is `rstrip` of what precedes it. |
| DataCollect.LastSegmentWithoutSlash | src/shared_components/data_colect.py:361 | A string without '/' is its own last segment. |
| DataCollect.CustomNameAsWrittenTruncates | src/shared_components/data_colect.py:361 | As written, "naruto-todos-os-episodios" yields "naru", while `get_anime_name_from_af_url` yields "naruto". |
| DataCollect.NarutoStripped | src/shared_components/data_colect.py:361 | `rstrip` of "naruto" by the suffix's characters is "naru". |
| DataCollect.Resolved | src/shared_components/data_colect.py:330-333 | The releases whose title search found an id, in order, each from the listing. |
| DataCollect.Present | src/shared_components/data_colect.py:342-345 | Only the truthy metadata dicts, in order. |
| DataCollect.WatchListsFor | src/shared_components/data_colect.py:334-335 | One watch list per resolved release. |
| DataCollect.DownloadListsFor | src/shared_components/data_colect.py:336-338 | One download list per resolved release. |
| DataCollect.IdsFor | src/shared_components/data_colect.py:333 | One id per resolved release. |
| DataCollect.AssembleReleases | src/shared_components/data_colect.py:325-346 | The watch and download lists are one per resolved title (so equal in length), and the metadata, which may be shorter, is the truthy fetched dicts. |
| DataCollect.Fetched | src/shared_components/data_colect.py:342-343 | One fetch per id. |
| DataCollect.FetchMetadata | src/shared_components/data_colect.py:341-345 | The metadata loop keeps each truthy fetched dict, in order. |
| DataCollect.ListsStep | src/shared_components/data_colect.py:330-338 | One more resolved release appends its id and lists. |
| DataCollect.ResolvedStep | src/shared_components/data_colect.py:330-332 | One more release extends `Resolved` iff its search succeeded. |
| DataCollect.ExtractCustom | src/shared_components/data_colect.py:349-368 | With the intended name cut: ValueError iff MAL does not know the name, else the links and metadata for its id. |
| FileQueue.FirstLine | src/shared_components/queue.py:24 | `readline()` gives a prefix of the translated text. |
| FileQueue.AfterFirstLine | src/shared_components/queue.py:26-27 | The first line followed by what iteration then yields is the whole file, and the rest is shorter. |
| FileQueue.Drain | src/shared_components/queue.py:16-32 | n dequeues give n items, each dequeue reading the file anew through the newline translation. |
| FileQueue.Queue.constructor | src/shared_components/queue.py:4-8 | The file is created empty if missing, and `lines` is the number of lines a text-mode read of it yields. |
| FileQueue.Queue.CountLines | src/shared_components/queue.py:34-39 | The loop counts exactly the lines the text-mode file iterator yields. |
| FileQueue.Queue.Enqueue | src/shared_components/queue.py:10-14 | `x + '\n'` is appended and `lines` grows by one; for `x` without '\n' or '\r', a read yields the old lines plus `x + '\n'`, and the count invariant holds. |
| FileQueue.Queue.Dequeue | src/shared_components/queue.py:16-32 | With `lines == 0`, None and no change; otherwise the stripped first line of the translated text, the file becomes the rest of that text, and `lines` drops by one; the count invariant is kept. |
| FileQueue.CopyLines | src/shared_components/queue.py:26-27 | The copy loop leaves the temporary file holding exactly the unread text. |
| FileQueue.CopyStep | src/shared_components/queue.py:26-27 | Copying one line keeps copied text plus remaining text equal to the unread text. |
| FileQueue.DequeueKeepsCount | src/shared_components/queue.py:24-31 | Taking off the first line removes one line and keeps the file ending in '\n'. |
| FileQueue.EnqueueReads | src/shared_components/queue.py:10-14 | Appending a line without terminators to a file ending in '\n': the read text grows by exactly that line, and the file still ends in '\n'. |
| FileQueue.DequeueReads | src/shared_components/queue.py:22-31 | The rest a dequeue writes back ends in '\n', holds no '\r' (it reads back as itself) and has one line fewer than the file had. |
| FileQueue.UnlinesPlain | src/shared_components/queue.py:10-14 | A file written from items without '\r' reads back unchanged. |
| FileQueue.CarriageReturnSplitsItem | src/shared_components/queue.py:10-39 | An item "a\rb" is counted as one line but reads as two: `dequeue` returns "a" and leaves "b\n". |
| FileQueue.EnqueueUnlines | src/shared_components/queue.py:10-14 | Queuing `x` on a file of items `xs` makes it a file of `xs + [x]`. |
| FileQueue.DequeueUnlines | src/shared_components/queue.py:20-32 | Dequeuing a file of items returns the first item and leaves a file of the rest. |
| FileQueue.DrainStep | src/shared_components/queue.py:16-32 | Draining is one dequeue, then draining the rest. |
| FileQueue.DrainItems | src/shared_components/queue.py:16-32 | Draining a file of items yields its first item, then the rest's drain. |
| FileQueue.Fifo | src/shared_components/queue.py:10-32 | First in, first out: dequeuing a file of items (no '\n' or '\r', no whitespace at either end) returns them in the order queued. |
| FileQueue.CountOfItems | src/shared_components/queue.py:8 | The count cached on a file of items is the number of items, and the file ends in '\n'. |
| TelegramPublish.AddMarkerShape | src/shared_components/api/bot_api/animestele_bot.py:142-152 | `#none` becomes `#telegram=<v>`; any other marker stays as a prefix followed by `,` and ends with `#telegram=<v>`. |
| TelegramPublish.AddMarkerPublishes | src/shared_components/api/bot_api/animestele_bot.py:117 | After a marker is added, `'#telegram' in marker` holds. |
| TelegramPublish.Labelled | src/shared_components/api/bot_api/animestele_bot.py:119-136 | Line i is `label_i: value_i`. |
| TelegramPublish.AnimeFields | src/shared_components/api/bot_api/animestele_bot.py:119-136 | One value per anime label. |
| TelegramPublish.EpisodeFields | src/shared_components/api/bot_api/animestele_bot.py:169-180 | One value per episode label. |
| TelegramPublish.MessageLayout | src/shared_components/api/bot_api/animestele_bot.py:119-136 | Read back line by line, a message holds one `Label: value\n` line per field, in order. |
| TelegramPublish.AnimeMessageLayout | src/shared_components/api/bot_api/animestele_bot.py:119-136 | The anime message is 16 `Label: value\n` lines in the fixed order. |
| TelegramPublish.EpisodeMessageLayout | src/shared_components/api/bot_api/animestele_bot.py:169-180 | The episode message is 10 such lines. |
| TelegramPublish.Messages | src/shared_components/api/bot_api/animestele_bot.py:169-184 | The episode texts, one per sent episode, in order. |
| TelegramPublish.MessagesAppend | src/shared_components/api/bot_api/animestele_bot.py:184 | One more sent episode appends its text. |
| TelegramPublish.EpisodesRun | src/shared_components/api/bot_api/animestele_bot.py:165-197 | One marker per episode. |
| TelegramPublish.Markers | src/shared_components/api/bot_api/animestele_bot.py:165 | The episodes' markers, untouched. |
| TelegramPublish.AnimePost | src/shared_components/api/bot_api/animestele_bot.py:117-160 | The anime record itself is never changed. |
| TelegramPublish.Publish | src/shared_components/api/bot_api/animestele_bot.py:110-205 | One marker per episode. |
| TelegramPublish.EpisodesRunSkipsPublished | src/shared_components/api/bot_api/animestele_bot.py:167 | A published episode keeps its marker. |
| TelegramPublish.EpisodesRunCompletes | src/shared_components/api/bot_api/animestele_bot.py:165-197 | A loop that ran to the end leaves every episode published. |
| TelegramPublish.EpisodesRunDoneLast | src/shared_components/api/bot_api/animestele_bot.py:165-197 | A run that did not fail had not failed before its last episode and leaves that episode published. |
| TelegramPublish.EpisodesRunAllPublished | src/shared_components/api/bot_api/animestele_bot.py:167 | On all-published episodes the loop sends nothing and changes nothing. |
| TelegramPublish.EpisodesRunAfterFailure | src/shared_components/api/bot_api/animestele_bot.py:195-197 | After the first failed send, later episodes add no text and keep their markers. |
| TelegramPublish.EpisodesRunFailedLast | src/shared_components/api/bot_api/animestele_bot.py:195-197 | After a failure the last episode adds nothing. |
| TelegramPublish.EpisodesRunFailsAt | src/shared_components/api/bot_api/animestele_bot.py:182-197 | An unpublished episode whose send does not deliver is where the loop fails, and its text was sent. |
| TelegramPublish.PublishSkipsPublishedAnime | src/shared_components/api/bot_api/animestele_bot.py:117-165 | A published anime is not sent and keeps its markers; only episodes are sent. |
| TelegramPublish.PublishAnimeFailure | src/shared_components/api/bot_api/animestele_bot.py:138-159 | A failed anime send returns before any episode: only the anime text went out, `added_to` is unchanged, and `channel` is extended only when the send gave no message. |
| TelegramPublish.EpisodesAfter | src/shared_components/api/bot_api/animestele_bot.py:188-191 | Each episode with its new marker and nothing else changed. |
| TelegramPublish.SecondRunSendsNothing | src/shared_components/api/bot_api/animestele_bot.py:117-167 | After a call that ran to the end, a second call on what it left sends nothing and changes nothing, whatever the sender answers. |
| TelegramPublish.Views | src/shared_components/api/bot_api/animestele_bot.py:165 | One view per episode object. |
| TelegramPublish.EpisodesRunStep | src/shared_components/api/bot_api/animestele_bot.py:165-197 | One more episode of the loop, case by case. |
| TelegramPublish.PartialDone | src/shared_components/api/bot_api/animestele_bot.py:165-197 | When the loop stops, its state is the whole run's. |
| TelegramPublish.EpisodesAfterMarkers | src/shared_components/api/bot_api/animestele_bot.py:157-159 | Untouched episodes stay as they were. |
| TelegramPublish.PublishEpisodeAt | src/shared_components/api/bot_api/animestele_bot.py:166-197 | One pass on the i-th episode object advances the loop state as `EpisodesRun` does and sets that object's marker. |
| TelegramPublish.PublishEpisodes | src/shared_components/api/bot_api/animestele_bot.py:165-197 | The texts sent, whether a send failed, and each object's marker are exactly `EpisodesRun`'s. |
| TelegramPublish.PublishAnime | src/shared_components/api/bot_api/animestele_bot.py:117-160 | The anime object's markers, the text sent and whether the episodes follow are exactly `AnimePost`'s. |
| TelegramPublish.AddAnimeToTelegram | src/shared_components/api/bot_api/animestele_bot.py:110-205 | The sends, the marker updates on the objects and the early returns are exactly `Publish`'s. |

## Left out

- HTTP, HTML parsing and the MyAnimeList (Jikan) API are not modelled. Listing pages, probing outcomes, title search, metadata fetch and the per-URL and per-name sites are inputs (sequences or functions).
- The Telegram SDK is not modelled. Every `write_message` answer is taken from a script of outcomes:
  - a message id;
  - no message;
  - an exception;
  - an exception once the script runs out.

  `asyncio`, upload retries, message edits and the rest of `bot.py` are also left out.
- `print`, `print_log` and `logging` are not modelled: output only.
- Time is not modelled. `creation_date` and `release_date` defaults and every `ORDER BY release_date` are left out.
- LocalDatabase.Database.GetEpisodesByMalId: orders by episode number only. The query's leading `release_date DESC` is a wall-clock timestamp and is not modelled.
- Transactions are not modelled. `commit`/`rollback` are left out, and so is the fact that `update_anime_added_to` never commits.
- Foreign keys are declared but never switched on, so the model does not enforce them either.
- The SQLite driver is assumed to work: no I/O errors, and `lastrowid` is never None after a successful insert.
- These parts of `SqliteDB` are not modelled:
  - `create_tables` and `get_episode_mal_id`;
  - the cursor-based user, rating, notification, watch-list and `msgs_ge` classes;
  - `get_by_mal_id` and `get_episodes_by_mal_id` of the shared store.
- The PostgreSQL store, `get_list` and `data_print` are not modelled either.
- These local `Database` methods are not modelled: `get_anime_mal_id_by_title`, `get_all_anime_titles_and_ids`, `get_episode_by_mal_id_and_number`, `get_episodes_list`, and the first (overridden) `get_episodes_by_mal_id`.
- Several interface mismatches between the core files are resolved toward evident intent.
  - `db_acess.py` (line 4) and `database/db_sqlite3.py` (line 7) import `MsgAn`/`MsgEp`; `db_structs.py` defines `MessageAnime`/`MessageEpisode`, which the model uses.
  - `database/db_sqlite3.py` line 12 reads `values.LOG_PATH`, which `values.py` does not define. Logging is not modelled.
  - `values.py` defines neither `NOT_FOUND` nor `EXISTS_IN_DB`. Every `return values.NOT_FOUND` (database/db_sqlite3.py lines 347, 423, 511, 579, 638 and 697; db_acess.py lines 149 and 154) and the comparisons at db_acess.py lines 167 and 174 raise AttributeError. The `GetByIdAsWritten` members, `DbAccess.LocateChannelAsWritten`, `DbAccess.OnChannelAsWritten` and `DbAccess.InitAnimesteleAsWritten` raise it; the corrected members treat both names as sentinels.
  - `db_acess.py` line 3 imports `data_colect` from a `client` package that does not exist; the model uses `shared_components/data_colect.py`.
  - `local/db_sqlite3.py` builds `Anime(anime_id=..., added_to=...)` and `Episode(episode_id=..., release_date=..., added_to=...)`, which the constructors reject. The model represents those objects as entry classes: the record plus the attached attributes.
  - `db_sqlite3_acess.py` calls `data_colect.data_extract` and `db.get_episode_id`, which do not exist. The model takes the extracted lists as inputs and uses `get_episode_mal_id`.
- DbAccess.LocateChannel: treats `values.NOT_FOUND` as a sentinel and reads both rows with the corrected `get_by_id`. As written the function raises on every call (DbAccess.LocateChannelAsWritten).
- DbAccess.OnChannel: treats `NOT_FOUND` and `EXISTS_IN_DB` as sentinels. As written the function raises on every call (DbAccess.OnChannelAsWritten).
- LocalDatabase.Database.GetAnimeByMalId: returns the stored entry. As written, a found row raises TypeError, because `Anime(anime_id=..., added_to=...)` (local/db_sqlite3.py lines 101-120) passes keywords the constructor rejects; only the ValueError of a missing anime is as written.
- LocalDatabase.Database.GetAnimesList: returns the stored entries. As written, any row read raises TypeError at the same constructor call (local/db_sqlite3.py lines 137-156), so only an empty result is as written.
- LocalDatabase.Database.GetEpisodesByMalId: returns the stored entries. As written, a found row raises TypeError at `Episode(episode_id=..., release_date=..., added_to=...)` (local/db_sqlite3.py lines 255-266); only the ValueError of an anime without episodes is as written.
- PyValues.Stored: SQLite column type affinity is not modelled. For example, '5' stored in an INTEGER column becomes 5 and then clashes with 5 under UNIQUE, which the model does not capture. The core binds ids and numbers as ints and names and links as strings, so it never mixes them in one column.
- LocalAccess.LocalAnimeStep: models the corrected call: the entry carries `added_to = "#none"`. As written, `insert_anime` raises AttributeError instead (see Findings and LocalAccess.LocalAnimeStepAsWritten).
- LocalAccess.LocalAnimesPass: the corrected loop, as LocalAccess.LocalAnimeStep; as written see LocalAccess.LocalAnimesPassAsWritten.
- LocalAccess.LocalAnimeStepSettles: about the corrected loop; as written no anime is ever stored.
- LocalAccess.LocalAnimesPassSettles: about the corrected loop; as written no anime is ever stored.
- LocalAccess.InsertLocalAnimes: passes `"#none"` for `added_to` and `channel`, which the source never sets.
- LocalAccess.LocalEpisodeStep: models the corrected call: `anime_id` looked up and `added_to = "#none"` (as written, line 75 raises TypeError and `insert_episode` would raise AttributeError at local/db_sqlite3.py line 181).
- LocalAccess.LocalEpisodesPass: the corrected loop, as LocalAccess.LocalEpisodeStep.
- LocalAccess.LocalEpisodeStepSettles: about the corrected loop.
- LocalAccess.LocalEpisodesPassSettles: about the corrected loop.
- LocalAccess.InsertCandidate: passes the looked-up `anime_id` and `"#none"` for `added_to`, neither of which the source supplies.
- LocalAccess.InsertGroup: the corrected inner loop, as LocalAccess.InsertCandidate.
- LocalAccess.InsertOrdered: the corrected outer loop, as LocalAccess.InsertCandidate.
- LocalAccess.LocalIngest: the corrected run; the run as written is LocalAccess.LocalIngestAsWritten, which stores nothing.
- LocalAccess.LocalIngestIdempotent: about the corrected run.
- LocalAccess.DataCollectAndInsert: performs the corrected run (LocalAccess.LocalIngest).
- TelegramPublish.AddAnimeToTelegram: starts from the anime and episode objects already fetched. `get_anime_from_database`, `save_msg_an(anime)` and `save_msg_ep(episode)` are called on a module that does not define them. The model treats the saves as succeeding without effect on the objects.
- TelegramPublish.PublishEpisodes: requires distinct episode objects. The list comes from one query, one object per row.
- FileQueue.Queue.Dequeue: the file is its text. Opening failures, concurrent writers and crashes between the copy and `os.replace` are not modelled. The temporary file plus `os.replace` is one assignment.
- FileQueue.Queue.Enqueue: the count invariant is promised only for items without '\n' or '\r'. An item with '\r' is counted once but reads back as two lines (FileQueue.CarriageReturnSplitsItem); the source does not guard against it.
- FileQueue.Queue.Dequeue: writes are modelled as on POSIX, where text mode stores '\n' unchanged; the '\r\n' a Windows write would produce is not modelled.
- DataCollect.TitleAndHyperlinks: the site is a finite sequence of pages, and a page past its end reads as a page without anchors. A site whose pages go on having anchors, none of them kept, makes the source loop forever; that is not modelled.
- Strings are sequences of characters. Encodings and Unicode case rules do not arise in the core.
- Integers are unbounded. Python's integers are too, and SQLite's 64-bit limit is never approached.

## Findings

| source | as written | input that shows it | evidently intended | confidence | as-written member | corrected member |
|---|---|---|---|---|---|---|
| src/database/db_sqlite3.py:341-347 | `Anime.from_dict(row)` gets the `anime_id` column | any stored anime, e.g. id 1 after one insert: TypeError | return the stored anime | not executed | SqliteStore.SQLiteAnimes.GetByIdAsWritten | SqliteStore.SQLiteAnimes.GetById |
| src/database/db_sqlite3.py:416-423 | `Episode.from_dict(row)` gets `episode_id` | any stored episode: TypeError | return the stored episode | not executed | SqliteStore.SQLiteEpisodes.GetByIdAsWritten | SqliteStore.SQLiteEpisodes.GetById |
| src/database/db_sqlite3.py:495-511 | `Platform.from_dict(row)` gets `platform_id` | any stored platform: TypeError | return the stored platform | not executed | SqliteStore.SQLitePlatforms.GetByIdAsWritten | SqliteStore.SQLitePlatforms.GetById |
| src/database/db_sqlite3.py:572-579 | `Channel.from_dict(row)` gets `channel_id` | any stored channel: TypeError | return the stored channel | not executed | SqliteStore.SQLiteChannels.GetByIdAsWritten | SqliteStore.SQLiteChannels.GetById |
| src/database/db_sqlite3.py:631-638 | queries table `msg_an`, column `msgs_an_id` | any id: OperationalError | read `msgs_an` by `msg_an_id` | not executed | SqliteStore.SQLiteMsgsAn.GetByIdAsWritten | SqliteStore.SQLiteMsgsAn.GetById |
| src/database/db_sqlite3.py:690-697 | `from_dict(row)` gets `msg_ep_id` | any stored row: TypeError | return the stored record | not executed | SqliteStore.SQLiteMsgsEp.GetByIdAsWritten | SqliteStore.SQLiteMsgsEp.GetById |
| src/database/db_sqlite3.py:539-543 | trailing comma makes the query a tuple | any channel: TypeError, nothing stored | insert the channel | not executed | SqliteStore.SQLiteChannels.InsertDataAsWritten | SqliteStore.SQLiteChannels.InsertData |
| src/database/db_sqlite3.py:678-688 | queries `msgs_ge` by `message_id` | a stored `msgs_ep` row (episode 1, channel 1) is never found | query `msgs_ep` by `episode_id` | not executed | SqliteStore.MsgsEpLookupAsWrittenMissesStoredRow | SqliteStore.SQLiteMsgsEp.GetPrimaryKey |
| src/interface/db_acess.py:266-285 | absence tested with `is None`; lookups return BAD_ID; last branch reads channel by `chat_id` | empty store: nothing inserted, AttributeError from platforms' `get_by_id(-1)` | test BAD_ID, read channel by its id | not executed | DbAccess.InitAnimesteleAsWrittenCreatesNothing | DbAccess.InitPlanSetsUp |
| src/interface/db_acess.py:144-177 | `values.NOT_FOUND` and `values.EXISTS_IN_DB` are not defined in `values.py`; a located channel reaches the written `get_by_id` | empty store: AttributeError; platform and channel stored: TypeError | return the sentinels and answer from `msgs_an` | not executed | DbAccess.OnChannelAsWritten | DbAccess.OnChannel |
| src/shared_components/data_colect.py:361 | `rstrip("-todos-os-episodios")` strips a character set | "naruto-todos-os-episodios" gives "naru" | remove the suffix, as `get_anime_name_from_af_url` does | not executed | DataCollect.CustomNameAsWrittenTruncates | DataCollect.AnimeNameFromUrlRecoversName |
| src/local/db_sqlite3_acess.py:56-75 | `Episode(**episode_data)` without `anime_id` | any merged candidate: TypeError | add the anime's `anime_id` | not executed | LocalAccess.LocalEpisodeAsWrittenRaises | LocalAccess.CorrectedDictBinds |
| src/local/db_sqlite3_acess.py:26-44 | the `Anime` handed to `insert_anime` has no `added_to`, which local/db_sqlite3.py line 73 reads | any dict with all sixteen keys: AttributeError, nothing stored | attach `added_to = "#none"`, the bot's "not yet posted" marker | not executed | LocalAccess.AddedToMissing | LocalAccess.LocalAnimesPassSettles |
