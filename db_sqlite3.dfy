/**
 * The SQLite store behind the table classes of `database/db_sqlite3.py`:
 * one class per table holding the table's rows, with `insert_data`,
 * `get_primary_key` and `get_by_id`. Each table's NOT NULL, UNIQUE and CHECK
 * constraints are stated as a row predicate and a conflict predicate; an
 * INSERT that violates one of them raises `sqlite3.IntegrityError`, which
 * `insert_data` turns into BAD_ID with the table unchanged. Foreign keys are
 * declared but never switched on (no `PRAGMA foreign_keys`), so they are not
 * enforced here either.
 */
module SqliteStore {
  import opened Wrappers
  import opened PyValues
  import opened Tables
  import opened DbStructs

  /** A row handed to `from_dict`: the record, or the TypeError that `cls(**d)` raises. */
  function Raised<T>(r: Result<T, ConstructorError>): Result<T, PyError> {
    match r
    case Ok(x) => Ok(x)
    case Err(_) => Err(TypeError)
  }

  // ---------------------------------------------------------------- animes

  /** `mal_id INTEGER UNIQUE NOT NULL`, `title TEXT UNIQUE NOT NULL` */
  predicate AnimeRowOk(a: Anime) {
    Stored(a.malId) != SqlNull && Stored(a.title) != SqlNull
  }

  predicate AnimeConflict(a: Anime, b: Anime) {
    Clash(a.malId, b.malId) || Clash(a.title, b.title)
  }

  predicate AnimeAccepted(t: Table<Anime>, a: Anime) {
    AnimeRowOk(a) && Admits(t, AnimeConflict, a)
  }

  ghost predicate AnimesValid(t: Table<Anime>) {
    WellNumbered(t) && NoConflicts(t, AnimeConflict) && forall id | id in t.rows :: AnimeRowOk(t.rows[id])
  }

  /** `WHERE mal_id = ?` */
  function AnimeKey(t: Table<Anime>, malId: PyValue): int
    requires WellNumbered(t)
  {
    Lookup(t, (x: Anime) => Clash(x.malId, malId))
  }

  /** Round trip: after a successful insert, the lookup on the new row's `mal_id` finds the id the insert returned. */
  lemma {:induction false} AnimeInsertThenLookup(t: Table<Anime>, a: Anime)
    requires AnimesValid(t) && AnimeAccepted(t, a)
    ensures AnimeKey(Append(t, a), a.malId) == t.nextId
  {
    forall k | k in t.rows
      ensures !Clash(t.rows[k].malId, a.malId)
    {
      assert !AnimeConflict(t.rows[k], a);
    }
    LookupFindsAppended(t, a, (x: Anime) => Clash(x.malId, a.malId));
  }

  class SQLiteAnimes {
    var table: Table<Anime>

    ghost predicate Valid()
      reads this
    {
      AnimesValid(table)
    }

    /** `create_table` on an empty database. */
    constructor ()
      ensures Valid() && table == EmptyTable()
    {
      table := EmptyTable();
    }

    /**
     * `insert_data(anime)`: the id of the new row when the constraints admit
     * it; BAD_ID and no change when SQLite rejects it.
     */
    method InsertData(anime: Anime) returns (id: int)
      requires Valid()
      modifies this
      ensures Valid()
      ensures id != BAD_ID <==> AnimeAccepted(old(table), anime)
      ensures id != BAD_ID ==> id == old(table).nextId && id !in old(table).rows && table == Append(old(table), anime)
      ensures id != BAD_ID ==> GetPrimaryKey(anime.malId) == id && GetById(id) == Found(anime)
      ensures id == BAD_ID ==> table == old(table)
    {
      if AnimeAccepted(table, anime) {
        AppendKeepsInvariant(table, AnimeConflict, anime);
        AnimeInsertThenLookup(table, anime);
        id := table.nextId;
        table := Append(table, anime);
      } else {
        id := BAD_ID;
      }
    }

    /** `get_primary_key(mal_id)`: the id of the one row holding `mal_id`, or BAD_ID. */
    function GetPrimaryKey(malId: PyValue): (id: int)
      reads this
      requires Valid()
      ensures id == BAD_ID <==> forall k | k in table.rows :: !Clash(table.rows[k].malId, malId)
      ensures id != BAD_ID ==> id in table.rows && Clash(table.rows[id].malId, malId)
      ensures forall k | k in table.rows && Clash(table.rows[k].malId, malId) :: k == id
    {
      AnimeKey(table, malId)
    }

    /** `get_by_id(anime_id)` as it was evidently meant: the stored anime, or a not-found sentinel. */
    function GetById(animeId: int): (r: Fetched<Anime>)
      reads this
      ensures r.Found? <==> animeId in table.rows
      ensures r.Found? ==> r.value == table.rows[animeId]
    {
      Get(table, animeId)
    }

    /**
     * `get_by_id(anime_id)` as written: the row's dict, which carries the
     * `anime_id` column, goes to `Anime.from_dict`, which raises TypeError.
     * A missing id reaches `return values.NOT_FOUND`, and `values.py` defines
     * no `NOT_FOUND`, so that path raises AttributeError.
     */
    function GetByIdAsWritten(animeId: int): (r: Result<Anime, PyError>)
      reads this
      ensures animeId in table.rows ==> r == Err(TypeError)
      ensures animeId !in table.rows ==> r == Err(AttributeError)
    {
      if animeId in table.rows then
        var row := AnimeToDict(table.rows[animeId])["anime_id" := PyInt(animeId)];
        AnimeExtraAttributeBreaksRoundTrip(table.rows[animeId], "anime_id", PyInt(animeId));
        Raised(AnimeFromDict(row))
      else Err(AttributeError)
    }
  }

  // ---------------------------------------------------------------- episodes

  /**
   * Every column but `temp` is NOT NULL; UNIQUE on `(mal_id, episode_number)`,
   * `(anime_id, episode_number)`, `watch_link`, `download_link_hd` and
   * `download_link_sd`.
   */
  predicate EpisodeRowOk(e: Episode) {
    Stored(e.animeId) != SqlNull && Stored(e.malId) != SqlNull && Stored(e.episodeNumber) != SqlNull
    && Stored(e.watchLink) != SqlNull && Stored(e.downloadLinkHd) != SqlNull && Stored(e.downloadLinkSd) != SqlNull
  }

  predicate EpisodeConflict(a: Episode, b: Episode) {
    (Clash(a.malId, b.malId) && Clash(a.episodeNumber, b.episodeNumber))
    || (Clash(a.animeId, b.animeId) && Clash(a.episodeNumber, b.episodeNumber))
    || Clash(a.watchLink, b.watchLink)
    || Clash(a.downloadLinkHd, b.downloadLinkHd)
    || Clash(a.downloadLinkSd, b.downloadLinkSd)
  }

  predicate EpisodeAccepted(t: Table<Episode>, e: Episode) {
    EpisodeRowOk(e) && Admits(t, EpisodeConflict, e)
  }

  ghost predicate EpisodesValid(t: Table<Episode>) {
    WellNumbered(t) && NoConflicts(t, EpisodeConflict) && forall id | id in t.rows :: EpisodeRowOk(t.rows[id])
  }

  /** `WHERE mal_id = ? AND episode_number = ?` */
  function EpisodeKey(t: Table<Episode>, malId: PyValue, episodeNumber: PyValue): int
    requires WellNumbered(t)
  {
    Lookup(t, (x: Episode) => Clash(x.malId, malId) && Clash(x.episodeNumber, episodeNumber))
  }

  /** Round trip: after a successful insert, the lookup on `(mal_id, episode_number)` finds the id the insert returned. */
  lemma {:induction false} EpisodeInsertThenLookup(t: Table<Episode>, e: Episode)
    requires EpisodesValid(t) && EpisodeAccepted(t, e)
    ensures EpisodeKey(Append(t, e), e.malId, e.episodeNumber) == t.nextId
  {
    forall k | k in t.rows
      ensures !(Clash(t.rows[k].malId, e.malId) && Clash(t.rows[k].episodeNumber, e.episodeNumber))
    {
      assert !EpisodeConflict(t.rows[k], e);
    }
    LookupFindsAppended(t, e, (x: Episode) => Clash(x.malId, e.malId) && Clash(x.episodeNumber, e.episodeNumber));
  }

  class SQLiteEpisodes {
    var table: Table<Episode>

    ghost predicate Valid()
      reads this
    {
      EpisodesValid(table)
    }

    constructor ()
      ensures Valid() && table == EmptyTable()
    {
      table := EmptyTable();
    }

    /** `insert_data(episode)`: a fresh id, or BAD_ID and no change when a constraint rejects the row. */
    method InsertData(episode: Episode) returns (id: int)
      requires Valid()
      modifies this
      ensures Valid()
      ensures id != BAD_ID <==> EpisodeAccepted(old(table), episode)
      ensures id != BAD_ID ==> id == old(table).nextId && id !in old(table).rows && table == Append(old(table), episode)
      ensures id != BAD_ID ==> GetPrimaryKey(episode.malId, episode.episodeNumber) == id && GetById(id) == Found(episode)
      ensures id == BAD_ID ==> table == old(table)
    {
      if EpisodeAccepted(table, episode) {
        AppendKeepsInvariant(table, EpisodeConflict, episode);
        EpisodeInsertThenLookup(table, episode);
        id := table.nextId;
        table := Append(table, episode);
      } else {
        id := BAD_ID;
      }
    }

    /** `get_primary_key(mal_id, episode_number)`: the id of the one matching row, or BAD_ID. */
    function GetPrimaryKey(malId: PyValue, episodeNumber: PyValue): (id: int)
      reads this
      requires Valid()
      ensures id == BAD_ID <==> forall k | k in table.rows ::
        !(Clash(table.rows[k].malId, malId) && Clash(table.rows[k].episodeNumber, episodeNumber))
      ensures id != BAD_ID ==> id in table.rows && Clash(table.rows[id].malId, malId) && Clash(table.rows[id].episodeNumber, episodeNumber)
      ensures forall k | k in table.rows && Clash(table.rows[k].malId, malId) && Clash(table.rows[k].episodeNumber, episodeNumber) :: k == id
    {
      EpisodeKey(table, malId, episodeNumber)
    }

    /** `get_by_id(episode_id)` as it was evidently meant. */
    function GetById(episodeId: int): (r: Fetched<Episode>)
      reads this
      ensures r.Found? <==> episodeId in table.rows
      ensures r.Found? ==> r.value == table.rows[episodeId]
    {
      Get(table, episodeId)
    }

    /**
     * `get_by_id(episode_id)` as written: `Episode.from_dict` rejects the `episode_id` column with
     * TypeError, and a missing id raises AttributeError at the undefined `values.NOT_FOUND`.
     */
    function GetByIdAsWritten(episodeId: int): (r: Result<Episode, PyError>)
      reads this
      ensures episodeId in table.rows ==> r == Err(TypeError)
      ensures episodeId !in table.rows ==> r == Err(AttributeError)
    {
      if episodeId in table.rows then
        var row := EpisodeToDict(table.rows[episodeId])["episode_id" := PyInt(episodeId)];
        assert "episode_id" in row.Keys && "episode_id" !in EpisodeParams;
        Raised(EpisodeFromDict(row))
      else Err(AttributeError)
    }
  }

  // ---------------------------------------------------------------- platforms

  /** `platform_name TEXT UNIQUE NOT NULL` */
  predicate PlatformRowOk(p: Platform) {
    Stored(p.platformName) != SqlNull
  }

  predicate PlatformConflict(a: Platform, b: Platform) {
    Clash(a.platformName, b.platformName)
  }

  predicate PlatformAccepted(t: Table<Platform>, p: Platform) {
    PlatformRowOk(p) && Admits(t, PlatformConflict, p)
  }

  ghost predicate PlatformsValid(t: Table<Platform>) {
    WellNumbered(t) && NoConflicts(t, PlatformConflict) && forall id | id in t.rows :: PlatformRowOk(t.rows[id])
  }

  /** `WHERE platform_name = ?` */
  function PlatformKey(t: Table<Platform>, platformName: PyValue): int
    requires WellNumbered(t)
  {
    Lookup(t, (x: Platform) => Clash(x.platformName, platformName))
  }

  /** Round trip: after a successful insert, the lookup on `platform_name` finds the id the insert returned. */
  lemma {:induction false} PlatformInsertThenLookup(t: Table<Platform>, p: Platform)
    requires PlatformsValid(t) && PlatformAccepted(t, p)
    ensures PlatformKey(Append(t, p), p.platformName) == t.nextId
  {
    forall k | k in t.rows
      ensures !Clash(t.rows[k].platformName, p.platformName)
    {
      assert !PlatformConflict(t.rows[k], p);
    }
    LookupFindsAppended(t, p, (x: Platform) => Clash(x.platformName, p.platformName));
  }

  class SQLitePlatforms {
    var table: Table<Platform>

    ghost predicate Valid()
      reads this
    {
      PlatformsValid(table)
    }

    constructor ()
      ensures Valid() && table == EmptyTable()
    {
      table := EmptyTable();
    }

    /** `insert_data(platform)`: a fresh id, or BAD_ID and no change for a NULL or repeated name. */
    method InsertData(platform: Platform) returns (id: int)
      requires Valid()
      modifies this
      ensures Valid()
      ensures id != BAD_ID <==> PlatformAccepted(old(table), platform)
      ensures id != BAD_ID ==> id == old(table).nextId && id !in old(table).rows && table == Append(old(table), platform)
      ensures id != BAD_ID ==> GetPrimaryKey(platform.platformName) == id && GetById(id) == Found(platform)
      ensures id == BAD_ID ==> table == old(table)
    {
      if PlatformAccepted(table, platform) {
        AppendKeepsInvariant(table, PlatformConflict, platform);
        PlatformInsertThenLookup(table, platform);
        id := table.nextId;
        table := Append(table, platform);
      } else {
        id := BAD_ID;
      }
    }

    /** `get_primary_key(platform_name)`: the id of the platform with that name, or BAD_ID. */
    function GetPrimaryKey(platformName: PyValue): (id: int)
      reads this
      requires Valid()
      ensures id == BAD_ID <==> forall k | k in table.rows :: !Clash(table.rows[k].platformName, platformName)
      ensures id != BAD_ID ==> id in table.rows && Clash(table.rows[id].platformName, platformName)
      ensures forall k | k in table.rows && Clash(table.rows[k].platformName, platformName) :: k == id
    {
      PlatformKey(table, platformName)
    }

    /** `get_by_id(platform_id)` as it was evidently meant. */
    function GetById(platformId: int): (r: Fetched<Platform>)
      reads this
      ensures r.Found? <==> platformId in table.rows
      ensures r.Found? ==> r.value == table.rows[platformId]
    {
      Get(table, platformId)
    }

    /**
     * `get_by_id(platform_id)` as written: `Platform.from_dict` rejects the `platform_id` column with
     * TypeError, and a missing id raises AttributeError at the undefined `values.NOT_FOUND`.
     */
    function GetByIdAsWritten(platformId: int): (r: Result<Platform, PyError>)
      reads this
      ensures platformId in table.rows ==> r == Err(TypeError)
      ensures platformId !in table.rows ==> r == Err(AttributeError)
    {
      if platformId in table.rows then
        var row := PlatformToDict(table.rows[platformId])["platform_id" := PyInt(platformId)];
        assert "platform_id" in row.Keys && "platform_id" !in PlatformParams;
        Raised(PlatformFromDict(row))
      else Err(AttributeError)
    }
  }

  // ---------------------------------------------------------------- channels

  /**
   * `platform_id INTEGER NOT NULL` and the CHECK that at least one of
   * `chat_name` and `chat_id` is not NULL.
   */
  predicate ChannelRowOk(c: Channel) {
    Stored(c.platformId) != SqlNull && (Stored(c.chatName) != SqlNull || Stored(c.chatId) != SqlNull)
  }

  /** UNIQUE `(platform_id, chat_name)` and `(platform_id, chat_id)` */
  predicate ChannelConflict(a: Channel, b: Channel) {
    (Clash(a.platformId, b.platformId) && Clash(a.chatName, b.chatName))
    || (Clash(a.platformId, b.platformId) && Clash(a.chatId, b.chatId))
  }

  predicate ChannelAccepted(t: Table<Channel>, c: Channel) {
    ChannelRowOk(c) && Admits(t, ChannelConflict, c)
  }

  ghost predicate ChannelsValid(t: Table<Channel>) {
    WellNumbered(t) && NoConflicts(t, ChannelConflict) && forall id | id in t.rows :: ChannelRowOk(t.rows[id])
  }

  /** `WHERE platform_id = ? AND chat_id = ?`: the chat name plays no part. */
  function ChannelKey(t: Table<Channel>, platformId: PyValue, chatId: PyValue): int
    requires WellNumbered(t)
  {
    Lookup(t, (x: Channel) => Clash(x.platformId, platformId) && Clash(x.chatId, chatId))
  }

  /**
   * Round trip: after a successful insert, the lookup on `(platform_id,
   * chat_id)` finds the new id, except for a channel stored by name only,
   * which that lookup can never find.
   */
  lemma {:induction false} ChannelInsertThenLookup(t: Table<Channel>, c: Channel)
    requires ChannelsValid(t) && ChannelAccepted(t, c)
    ensures ChannelKey(Append(t, c), c.platformId, c.chatId) == if c.chatId == PyNone then BAD_ID else t.nextId
  {
    if c.chatId == PyNone {
      var t' := Append(t, c);
      assert forall k | k in t'.rows :: !Clash(t'.rows[k].chatId, c.chatId);
    } else {
      forall k | k in t.rows
        ensures !(Clash(t.rows[k].platformId, c.platformId) && Clash(t.rows[k].chatId, c.chatId))
      {
        assert !ChannelConflict(t.rows[k], c);
      }
      LookupFindsAppended(t, c, (x: Channel) => Clash(x.platformId, c.platformId) && Clash(x.chatId, c.chatId));
    }
  }

  class SQLiteChannels {
    var table: Table<Channel>

    ghost predicate Valid()
      reads this
    {
      ChannelsValid(table)
    }

    constructor ()
      ensures Valid() && table == EmptyTable()
    {
      table := EmptyTable();
    }

    /**
     * `insert_data(channel)` as it was evidently meant (its query a string,
     * not a one-element tuple): a fresh id, or BAD_ID and no change.
     */
    method InsertData(channel: Channel) returns (id: int)
      requires Valid()
      modifies this
      ensures Valid()
      ensures id != BAD_ID <==> ChannelAccepted(old(table), channel)
      ensures id != BAD_ID ==> id == old(table).nextId && id !in old(table).rows && table == Append(old(table), channel)
      ensures id != BAD_ID ==> GetById(id) == Found(channel)
      ensures id != BAD_ID ==> GetPrimaryKey(channel.platformId, channel.chatId) == if channel.chatId == PyNone then BAD_ID else id
      ensures id == BAD_ID ==> table == old(table)
    {
      if ChannelAccepted(table, channel) {
        AppendKeepsInvariant(table, ChannelConflict, channel);
        ChannelInsertThenLookup(table, channel);
        id := table.nextId;
        table := Append(table, channel);
      } else {
        id := BAD_ID;
      }
    }

    /**
     * `insert_data(channel)` as written: the trailing comma makes the query a
     * tuple, `cursor.execute` raises TypeError (not an `sqlite3.Error`, so
     * nothing catches it) and no row is stored.
     */
    method InsertDataAsWritten(channel: Channel) returns (r: Result<int, PyError>)
      ensures r == Err(TypeError)
    {
      r := Err(TypeError);
    }

    /** `get_primary_key(platform_id, chat_id)`: the id of the one matching channel, or BAD_ID. */
    function GetPrimaryKey(platformId: PyValue, chatId: PyValue): (id: int)
      reads this
      requires Valid()
      ensures id == BAD_ID <==> forall k | k in table.rows ::
        !(Clash(table.rows[k].platformId, platformId) && Clash(table.rows[k].chatId, chatId))
      ensures id != BAD_ID ==> id in table.rows && Clash(table.rows[id].platformId, platformId) && Clash(table.rows[id].chatId, chatId)
      ensures forall k | k in table.rows && Clash(table.rows[k].platformId, platformId) && Clash(table.rows[k].chatId, chatId) :: k == id
      ensures chatId == PyNone ==> id == BAD_ID
    {
      ChannelKey(table, platformId, chatId)
    }

    /** `get_by_id(channel_id)` as it was evidently meant. */
    function GetById(channelId: int): (r: Fetched<Channel>)
      reads this
      ensures r.Found? <==> channelId in table.rows
      ensures r.Found? ==> r.value == table.rows[channelId]
    {
      Get(table, channelId)
    }

    /**
     * `get_by_id(channel_id)` as written: `Channel.from_dict` rejects the `channel_id` column with
     * TypeError, and a missing id raises AttributeError at the undefined `values.NOT_FOUND`.
     */
    function GetByIdAsWritten(channelId: int): (r: Result<Channel, PyError>)
      reads this
      ensures channelId in table.rows ==> r == Err(TypeError)
      ensures channelId !in table.rows ==> r == Err(AttributeError)
    {
      if channelId in table.rows then
        var row := ChannelToDict(table.rows[channelId])["channel_id" := PyInt(channelId)];
        assert "channel_id" in row.Keys && "channel_id" !in ChannelParams;
        Raised(ChannelFromDict(row))
      else Err(AttributeError)
    }
  }

  // ---------------------------------------------------------------- msgs_an

  /** All three columns NOT NULL. */
  predicate MessageAnimeRowOk(m: MessageAnime) {
    Stored(m.animeId) != SqlNull && Stored(m.messageId) != SqlNull && Stored(m.channelId) != SqlNull
  }

  /** UNIQUE `(anime_id, channel_id)`: at most one publication record per anime and channel. */
  predicate MessageAnimeConflict(a: MessageAnime, b: MessageAnime) {
    Clash(a.animeId, b.animeId) && Clash(a.channelId, b.channelId)
  }

  predicate MessageAnimeAccepted(t: Table<MessageAnime>, m: MessageAnime) {
    MessageAnimeRowOk(m) && Admits(t, MessageAnimeConflict, m)
  }

  ghost predicate MsgsAnValid(t: Table<MessageAnime>) {
    WellNumbered(t) && NoConflicts(t, MessageAnimeConflict) && forall id | id in t.rows :: MessageAnimeRowOk(t.rows[id])
  }

  /** `WHERE anime_id = ? AND channel_id = ?` */
  function MessageAnimeKey(t: Table<MessageAnime>, animeId: PyValue, channelId: PyValue): int
    requires WellNumbered(t)
  {
    Lookup(t, (x: MessageAnime) => Clash(x.animeId, animeId) && Clash(x.channelId, channelId))
  }

  /** Round trip for `msgs_an`. */
  lemma {:induction false} MessageAnimeInsertThenLookup(t: Table<MessageAnime>, m: MessageAnime)
    requires MsgsAnValid(t) && MessageAnimeAccepted(t, m)
    ensures MessageAnimeKey(Append(t, m), m.animeId, m.channelId) == t.nextId
  {
    forall k | k in t.rows
      ensures !(Clash(t.rows[k].animeId, m.animeId) && Clash(t.rows[k].channelId, m.channelId))
    {
      assert !MessageAnimeConflict(t.rows[k], m);
    }
    LookupFindsAppended(t, m, (x: MessageAnime) => Clash(x.animeId, m.animeId) && Clash(x.channelId, m.channelId));
  }

  class SQLiteMsgsAn {
    var table: Table<MessageAnime>

    ghost predicate Valid()
      reads this
    {
      MsgsAnValid(table)
    }

    constructor ()
      ensures Valid() && table == EmptyTable()
    {
      table := EmptyTable();
    }

    /** `insert_data(msg_an)`: a fresh id, or BAD_ID and no change when the anime is already recorded for that channel. */
    method InsertData(msgAn: MessageAnime) returns (id: int)
      requires Valid()
      modifies this
      ensures Valid()
      ensures id != BAD_ID <==> MessageAnimeAccepted(old(table), msgAn)
      ensures id != BAD_ID ==> id == old(table).nextId && id !in old(table).rows && table == Append(old(table), msgAn)
      ensures id != BAD_ID ==> GetPrimaryKey(msgAn.animeId, msgAn.channelId) == id && GetById(id) == Found(msgAn)
      ensures id == BAD_ID ==> table == old(table)
    {
      if MessageAnimeAccepted(table, msgAn) {
        AppendKeepsInvariant(table, MessageAnimeConflict, msgAn);
        MessageAnimeInsertThenLookup(table, msgAn);
        id := table.nextId;
        table := Append(table, msgAn);
      } else {
        id := BAD_ID;
      }
    }

    /** `get_primary_key(anime_id, channel_id)`: the id of the one publication record, or BAD_ID. */
    function GetPrimaryKey(animeId: PyValue, channelId: PyValue): (id: int)
      reads this
      requires Valid()
      ensures id == BAD_ID <==> forall k | k in table.rows ::
        !(Clash(table.rows[k].animeId, animeId) && Clash(table.rows[k].channelId, channelId))
      ensures id != BAD_ID ==> id in table.rows && Clash(table.rows[id].animeId, animeId) && Clash(table.rows[id].channelId, channelId)
      ensures forall k | k in table.rows && Clash(table.rows[k].animeId, animeId) && Clash(table.rows[k].channelId, channelId) :: k == id
    {
      MessageAnimeKey(table, animeId, channelId)
    }

    /** `get_by_id(msg_an_id)` as it was evidently meant. */
    function GetById(msgAnId: int): (r: Fetched<MessageAnime>)
      reads this
      ensures r.Found? <==> msgAnId in table.rows
      ensures r.Found? ==> r.value == table.rows[msgAnId]
    {
      Get(table, msgAnId)
    }

    /**
     * `get_by_id(msg_an_id)` as written: it queries table `msg_an`, column
     * `msgs_an_id`, neither of which exists, so SQLite raises
     * OperationalError whatever the id.
     */
    function GetByIdAsWritten(msgAnId: int): (r: Result<MessageAnime, PyError>)
      ensures r.Err?
    {
      Err(OperationalError)
    }
  }

  // ---------------------------------------------------------------- msgs_ep

  predicate MessageEpisodeRowOk(m: MessageEpisode) {
    Stored(m.episodeId) != SqlNull && Stored(m.messageId) != SqlNull && Stored(m.channelId) != SqlNull
  }

  /** UNIQUE `(episode_id, channel_id)` */
  predicate MessageEpisodeConflict(a: MessageEpisode, b: MessageEpisode) {
    Clash(a.episodeId, b.episodeId) && Clash(a.channelId, b.channelId)
  }

  predicate MessageEpisodeAccepted(t: Table<MessageEpisode>, m: MessageEpisode) {
    MessageEpisodeRowOk(m) && Admits(t, MessageEpisodeConflict, m)
  }

  ghost predicate MsgsEpValid(t: Table<MessageEpisode>) {
    WellNumbered(t) && NoConflicts(t, MessageEpisodeConflict) && forall id | id in t.rows :: MessageEpisodeRowOk(t.rows[id])
  }

  /** `msgs_ep WHERE episode_id = ? AND channel_id = ?` */
  function MessageEpisodeKey(t: Table<MessageEpisode>, episodeId: PyValue, channelId: PyValue): int
    requires WellNumbered(t)
  {
    Lookup(t, (x: MessageEpisode) => Clash(x.episodeId, episodeId) && Clash(x.channelId, channelId))
  }

  /** Round trip for `msgs_ep` under the corrected lookup. */
  lemma {:induction false} MessageEpisodeInsertThenLookup(t: Table<MessageEpisode>, m: MessageEpisode)
    requires MsgsEpValid(t) && MessageEpisodeAccepted(t, m)
    ensures MessageEpisodeKey(Append(t, m), m.episodeId, m.channelId) == t.nextId
  {
    forall k | k in t.rows
      ensures !(Clash(t.rows[k].episodeId, m.episodeId) && Clash(t.rows[k].channelId, m.channelId))
    {
      assert !MessageEpisodeConflict(t.rows[k], m);
    }
    LookupFindsAppended(t, m, (x: MessageEpisode) => Clash(x.episodeId, m.episodeId) && Clash(x.channelId, m.channelId));
  }

  class SQLiteMsgsEp {
    var table: Table<MessageEpisode>

    ghost predicate Valid()
      reads this
    {
      MsgsEpValid(table)
    }

    constructor ()
      ensures Valid() && table == EmptyTable()
    {
      table := EmptyTable();
    }

    /** `insert_data(msg_ep)`: a fresh id, or BAD_ID and no change when the episode is already recorded for that channel. */
    method InsertData(msgEp: MessageEpisode) returns (id: int)
      requires Valid()
      modifies this
      ensures Valid()
      ensures id != BAD_ID <==> MessageEpisodeAccepted(old(table), msgEp)
      ensures id != BAD_ID ==> id == old(table).nextId && id !in old(table).rows && table == Append(old(table), msgEp)
      ensures id != BAD_ID ==> GetPrimaryKey(msgEp.episodeId, msgEp.channelId) == id && GetById(id) == Found(msgEp)
      ensures id == BAD_ID ==> table == old(table)
    {
      if MessageEpisodeAccepted(table, msgEp) {
        AppendKeepsInvariant(table, MessageEpisodeConflict, msgEp);
        MessageEpisodeInsertThenLookup(table, msgEp);
        id := table.nextId;
        table := Append(table, msgEp);
      } else {
        id := BAD_ID;
      }
    }

    /** `get_primary_key(episode_id, channel_id)` as it was evidently meant: a lookup in `msgs_ep`. */
    function GetPrimaryKey(episodeId: PyValue, channelId: PyValue): (id: int)
      reads this
      requires Valid()
      ensures id == BAD_ID <==> forall k | k in table.rows ::
        !(Clash(table.rows[k].episodeId, episodeId) && Clash(table.rows[k].channelId, channelId))
      ensures id != BAD_ID ==> id in table.rows && Clash(table.rows[id].episodeId, episodeId) && Clash(table.rows[id].channelId, channelId)
      ensures forall k | k in table.rows && Clash(table.rows[k].episodeId, episodeId) && Clash(table.rows[k].channelId, channelId) :: k == id
    {
      MessageEpisodeKey(table, episodeId, channelId)
    }

    /**
     * `get_primary_key(episode_id, channel_id)` as written: it queries
     * `msgs_ge` by `message_id`. The database manager's six-table schema has
     * no `msgs_ge` (only the separate `SqliteDB.create_tables`, which is not
     * part of this model, creates one), so SQLite raises OperationalError, and
     * a stored `msgs_ep` row is never found.
     */
    function GetPrimaryKeyAsWritten(episodeId: PyValue, channelId: PyValue): (r: Result<int, PyError>)
      ensures r.Err?
    {
      Err(OperationalError)
    }

    /** `get_by_id(msg_ep_id)` as it was evidently meant. */
    function GetById(msgEpId: int): (r: Fetched<MessageEpisode>)
      reads this
      ensures r.Found? <==> msgEpId in table.rows
      ensures r.Found? ==> r.value == table.rows[msgEpId]
    {
      Get(table, msgEpId)
    }

    /**
     * `get_by_id(msg_ep_id)` as written: `from_dict` rejects the `msg_ep_id` column with
     * TypeError, and a missing id raises AttributeError at the undefined `values.NOT_FOUND`.
     */
    function GetByIdAsWritten(msgEpId: int): (r: Result<MessageEpisode, PyError>)
      reads this
      ensures msgEpId in table.rows ==> r == Err(TypeError)
      ensures msgEpId !in table.rows ==> r == Err(AttributeError)
    {
      if msgEpId in table.rows then
        var row := MessageEpisodeToDict(table.rows[msgEpId])["msg_ep_id" := PyInt(msgEpId)];
        assert "msg_ep_id" in row.Keys && "msg_ep_id" !in MessageEpisodeParams;
        Raised(MessageEpisodeFromDict(row))
      else Err(AttributeError)
    }
  }

  /** A stored `msgs_ep` row that the as-written lookup cannot return, while the corrected one does. */
  lemma MsgsEpLookupAsWrittenMissesStoredRow(store: SQLiteMsgsEp, m: MessageEpisode)
    requires store.Valid() && MessageEpisodeAccepted(store.table, m)
    ensures store.GetPrimaryKeyAsWritten(m.episodeId, m.channelId) != Ok(store.table.nextId)
    ensures MessageEpisodeKey(Append(store.table, m), m.episodeId, m.channelId) == store.table.nextId
  {
    MessageEpisodeInsertThenLookup(store.table, m);
  }

  // ---------------------------------------------------------------- the database

  /**
   * The one SQLite database all table classes share (`SQLiteDatabaseManager`
   * after `create_tables`): six tables and no `msgs_ge`.
   */
  class SQLiteDatabaseManager {
    const animes: SQLiteAnimes
    const episodes: SQLiteEpisodes
    const platforms: SQLitePlatforms
    const channels: SQLiteChannels
    const msgsAn: SQLiteMsgsAn
    const msgsEp: SQLiteMsgsEp

    ghost predicate Valid()
      reads animes, episodes, platforms, channels, msgsAn, msgsEp
    {
      animes.Valid() && episodes.Valid() && platforms.Valid() && channels.Valid() && msgsAn.Valid() && msgsEp.Valid()
    }

    /** `SQLiteDatabaseManager(path).create_tables()` on a new file. */
    constructor ()
      ensures Valid()
      ensures fresh(animes) && fresh(episodes) && fresh(platforms) && fresh(channels) && fresh(msgsAn) && fresh(msgsEp)
      ensures animes.table.rows == map[] && episodes.table.rows == map[] && platforms.table.rows == map[]
      ensures channels.table.rows == map[] && msgsAn.table.rows == map[] && msgsEp.table.rows == map[]
    {
      animes := new SQLiteAnimes();
      episodes := new SQLiteEpisodes();
      platforms := new SQLitePlatforms();
      channels := new SQLiteChannels();
      msgsAn := new SQLiteMsgsAn();
      msgsEp := new SQLiteMsgsEp();
    }
  }
}
