/**
 * The record classes of db_structs.py. Each class is a plain attribute bag
 * built by keyword arguments; `from_dict(d)` is `cls(**d)` and `to_dict()` is
 * the instance's `__dict__`. A dict is modelled as a map from attribute name
 * to Python value; `cls(**d)` raises TypeError when `d` names a parameter the
 * constructor does not have, or lacks one it requires.
 */
module DbStructs {
  import opened Wrappers
  import opened PyValues

  type Dict = map<string, PyValue>

  /** The TypeError `cls(**data)` raises; an unexpected keyword is reported before a missing one. */
  datatype ConstructorError = UnexpectedKeyword | MissingArgument

  /** How Python binds `**d` to a signature with parameters `params`, of which `required` have no default. */
  function Bind(d: Dict, params: set<string>, required: set<string>): (r: Option<ConstructorError>)
    ensures r == None <==> d.Keys <= params && required <= d.Keys
  {
    if !(d.Keys <= params) then Some(UnexpectedKeyword)
    else if !(required <= d.Keys) then Some(MissingArgument)
    else None
  }

  /** The argument bound to parameter `name`: the dict's entry, or the parameter's default. */
  function Arg(d: Dict, name: string, default: PyValue): PyValue {
    if name in d then d[name] else default
  }

  /** Every parameter in `params` mapped to `None`: what an omitted optional argument becomes. */
  function NoneFor(params: set<string>): (m: Dict)
    ensures m.Keys == params && forall k :: k in m ==> m[k] == PyNone
  {
    map k | k in params :: PyNone
  }

  // ---------------------------------------------------------------- Anime

  const AnimeParams: set<string> := {
    "mal_id", "title", "title_english", "title_japanese", "type", "episodes", "status", "airing",
    "aired", "rating", "duration", "season", "year", "studios", "producers", "synopsis"
  }
  const AnimeRequired: set<string> := {"mal_id", "title"}

  datatype Anime = Anime(
    malId: PyValue, title: PyValue, titleEnglish: PyValue, titleJapanese: PyValue,
    animeType: PyValue, episodes: PyValue, status: PyValue, airing: PyValue, aired: PyValue,
    rating: PyValue, duration: PyValue, season: PyValue, year: PyValue, studios: PyValue,
    producers: PyValue, synopsis: PyValue)

  /** `Anime(mal_id, title)`: only the two required arguments; every other attribute is None. */
  function NewAnime(malId: PyValue, title: PyValue): Anime
  {
    Anime(malId, title, PyNone, PyNone, PyNone, PyNone, PyNone, PyNone, PyNone, PyNone,
          PyNone, PyNone, PyNone, PyNone, PyNone, PyNone)
  }

  /** `anime.to_dict()` of an instance that carries only its constructor attributes. */
  function AnimeToDict(a: Anime): (d: Dict)
    ensures d.Keys == AnimeParams
  {
    map["mal_id" := a.malId, "title" := a.title, "title_english" := a.titleEnglish,
        "title_japanese" := a.titleJapanese, "type" := a.animeType, "episodes" := a.episodes,
        "status" := a.status, "airing" := a.airing, "aired" := a.aired, "rating" := a.rating,
        "duration" := a.duration, "season" := a.season, "year" := a.year,
        "studios" := a.studios, "producers" := a.producers, "synopsis" := a.synopsis]
  }

  /**
   * `Anime.from_dict(d)`: succeeds exactly when `d` names only constructor
   * parameters and includes `mal_id` and `title` (AnimeFromDictValues says
   * what the other attributes are).
   */
  function AnimeFromDict(d: Dict): (r: Result<Anime, ConstructorError>)
    ensures r.Ok? <==> d.Keys <= AnimeParams && AnimeRequired <= d.Keys
    ensures r.Ok? ==> r.value.malId == d["mal_id"] && r.value.title == d["title"]
  {
    match Bind(d, AnimeParams, AnimeRequired)
    case Some(e) => Err(e)
    case None =>
      Ok(Anime(d["mal_id"], d["title"], Arg(d, "title_english", PyNone),
               Arg(d, "title_japanese", PyNone), Arg(d, "type", PyNone),
               Arg(d, "episodes", PyNone), Arg(d, "status", PyNone), Arg(d, "airing", PyNone),
               Arg(d, "aired", PyNone), Arg(d, "rating", PyNone), Arg(d, "duration", PyNone),
               Arg(d, "season", PyNone), Arg(d, "year", PyNone), Arg(d, "studios", PyNone),
               Arg(d, "producers", PyNone), Arg(d, "synopsis", PyNone)))
  }

  /** Every attribute `Anime.from_dict(d)` sets is the dict's value, or None when the dict leaves it out. */
  lemma AnimeFromDictValues(d: Dict)
    ensures AnimeFromDict(d).Ok? ==> AnimeToDict(AnimeFromDict(d).value) == NoneFor(AnimeParams) + d
  {
    if AnimeFromDict(d).Ok? {
      var a := AnimeOfArgs(d);
      assert AnimeFromDict(d).value == a;
      AnimeOfArgsValues(d);
      BoundDefaults(d, AnimeParams, AnimeToDict(a));
    }
  }

  /** The anime every parameter of which is bound to the dict's value or to None. */
  function AnimeOfArgs(d: Dict): Anime {
    Anime(Arg(d, "mal_id", PyNone), Arg(d, "title", PyNone), Arg(d, "title_english", PyNone),
          Arg(d, "title_japanese", PyNone), Arg(d, "type", PyNone), Arg(d, "episodes", PyNone),
          Arg(d, "status", PyNone), Arg(d, "airing", PyNone), Arg(d, "aired", PyNone),
          Arg(d, "rating", PyNone), Arg(d, "duration", PyNone), Arg(d, "season", PyNone),
          Arg(d, "year", PyNone), Arg(d, "studios", PyNone), Arg(d, "producers", PyNone),
          Arg(d, "synopsis", PyNone))
  }

  lemma AnimeOfArgsValues(d: Dict)
    ensures forall k | k in AnimeParams :: AnimeToDict(AnimeOfArgs(d))[k] == Arg(d, k, PyNone)
  {
    AnimeToDictFields(AnimeOfArgs(d));
  }

  /** `to_dict()` holds each attribute under its parameter's name. */
  lemma AnimeToDictFields(a: Anime)
    ensures var m := AnimeToDict(a);
      && m["mal_id"] == a.malId
      && m["title"] == a.title
      && m["title_english"] == a.titleEnglish
      && m["title_japanese"] == a.titleJapanese
      && m["type"] == a.animeType
      && m["episodes"] == a.episodes
      && m["status"] == a.status
      && m["airing"] == a.airing
      && m["aired"] == a.aired
      && m["rating"] == a.rating
      && m["duration"] == a.duration
      && m["season"] == a.season
      && m["year"] == a.year
      && m["studios"] == a.studios
      && m["producers"] == a.producers
      && m["synopsis"] == a.synopsis
  {
  }

  /** A dict whose every parameter holds the bound argument is the defaults overridden by the arguments. */
  lemma BoundDefaults(d: Dict, params: set<string>, m: Dict)
    requires d.Keys <= params && m.Keys == params
    requires forall k | k in params :: m[k] == Arg(d, k, PyNone)
    ensures m == NoneFor(params) + d
  {
  }

  /** Only `mal_id` and `title` are required: from a dict of just those two, every other attribute is None. */
  lemma AnimeDefaults(malId: PyValue, title: PyValue)
    ensures AnimeFromDict(map["mal_id" := malId, "title" := title]) == Ok(NewAnime(malId, title))
  {
  }

  /** `Anime.from_dict(a.to_dict())` rebuilds `a`. */
  lemma AnimeRoundTrip(a: Anime)
    ensures AnimeFromDict(AnimeToDict(a)) == Ok(a)
  {
    AnimeToDictFirst(a);
    AnimeToDictSecond(a);
  }

  lemma AnimeToDictFirst(a: Anime)
    ensures var d := AnimeToDict(a);
      d["mal_id"] == a.malId && d["title"] == a.title && d["title_english"] == a.titleEnglish
      && d["title_japanese"] == a.titleJapanese && d["type"] == a.animeType && d["episodes"] == a.episodes
      && d["status"] == a.status && d["airing"] == a.airing
  {
  }

  lemma AnimeToDictSecond(a: Anime)
    ensures var d := AnimeToDict(a);
      d["aired"] == a.aired && d["rating"] == a.rating && d["duration"] == a.duration
      && d["season"] == a.season && d["year"] == a.year && d["studios"] == a.studios
      && d["producers"] == a.producers && d["synopsis"] == a.synopsis
  {
  }

  /**
   * Once an attribute outside the constructor's parameters is attached to an
   * instance (as `anime.anime_id = ...` does), `to_dict` carries it and
   * `from_dict` of that dict raises TypeError.
   */
  lemma AnimeExtraAttributeBreaksRoundTrip(a: Anime, name: string, v: PyValue)
    requires name !in AnimeParams
    ensures AnimeFromDict(AnimeToDict(a)[name := v]) == Err(UnexpectedKeyword)
  {
  }

  // ---------------------------------------------------------------- Episode

  const EpisodeParams: set<string> := {
    "anime_id", "mal_id", "episode_number", "watch_link", "download_link_hd", "download_link_sd", "temp"
  }
  const EpisodeRequired: set<string> := EpisodeParams - {"temp"}

  /** An episode; `temp` is 0 or 1 by convention (1: the links point at temporary hosting). */
  datatype Episode = Episode(
    animeId: PyValue, malId: PyValue, episodeNumber: PyValue, watchLink: PyValue,
    downloadLinkHd: PyValue, downloadLinkSd: PyValue, temp: PyValue)

  function EpisodeToDict(e: Episode): (d: Dict)
    ensures d.Keys == EpisodeParams
  {
    map["anime_id" := e.animeId, "mal_id" := e.malId, "episode_number" := e.episodeNumber,
        "watch_link" := e.watchLink, "download_link_hd" := e.downloadLinkHd,
        "download_link_sd" := e.downloadLinkSd, "temp" := e.temp]
  }

  /** `Episode.from_dict(d)`: every field but `temp` is required, and `temp` defaults to 0. */
  function EpisodeFromDict(d: Dict): (r: Result<Episode, ConstructorError>)
    ensures r.Ok? <==> d.Keys <= EpisodeParams && EpisodeRequired <= d.Keys
    ensures r.Ok? ==> EpisodeToDict(r.value) == map["temp" := PyInt(0)] + d
  {
    match Bind(d, EpisodeParams, EpisodeRequired)
    case Some(e) => Err(e)
    case None =>
      Ok(Episode(d["anime_id"], d["mal_id"], d["episode_number"], d["watch_link"],
                 d["download_link_hd"], d["download_link_sd"], Arg(d, "temp", PyInt(0))))
  }

  lemma EpisodeRoundTrip(e: Episode)
    ensures EpisodeFromDict(EpisodeToDict(e)) == Ok(e)
  {
  }

  // ---------------------------------------------------------------- Platform

  const PlatformParams: set<string> := {"platform_name"}

  datatype Platform = Platform(platformName: PyValue)

  function PlatformToDict(p: Platform): (d: Dict)
    ensures d.Keys == PlatformParams
  {
    map["platform_name" := p.platformName]
  }

  function PlatformFromDict(d: Dict): (r: Result<Platform, ConstructorError>)
    ensures r.Ok? <==> d.Keys == PlatformParams
    ensures r.Ok? ==> PlatformToDict(r.value) == d
  {
    match Bind(d, PlatformParams, PlatformParams)
    case Some(e) => Err(e)
    case None => Ok(Platform(d["platform_name"]))
  }

  lemma PlatformRoundTrip(p: Platform)
    ensures PlatformFromDict(PlatformToDict(p)) == Ok(p)
  {
  }

  // ---------------------------------------------------------------- Channel

  const ChannelParams: set<string> := {"platform_id", "chat_name", "chat_id", "chat_description"}

  /**
   * A channel. Nothing in the record demands that `chat_name` or `chat_id` be
   * present; only the channels table checks that (see SqliteStore.ChannelRowOk).
   */
  datatype Channel = Channel(platformId: PyValue, chatName: PyValue, chatId: PyValue, chatDescription: PyValue)

  function ChannelToDict(c: Channel): (d: Dict)
    ensures d.Keys == ChannelParams
  {
    map["platform_id" := c.platformId, "chat_name" := c.chatName, "chat_id" := c.chatId,
        "chat_description" := c.chatDescription]
  }

  /** `Channel.from_dict(d)`: only `platform_id` is required; the rest default to None. */
  function ChannelFromDict(d: Dict): (r: Result<Channel, ConstructorError>)
    ensures r.Ok? <==> d.Keys <= ChannelParams && "platform_id" in d
    ensures r.Ok? ==> ChannelToDict(r.value) == NoneFor(ChannelParams) + d
  {
    match Bind(d, ChannelParams, {"platform_id"})
    case Some(e) => Err(e)
    case None =>
      Ok(Channel(d["platform_id"], Arg(d, "chat_name", PyNone), Arg(d, "chat_id", PyNone),
                 Arg(d, "chat_description", PyNone)))
  }

  lemma ChannelRoundTrip(c: Channel)
    ensures ChannelFromDict(ChannelToDict(c)) == Ok(c)
  {
  }

  // ---------------------------------------------------------------- MessageAnime / MessageEpisode

  const MessageAnimeParams: set<string> := {"anime_id", "message_id", "channel_id"}
  const MessageEpisodeParams: set<string> := {"episode_id", "message_id", "channel_id"}

  /** The record that anime `animeId` was posted as message `messageId` in channel `channelId`. */
  datatype MessageAnime = MessageAnime(animeId: PyValue, messageId: PyValue, channelId: PyValue)

  /** The record that episode `episodeId` was posted as message `messageId` in channel `channelId`. */
  datatype MessageEpisode = MessageEpisode(episodeId: PyValue, messageId: PyValue, channelId: PyValue)

  function MessageAnimeToDict(m: MessageAnime): (d: Dict)
    ensures d.Keys == MessageAnimeParams
  {
    map["anime_id" := m.animeId, "message_id" := m.messageId, "channel_id" := m.channelId]
  }

  function MessageAnimeFromDict(d: Dict): (r: Result<MessageAnime, ConstructorError>)
    ensures r.Ok? <==> d.Keys == MessageAnimeParams
    ensures r.Ok? ==> MessageAnimeToDict(r.value) == d
  {
    match Bind(d, MessageAnimeParams, MessageAnimeParams)
    case Some(e) => Err(e)
    case None => Ok(MessageAnime(d["anime_id"], d["message_id"], d["channel_id"]))
  }

  lemma MessageAnimeRoundTrip(m: MessageAnime)
    ensures MessageAnimeFromDict(MessageAnimeToDict(m)) == Ok(m)
  {
  }

  function MessageEpisodeToDict(m: MessageEpisode): (d: Dict)
    ensures d.Keys == MessageEpisodeParams
  {
    map["episode_id" := m.episodeId, "message_id" := m.messageId, "channel_id" := m.channelId]
  }

  function MessageEpisodeFromDict(d: Dict): (r: Result<MessageEpisode, ConstructorError>)
    ensures r.Ok? <==> d.Keys == MessageEpisodeParams
    ensures r.Ok? ==> MessageEpisodeToDict(r.value) == d
  {
    match Bind(d, MessageEpisodeParams, MessageEpisodeParams)
    case Some(e) => Err(e)
    case None => Ok(MessageEpisode(d["episode_id"], d["message_id"], d["channel_id"]))
  }

  lemma MessageEpisodeRoundTrip(m: MessageEpisode)
    ensures MessageEpisodeFromDict(MessageEpisodeToDict(m)) == Ok(m)
  {
  }
}
