/**
 * The local SQLite database of `local/db_sqlite3.py`: an `animes` and an
 * `episodes` table with the same NOT NULL and UNIQUE constraints as the
 * shared store, plus an `added_to` marker column in each. The Python objects
 * it fills in place (`anime.anime_id`, `episode.episode_id`) and reads
 * (`added_to`) are the entry classes below: a constructor record plus the
 * attributes the code attaches to it afterwards.
 */
module LocalDatabase {
  import opened Wrappers
  import opened PyValues
  import opened Tables
  import opened DbStructs
  import SqliteStore

  /**
   * An `Anime` instance together with the attributes attached to it after
   * construction: `anime_id` (None until `insert_anime` fills it in) and the
   * `added_to` and `channel` markers, whose values the caller supplies (the
   * record class itself defines neither).
   */
  class AnimeEntry {
    var record: Anime
    var animeId: PyValue
    var addedTo: string
    var channel: string

    constructor (record: Anime, addedTo: string, channel: string)
      ensures this.record == record && animeId == PyNone && this.addedTo == addedTo && this.channel == channel
    {
      this.record := record;
      animeId := PyNone;
      this.addedTo := addedTo;
      this.channel := channel;
    }
  }

  /**
   * An `Episode` instance together with the attributes attached to it after
   * construction: `episode_id` and `release_date` (None until filled in) and
   * the `added_to` marker the caller supplies.
   */
  class EpisodeEntry {
    var record: Episode
    var episodeId: PyValue
    var releaseDate: PyValue
    var addedTo: string

    constructor (record: Episode, addedTo: string)
      ensures this.record == record && episodeId == PyNone && releaseDate == PyNone && this.addedTo == addedTo
    {
      this.record := record;
      episodeId := PyNone;
      releaseDate := PyNone;
      this.addedTo := addedTo;
    }
  }

  datatype AnimeRow = AnimeRow(anime: Anime, addedTo: PyValue)
  datatype EpisodeRow = EpisodeRow(episode: Episode, addedTo: PyValue)

  predicate AnimeRowConflict(a: AnimeRow, b: AnimeRow) {
    SqliteStore.AnimeConflict(a.anime, b.anime)
  }

  predicate EpisodeRowConflict(a: EpisodeRow, b: EpisodeRow) {
    SqliteStore.EpisodeConflict(a.episode, b.episode)
  }

  predicate AnimeRowAccepted(t: Table<AnimeRow>, r: AnimeRow) {
    SqliteStore.AnimeRowOk(r.anime) && Admits(t, AnimeRowConflict, r)
  }

  predicate EpisodeRowAccepted(t: Table<EpisodeRow>, r: EpisodeRow) {
    SqliteStore.EpisodeRowOk(r.episode) && Admits(t, EpisodeRowConflict, r)
  }

  ghost predicate AnimesOk(t: Table<AnimeRow>) {
    WellNumbered(t) && NoConflicts(t, AnimeRowConflict) && forall id | id in t.rows :: SqliteStore.AnimeRowOk(t.rows[id].anime)
  }

  ghost predicate EpisodesOk(t: Table<EpisodeRow>) {
    WellNumbered(t) && NoConflicts(t, EpisodeRowConflict) && forall id | id in t.rows :: SqliteStore.EpisodeRowOk(t.rows[id].episode)
  }

  /** The row an `INSERT INTO episodes` without a `temp` column stores: `temp` takes its default, 0. */
  function StoredEpisode(e: Episode, addedTo: string): (r: EpisodeRow)
    ensures r.episode.temp == PyInt(0) && r.addedTo == PyStr(addedTo)
    ensures r.episode == e.(temp := PyInt(0))
  {
    EpisodeRow(e.(temp := PyInt(0)), PyStr(addedTo))
  }

  /** Which row `WHERE <id column> = ?` selects for a bound Python value. */
  function RowIdOf(v: PyValue): (r: Option<int>)
    ensures r.Some? <==> Stored(v).SqlInteger?
    ensures r.Some? ==> Stored(v) == SqlInteger(r.value)
  {
    match Stored(v)
    case SqlInteger(n) => Some(n)
    case _ => None
  }

  /** The sort key of `ORDER BY mal_id`. */
  function MalIdKey(r: AnimeRow): SqlValue {
    Stored(r.anime.malId)
  }

  /** The sort key of `ORDER BY episode_number`. */
  function EpisodeNumberKey(r: EpisodeRow): SqlValue {
    Stored(r.episode.episodeNumber)
  }

  predicate AnyAnime(r: AnimeRow) {
    true
  }

  /** `SELECT anime_id FROM animes WHERE mal_id = ?` */
  function AnimeIdFor(t: Table<AnimeRow>, malId: PyValue): int
    requires WellNumbered(t)
  {
    Lookup(t, (x: AnimeRow) => Clash(x.anime.malId, malId))
  }

  /** `SELECT episode_id FROM episodes WHERE mal_id = ? AND episode_number = ?` */
  function EpisodeIdFor(t: Table<EpisodeRow>, malId: PyValue, episodeNumber: PyValue): int
    requires WellNumbered(t)
  {
    Lookup(t, (x: EpisodeRow) => Clash(x.episode.malId, malId) && Clash(x.episode.episodeNumber, episodeNumber))
  }

  /**
   * The ids `get_animes_list` reads: every anime in id order with
   * `return_all`, otherwise `ORDER BY mal_id DESC LIMIT num_animes`.
   */
  function AnimesList(t: Table<AnimeRow>, numAnimes: int, returnAll: bool): (ids: seq<int>)
    requires WellNumbered(t)
    ensures forall i | 0 <= i < |ids| :: ids[i] in t.rows
  {
    if returnAll then IdsFrom(t, 1) else Limit(Ordered(t, AnyAnime, MalIdKey, true), numAnimes)
  }

  /** The ids `get_episodes_by_mal_id` reads: the anime's episodes by ascending episode number. */
  function EpisodesOf(t: Table<EpisodeRow>, malId: PyValue): seq<int>
    requires WellNumbered(t)
  {
    Ordered(t, (x: EpisodeRow) => Clash(x.episode.malId, malId), EpisodeNumberKey, false)
  }

  /** `get_animes_list(n, False)` returns `n` animes, or all of them when there are fewer or `n` is negative. */
  lemma AnimesListLength(t: Table<AnimeRow>, n: int)
    requires WellNumbered(t)
    ensures |AnimesList(t, n, false)| == if 0 <= n < |t.rows| then n else |t.rows|
  {
    OrderedCoversTable(t, Ordered(t, AnyAnime, MalIdKey, true));
  }

  /** `get_animes_list(n, False)` lists animes in strictly descending `mal_id`. */
  lemma AnimesListDescending(t: Table<AnimeRow>, n: int)
    requires AnimesOk(t)
    ensures var ids := AnimesList(t, n, false);
      forall i, j | 0 <= i < j < |ids| :: ids[i] in t.rows && ids[j] in t.rows && SqlLess(MalIdKey(t.rows[ids[j]]), MalIdKey(t.rows[ids[i]]))
  {
    var all := Ordered(t, AnyAnime, MalIdKey, true);
    var ids := AnimesList(t, n, false);
    assert ids == all[..|ids|];
    forall i, j | 0 <= i < j < |ids|
      ensures ids[i] in t.rows && ids[j] in t.rows && SqlLess(MalIdKey(t.rows[ids[j]]), MalIdKey(t.rows[ids[i]]))
    {
      assert ids[i] == all[i] && ids[j] == all[j];
      assert !Precedes(MalIdKey(t.rows[all[j]]), MalIdKey(t.rows[all[i]]), true);
      DistinctMalIds(t, all[i], all[j]);
      SqlLessIsStrictTotalOrder(MalIdKey(t.rows[all[i]]), MalIdKey(t.rows[all[j]]), MalIdKey(t.rows[all[i]]));
    }
  }

  /** The animes `get_animes_list(n, False)` leaves out all have a smaller `mal_id` than every one it returns. */
  lemma AnimesListTop(t: Table<AnimeRow>, n: int)
    requires AnimesOk(t)
    ensures var ids := AnimesList(t, n, false);
      forall k, i | k in t.rows && k !in ids && 0 <= i < |ids| :: ids[i] in t.rows && SqlLess(MalIdKey(t.rows[k]), MalIdKey(t.rows[ids[i]]))
  {
    var all := Ordered(t, AnyAnime, MalIdKey, true);
    var ids := AnimesList(t, n, false);
    assert ids == all[..|ids|];
    forall k, i | k in t.rows && k !in ids && 0 <= i < |ids|
      ensures ids[i] in t.rows && SqlLess(MalIdKey(t.rows[k]), MalIdKey(t.rows[ids[i]]))
    {
      assert Candidate(t, AnyAnime, k);
      var p :| 0 <= p < |all| && all[p] == k;
      assert p >= |ids|;
      assert ids[i] == all[i];
      assert !Precedes(MalIdKey(t.rows[all[p]]), MalIdKey(t.rows[all[i]]), true);
      DistinctMalIds(t, all[i], k);
      SqlLessIsStrictTotalOrder(MalIdKey(t.rows[k]), MalIdKey(t.rows[all[i]]), MalIdKey(t.rows[k]));
    }
  }

  /** Every anime is a candidate of the unfiltered query, so the ordered ids are exactly the table's ids. */
  lemma OrderedCoversTable(t: Table<AnimeRow>, all: seq<int>)
    requires WellNumbered(t) && all == Ordered(t, AnyAnime, MalIdKey, true)
    ensures |all| == |t.rows|
  {
    var s := set i | 0 <= i < |all| :: all[i];
    assert s == t.rows.Keys by {
      forall k | k in t.rows
        ensures k in s
      {
        assert Candidate(t, AnyAnime, k);
      }
    }
    DistinctSeqCard(all);
  }

  /** A sequence without repeats has as many elements as the set of its elements. */
  lemma {:induction false} DistinctSeqCard(s: seq<int>)
    requires forall i, j | 0 <= i < j < |s| :: s[i] != s[j]
    ensures |set i | 0 <= i < |s| :: s[i]| == |s|
    decreases |s|
  {
    if s != [] {
      var rest := s[1..];
      DistinctSeqCard(rest);
      var a := set i | 0 <= i < |s| :: s[i];
      var b := set i | 0 <= i < |rest| :: rest[i];
      assert a == {s[0]} + b by {
        forall x | x in a
          ensures x in {s[0]} + b
        {
          var i :| 0 <= i < |s| && s[i] == x;
          if i > 0 {
            assert rest[i - 1] == x;
          }
        }
        forall x | x in b
          ensures x in a
        {
          var i :| 0 <= i < |rest| && rest[i] == x;
          assert s[i + 1] == x;
        }
      }
      assert s[0] !in b by {
        forall i | 0 <= i < |rest|
          ensures rest[i] != s[0]
        {
          assert s[i + 1] == rest[i];
        }
      }
    }
  }

  /** `mal_id` is UNIQUE NOT NULL, so two different animes have different sort keys. */
  lemma DistinctMalIds(t: Table<AnimeRow>, i: int, j: int)
    requires AnimesOk(t) && i in t.rows && j in t.rows && i != j
    ensures MalIdKey(t.rows[i]) != MalIdKey(t.rows[j])
  {
    assert !AnimeRowConflict(t.rows[i], t.rows[j]);
  }

  /**
   * `get_episodes_by_mal_id(mal_id)` reads each of the anime's episodes
   * exactly once, in strictly ascending episode number.
   */
  lemma EpisodesOfSorted(t: Table<EpisodeRow>, malId: PyValue)
    requires EpisodesOk(t)
    ensures var ids := EpisodesOf(t, malId);
      && (forall i | 0 <= i < |ids| :: ids[i] in t.rows && Clash(t.rows[ids[i]].episode.malId, malId))
      && (forall k | k in t.rows && Clash(t.rows[k].episode.malId, malId) :: k in ids)
      && (forall i, j | 0 <= i < j < |ids| :: SqlLess(EpisodeNumberKey(t.rows[ids[i]]), EpisodeNumberKey(t.rows[ids[j]])))
  {
    var ids := EpisodesOf(t, malId);
    forall k | k in t.rows && Clash(t.rows[k].episode.malId, malId)
      ensures k in ids
    {
      assert Candidate(t, (x: EpisodeRow) => Clash(x.episode.malId, malId), k);
    }
    forall i, j | 0 <= i < j < |ids|
      ensures SqlLess(EpisodeNumberKey(t.rows[ids[i]]), EpisodeNumberKey(t.rows[ids[j]]))
    {
      var a, b := t.rows[ids[i]], t.rows[ids[j]];
      assert !EpisodeRowConflict(a, b);
      assert Clash(a.episode.malId, b.episode.malId);
      assert EpisodeNumberKey(a) != EpisodeNumberKey(b);
      SqlLessIsStrictTotalOrder(EpisodeNumberKey(a), EpisodeNumberKey(b), EpisodeNumberKey(a));
    }
  }

  class Database {
    var animes: Table<AnimeRow>
    var episodes: Table<EpisodeRow>

    ghost predicate Valid()
      reads this
    {
      AnimesOk(animes) && EpisodesOk(episodes)
    }

    /** `Database(path)` on a new file: `create_tables` leaves both tables empty. */
    constructor ()
      ensures Valid() && animes.rows == map[] && episodes.rows == map[]
    {
      animes := EmptyTable();
      episodes := EmptyTable();
    }

    /**
     * `insert_anime(anime)`: stores the anime with its `added_to`, sets
     * `anime.anime_id` to the new id and returns it; on a NULL or repeated
     * `mal_id`/`title` returns None and changes nothing.
     */
    method InsertAnime(anime: AnimeEntry) returns (id: Option<int>)
      requires Valid()
      modifies this, anime`animeId
      ensures Valid() && episodes == old(episodes)
      ensures id.Some? <==> AnimeRowAccepted(old(animes), AnimeRow(anime.record, PyStr(anime.addedTo)))
      ensures id.Some? ==> id.value == old(animes).nextId && id.value !in old(animes).rows
      ensures id.Some? ==> animes == Append(old(animes), AnimeRow(anime.record, PyStr(anime.addedTo)))
      ensures id.Some? ==> anime.animeId == PyInt(id.value) && GetAnimeIdByMalId(anime.record.malId) == id
      ensures id.None? ==> animes == old(animes) && anime.animeId == old(anime.animeId)
    {
      var row := AnimeRow(anime.record, PyStr(anime.addedTo));
      if AnimeRowAccepted(animes, row) {
        AppendKeepsInvariant(animes, AnimeRowConflict, row);
        forall k | k in animes.rows
          ensures !Clash(animes.rows[k].anime.malId, row.anime.malId)
        {
          assert !AnimeRowConflict(animes.rows[k], row);
        }
        LookupFindsAppended(animes, row, (x: AnimeRow) => Clash(x.anime.malId, row.anime.malId));
        id := Some(animes.nextId);
        animes := Append(animes, row);
        anime.animeId := PyInt(id.value);
      } else {
        id := None;
      }
    }

    /**
     * `insert_episode(episode)`: stores the episode with its `added_to` and
     * `temp` 0 (the insert leaves `temp` out), sets `episode.episode_id` and
     * returns the new id; None and no change when a constraint rejects it.
     */
    method InsertEpisode(episode: EpisodeEntry) returns (id: Option<int>)
      requires Valid()
      modifies this, episode`episodeId
      ensures Valid() && animes == old(animes)
      ensures id.Some? <==> EpisodeRowAccepted(old(episodes), StoredEpisode(episode.record, episode.addedTo))
      ensures id.Some? ==> id.value == old(episodes).nextId && id.value !in old(episodes).rows
      ensures id.Some? ==> episodes == Append(old(episodes), StoredEpisode(episode.record, episode.addedTo))
      ensures id.Some? ==> episode.episodeId == PyInt(id.value) && GetEpisodeMalId(episode.record) == id
      ensures id.None? ==> episodes == old(episodes) && episode.episodeId == old(episode.episodeId)
    {
      var row := StoredEpisode(episode.record, episode.addedTo);
      if EpisodeRowAccepted(episodes, row) {
        AppendKeepsInvariant(episodes, EpisodeRowConflict, row);
        forall k | k in episodes.rows
          ensures !(Clash(episodes.rows[k].episode.malId, row.episode.malId)
                    && Clash(episodes.rows[k].episode.episodeNumber, row.episode.episodeNumber))
        {
          assert !EpisodeRowConflict(episodes.rows[k], row);
        }
        LookupFindsAppended(episodes, row,
          (x: EpisodeRow) => Clash(x.episode.malId, row.episode.malId) && Clash(x.episode.episodeNumber, row.episode.episodeNumber));
        id := Some(episodes.nextId);
        episodes := Append(episodes, row);
        episode.episodeId := PyInt(id.value);
      } else {
        id := None;
      }
    }

    /** `get_anime_id_by_mal_id(mal_id)`: the id of the anime with that `mal_id`, or None. */
    function GetAnimeIdByMalId(malId: PyValue): (r: Option<int>)
      reads this
      requires Valid()
      ensures r.None? <==> forall k | k in animes.rows :: !Clash(animes.rows[k].anime.malId, malId)
      ensures r.Some? ==> r.value in animes.rows && Clash(animes.rows[r.value].anime.malId, malId)
      ensures forall k | k in animes.rows && Clash(animes.rows[k].anime.malId, malId) :: r == Some(k)
    {
      var id := AnimeIdFor(animes, malId);
      if id == BAD_ID then None else Some(id)
    }

    /** `get_episode_mal_id(episode)`: the id of the stored episode with the same `(mal_id, episode_number)`, or None. */
    function GetEpisodeMalId(episode: Episode): (r: Option<int>)
      reads this
      requires Valid()
      ensures r.None? <==> forall k | k in episodes.rows ::
        !(Clash(episodes.rows[k].episode.malId, episode.malId) && Clash(episodes.rows[k].episode.episodeNumber, episode.episodeNumber))
      ensures r.Some? ==> (r.value in episodes.rows
        && Clash(episodes.rows[r.value].episode.malId, episode.malId)
        && Clash(episodes.rows[r.value].episode.episodeNumber, episode.episodeNumber))
    {
      var id := EpisodeIdFor(episodes, episode.malId, episode.episodeNumber);
      if id == BAD_ID then None else Some(id)
    }

    /** `get_anime_by_mal_id(mal_id)`: the stored anime and its id, or ValueError when there is none. */
    function GetAnimeByMalId(malId: PyValue): (r: Result<(int, AnimeRow), PyError>)
      reads this
      requires Valid()
      ensures r.Err? <==> forall k | k in animes.rows :: !Clash(animes.rows[k].anime.malId, malId)
      ensures r.Err? ==> r.error == ValueError
      ensures r.Ok? ==> r.value.0 in animes.rows && r.value.1 == animes.rows[r.value.0] && Clash(r.value.1.anime.malId, malId)
    {
      match GetAnimeIdByMalId(malId)
      case None => Err(ValueError)
      case Some(id) => Ok((id, animes.rows[id]))
    }

    /** `get_animes_list(num_animes, return_all)`: builds the list row by row, in the query's order. */
    method GetAnimesList(numAnimes: int, returnAll: bool) returns (list: seq<(int, AnimeRow)>)
      requires Valid()
      ensures var ids := AnimesList(animes, numAnimes, returnAll);
        |list| == |ids| && forall i | 0 <= i < |list| :: list[i].0 == ids[i] && list[i].0 in animes.rows && list[i].1 == animes.rows[ids[i]]
      ensures returnAll ==> |list| == |animes.rows| && (forall i, j | 0 <= i < j < |list| :: list[i].0 < list[j].0)
      ensures !returnAll && numAnimes >= 0 ==> |list| <= numAnimes
      ensures !returnAll ==> forall i, j | 0 <= i < j < |list| :: SqlLess(Stored(list[j].1.anime.malId), Stored(list[i].1.anime.malId))
    {
      var ids := AnimesList(animes, numAnimes, returnAll);
      if returnAll {
        AllIdsCount(animes);
      } else {
        AnimesListLength(animes, numAnimes);
        AnimesListDescending(animes, numAnimes);
      }
      list := FetchAnimes(ids);
    }

    /** The rows of `ids`, in that order, as the cursor yields them. */
    method FetchAnimes(ids: seq<int>) returns (list: seq<(int, AnimeRow)>)
      requires Valid() && forall i | 0 <= i < |ids| :: ids[i] in animes.rows
      ensures |list| == |ids| && forall i | 0 <= i < |list| :: list[i].0 == ids[i] && list[i].1 == animes.rows[ids[i]]
    {
      list := [];
      var i := 0;
      while i < |ids|
        invariant 0 <= i <= |ids|
        invariant |list| == i
        invariant forall j | 0 <= j < i :: list[j].0 == ids[j] && list[j].1 == animes.rows[ids[j]]
      {
        list := list + [(ids[i], animes.rows[ids[i]])];
        i := i + 1;
      }
    }

    /**
     * `get_episodes_by_mal_id(mal_id)` (the second definition, which is the
     * one Python keeps): ValueError when the anime has no episode, otherwise
     * its episodes by ascending episode number.
     */
    method GetEpisodesByMalId(malId: PyValue) returns (r: Result<seq<(int, EpisodeRow)>, PyError>)
      requires Valid()
      ensures r.Err? <==> forall k | k in episodes.rows :: !Clash(episodes.rows[k].episode.malId, malId)
      ensures r.Err? ==> r.error == ValueError
      ensures r.Ok? ==> var ids := EpisodesOf(episodes, malId);
        |r.value| == |ids| && forall i | 0 <= i < |ids| :: r.value[i].0 == ids[i] && r.value[i].1 == episodes.rows[ids[i]]
      ensures r.Ok? ==> forall i, j | 0 <= i < j < |r.value| ::
        SqlLess(Stored(r.value[i].1.episode.episodeNumber), Stored(r.value[j].1.episode.episodeNumber))
    {
      var ids := EpisodesOf(episodes, malId);
      EpisodesOfSorted(episodes, malId);
      if |ids| == 0 {
        return Err(ValueError);
      }
      var list: seq<(int, EpisodeRow)> := [];
      var i := 0;
      while i < |ids|
        invariant 0 <= i <= |ids|
        invariant |list| == i
        invariant forall j | 0 <= j < i :: list[j].0 == ids[j] && list[j].1 == episodes.rows[ids[j]]
      {
        list := list + [(ids[i], episodes.rows[ids[i]])];
        i := i + 1;
      }
      r := Ok(list);
    }

    /**
     * `update_anime_added_to(anime)`: `UPDATE animes SET added_to = ? WHERE
     * anime_id = ?`; only that row's `added_to` changes, and nothing changes
     * when no row has that id.
     */
    method UpdateAnimeAddedTo(anime: AnimeEntry)
      requires Valid()
      modifies this
      ensures Valid() && episodes == old(episodes) && animes.nextId == old(animes).nextId
      ensures var target := RowIdOf(anime.animeId);
        if target.Some? && target.value in old(animes).rows then
          animes.rows == old(animes).rows[target.value := old(animes).rows[target.value].(addedTo := PyStr(anime.addedTo))]
        else animes == old(animes)
    {
      var target := RowIdOf(anime.animeId);
      if target.Some? && target.value in animes.rows {
        var t := animes;
        var t' := Table(t.rows[target.value := t.rows[target.value].(addedTo := PyStr(anime.addedTo))], t.nextId);
        assert forall k | k in t'.rows :: t'.rows[k].anime == t.rows[k].anime;
        animes := t';
      }
    }

    /** `update_episode_added_to(episode)`: only the `added_to` of the episode with that id changes. */
    method UpdateEpisodeAddedTo(episode: EpisodeEntry)
      requires Valid()
      modifies this
      ensures Valid() && animes == old(animes) && episodes.nextId == old(episodes).nextId
      ensures var target := RowIdOf(episode.episodeId);
        if target.Some? && target.value in old(episodes).rows then
          episodes.rows == old(episodes).rows[target.value := old(episodes).rows[target.value].(addedTo := PyStr(episode.addedTo))]
        else episodes == old(episodes)
    {
      var target := RowIdOf(episode.episodeId);
      if target.Some? && target.value in episodes.rows {
        var t := episodes;
        var t' := Table(t.rows[target.value := t.rows[target.value].(addedTo := PyStr(episode.addedTo))], t.nextId);
        assert forall k | k in t'.rows :: t'.rows[k].episode == t.rows[k].episode;
        episodes := t';
      }
    }
  }

  /** With `return_all` every anime is read, in ascending id order. */
  lemma AllIdsCount(t: Table<AnimeRow>)
    requires WellNumbered(t)
    ensures |IdsFrom(t, 1)| == |t.rows|
  {
    var ids := IdsFrom(t, 1);
    var s := set i | 0 <= i < |ids| :: ids[i];
    assert s == t.rows.Keys;
    DistinctSeqCard(ids);
  }
}
